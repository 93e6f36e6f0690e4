/**
 * What the simulation engine promises, proved about the functions of
 * `Simulation`: the truth tables, what one node evaluation writes, how
 * propagation resolves several wires, and how the settle loop ends.
 */
module SimulationFacts {
  import opened Types
  import opened Keys
  import opened Simulation

  // ---------------------------------------------------------------------
  // Truth tables

  /** `every(v => v === 1)`: every input is exactly 1. */
  lemma {:induction false} AllOneIff(vs: seq<Signal>)
    ensures AllOne(vs) <==> forall i :: 0 <= i < |vs| ==> vs[i] == One
  {
    if vs != [] {
      AllOneIff(vs[1..]);
      assert forall i :: 1 <= i < |vs| ==> vs[i] == vs[1..][i - 1];
    }
  }

  /** `some(v => v === 1)`: at least one input is exactly 1. */
  lemma {:induction false} AnyOneIff(vs: seq<Signal>)
    ensures AnyOne(vs) <==> exists i :: 0 <= i < |vs| && vs[i] == One
  {
    if vs != [] {
      AnyOneIff(vs[1..]);
      if AnyOne(vs[1..]) {
        var i :| 0 <= i < |vs[1..]| && vs[1..][i] == One;
        assert vs[i + 1] == One;
      }
      if exists i :: 0 <= i < |vs| && vs[i] == One {
        var i :| 0 <= i < |vs| && vs[i] == One;
        if i > 0 {
          assert vs[1..][i - 1] == One;
        }
      }
    }
  }

  /** Undefined read as 0, as `x || 0` does. */
  function OrZero(v: Signal): Signal {
    if v == Undef then Zero else v
  }

  /**
   * AND and OR over any number of inputs, with NAND and NOR their
   * negations; an undefined input is never 1.
   */
  lemma AndOrTables(node: Node, ins: seq<Signal>, tick: int)
    ensures node.kind == And ==> (KindOutputs(node, ins, tick) ==
      [if forall i :: 0 <= i < |ins| ==> ins[i] == One then One else Zero])
    ensures node.kind == Nand ==> (KindOutputs(node, ins, tick) ==
      [if forall i :: 0 <= i < |ins| ==> ins[i] == One then Zero else One])
    ensures node.kind == Or ==> (KindOutputs(node, ins, tick) ==
      [if exists i :: 0 <= i < |ins| && ins[i] == One then One else Zero])
    ensures node.kind == Nor ==> (KindOutputs(node, ins, tick) ==
      [if exists i :: 0 <= i < |ins| && ins[i] == One then Zero else One])
  {
    AllOneIff(ins);
    AnyOneIff(ins);
  }

  /**
   * XOR and XNOR compare the first two inputs with undefined (or missing)
   * read as 0; NOT gives 0 exactly when its input is 1, so undefined gives 1.
   */
  lemma XorNotTables(node: Node, ins: seq<Signal>, tick: int)
    ensures node.kind == Xor ==> (KindOutputs(node, ins, tick) ==
      [if OrZero(SignalAt(ins, 0)) != OrZero(SignalAt(ins, 1)) then One else Zero])
    ensures node.kind == Xnor ==> (KindOutputs(node, ins, tick) ==
      [if OrZero(SignalAt(ins, 0)) != OrZero(SignalAt(ins, 1)) then Zero else One])
    ensures node.kind == Not ==> (|KindOutputs(node, ins, tick)| == 1 &&
      (KindOutputs(node, ins, tick)[0] == Zero <==> SignalAt(ins, 0) == One) &&
      KindOutputs(node, ins, tick)[0] != Undef)
  {
  }

  /** Every gate and source drives a defined level; only split and the display can pass undefined on. */
  lemma GateOutputsDefined(node: Node, ins: seq<Signal>, tick: int, i: int)
    requires node.kind !in {Split, SignalDisplay, Note}
    requires 0 <= i < |KindOutputs(node, ins, tick)|
    ensures KindOutputs(node, ins, tick)[i] != Undef
  {
  }

  /**
   * How many values each kind drives, matching the pin layout of the
   * store (two for split, none for a note, one otherwise), and the
   * pass-through kinds copy their first input.
   */
  lemma OutputShapes(node: Node, ins: seq<Signal>, tick: int)
    ensures node.kind == Note ==> KindOutputs(node, ins, tick) == []
    ensures node.kind == Split ==> KindOutputs(node, ins, tick) == [SignalAt(ins, 0), SignalAt(ins, 0)]
    ensures node.kind == SignalDisplay ==> KindOutputs(node, ins, tick) == [SignalAt(ins, 0)]
    ensures node.kind !in {Note, Split} ==> |KindOutputs(node, ins, tick)| == 1
  {
  }

  /** A constant drives 1 exactly when its `Value` parameter is truthy, and 0 without one. */
  lemma ConstTable(node: Node, ins: seq<Signal>, tick: int)
    requires node.kind == Const
    ensures node.data.None? || "Value" !in node.data.value ==> KindOutputs(node, ins, tick) == [Zero]
    ensures KindOutputs(node, ins, tick) == [One] <==>
      node.data.Some? && "Value" in node.data.value && Truthy(node.data.value["Value"].value)
  {
  }

  /**
   * A clock drives 1 exactly on the ticks its period divides: period 2
   * when no `period` parameter is set, the parameter's number otherwise.
   */
  lemma ClockTable(node: Node, ins: seq<Signal>, tick: int)
    requires node.kind == Clock
    ensures node.data.None? || "period" !in node.data.value ==>
      (KindOutputs(node, ins, tick) == [One] <==> tick % 2 == 0)
    ensures (node.data.Some? && "period" in node.data.value && node.data.value["period"].value.Num? &&
      node.data.value["period"].value.n != 0) ==>
      (KindOutputs(node, ins, tick) == [One] <==> tick % node.data.value["period"].value.n == 0)
    ensures |KindOutputs(node, ins, tick)| == 1 && KindOutputs(node, ins, tick)[0] != Undef
  {
  }

  // ---------------------------------------------------------------------
  // One node evaluation

  /** The output writes leave every pin outside `ids[..n]` as it was. */
  lemma {:induction false} WriteOutputsFrame(pins: PinTable, ids: seq<int>, vals: seq<Signal>, n: nat, id: int)
    requires n <= |ids| && id !in ids[..n]
    ensures id in WriteOutputs(pins, ids, vals, n) <==> id in pins
    ensures id in pins ==> WriteOutputs(pins, ids, vals, n)[id] == pins[id]
  {
    if n > 0 {
      assert ids[..n - 1] <= ids[..n];
      assert ids[n - 1] in ids[..n];
      WriteOutputsFrame(pins, ids, vals, n - 1, id);
    }
  }

  /** With distinct output ids, write `i` leaves pin `ids[i]` holding value `i`. */
  lemma {:induction false} WriteOutputsSets(pins: PinTable, ids: seq<int>, vals: seq<Signal>, n: nat, i: nat)
    requires n <= |ids| && i < n && NoDups(ids)
    ensures ValueAt(WriteOutputs(pins, ids, vals, n), ids[i]) == SignalAt(vals, i)
  {
    if i < n - 1 {
      WriteOutputsSets(pins, ids, vals, n - 1, i);
    }
  }

  /** When nothing was written the table is the one given. */
  lemma {:induction false} NoWriteNoChange(pins: PinTable, ids: seq<int>, vals: seq<Signal>, n: nat)
    requires n <= |ids| && !WroteAny(pins, ids, vals, n)
    ensures WriteOutputs(pins, ids, vals, n) == pins
  {
    if n > 0 {
      NoWriteNoChange(pins, ids, vals, n - 1);
    }
  }

  /** With distinct output ids, something was written exactly when some output pin held a different value. */
  lemma {:induction false} WroteAnyIff(pins: PinTable, ids: seq<int>, vals: seq<Signal>, n: nat)
    requires n <= |ids| && NoDups(ids)
    ensures WroteAny(pins, ids, vals, n) <==>
      exists i :: 0 <= i < n && ValueAt(pins, ids[i]) != SignalAt(vals, i)
  {
    if n > 0 {
      WroteAnyIff(pins, ids, vals, n - 1);
      assert ids[n - 1] !in ids[..n - 1];
      WriteOutputsFrame(pins, ids, vals, n - 1, ids[n - 1]);
      assert ValueAt(WriteOutputs(pins, ids, vals, n - 1), ids[n - 1]) == ValueAt(pins, ids[n - 1]);
    }
  }

  /** `evaluateNode` touches no pin but the node's own outputs. */
  lemma EvaluateFrame(node: Node, pins: PinTable, tick: int, id: int)
    requires id !in node.outputPins
    ensures id in Evaluate(node, pins, tick).0 <==> id in pins
    ensures id in pins ==> Evaluate(node, pins, tick).0[id] == pins[id]
  {
    assert node.outputPins[..|node.outputPins|] == node.outputPins;
    WriteOutputsFrame(pins, node.outputPins, NodeOutputs(node, pins, tick), |node.outputPins|, id);
  }

  /** With distinct output pins, each output pin ends up holding the value computed for it. */
  lemma EvaluateSetsOutputs(node: Node, pins: PinTable, tick: int, i: nat)
    requires NoDups(node.outputPins) && i < |node.outputPins|
    ensures ValueAt(Evaluate(node, pins, tick).0, node.outputPins[i]) == SignalAt(NodeOutputs(node, pins, tick), i)
  {
    WriteOutputsSets(pins, node.outputPins, NodeOutputs(node, pins, tick), |node.outputPins|, i);
  }

  /**
   * `evaluateNode` reports a change exactly when some output pin held a
   * value other than the one computed for it, and a reported "no change"
   * leaves the table as it was.
   */
  lemma EvaluateChangedIff(node: Node, pins: PinTable, tick: int)
    requires NoDups(node.outputPins)
    ensures Evaluate(node, pins, tick).1 <==>
      exists i :: 0 <= i < |node.outputPins| && ValueAt(pins, node.outputPins[i]) != SignalAt(NodeOutputs(node, pins, tick), i)
    ensures !Evaluate(node, pins, tick).1 ==> Evaluate(node, pins, tick).0 == pins
  {
    var vals := NodeOutputs(node, pins, tick);
    WroteAnyIff(pins, node.outputPins, vals, |node.outputPins|);
    if !Evaluate(node, pins, tick).1 {
      NoWriteNoChange(pins, node.outputPins, vals, |node.outputPins|);
    }
  }

  // ---------------------------------------------------------------------
  // Propagation

  /** No wire reads from a pin that some wire writes to. */
  predicate NoChaining(wires: map<int, Wire>) {
    forall a, b :: a in wires && b in wires ==> wires[a].from != wires[b].to
  }

  /** The position in `keys[..n]` of the last wire that writes pin `p`, if any. */
  function LastWriter(wires: map<int, Wire>, keys: seq<int>, n: nat, p: int): (j: Option<nat>)
    requires n <= |keys| && forall i :: 0 <= i < |keys| ==> keys[i] in wires
    ensures j.Some? ==> (j.value < n && wires[keys[j.value]].to == p &&
      forall i :: j.value < i < n ==> wires[keys[i]].to != p)
    ensures j.None? ==> forall i :: 0 <= i < n ==> wires[keys[i]].to != p
  {
    if n == 0 then None
    else if wires[keys[n - 1]].to == p then Some(n - 1)
    else LastWriter(wires, keys, n - 1, p)
  }

  /**
   * Without chaining, every pin ends up with the value the last wire
   * writing it read at the start, and keeps its own value when no wire writes it.
   */
  lemma {:induction false} PropagateLastWriter(pins: PinTable, wires: map<int, Wire>, keys: seq<int>, n: nat, p: int)
    requires n <= |keys| && forall i :: 0 <= i < |keys| ==> keys[i] in wires
    requires NoChaining(wires)
    ensures ValueAt(PropagateN(pins, wires, keys, n), p) ==
      match LastWriter(wires, keys, n, p)
      case None => ValueAt(pins, p)
      case Some(j) => ValueAt(pins, wires[keys[j]].from)
  {
    if n > 0 {
      var w := wires[keys[n - 1]];
      PropagateLastWriter(pins, wires, keys, n - 1, p);
      PropagateLastWriter(pins, wires, keys, n - 1, w.from);
      forall i | 0 <= i < n - 1
        ensures wires[keys[i]].to != w.from
      {
        var a, b := keys[n - 1], keys[i];
        assert a in wires && b in wires;
        assert wires[a].from != wires[b].to;
      }
    }
  }

  /** Propagation leaves every pin no wire writes exactly as it was. */
  lemma {:induction false} PropagateFrame(pins: PinTable, wires: map<int, Wire>, keys: seq<int>, n: nat, p: int)
    requires n <= |keys| && forall i :: 0 <= i < |keys| ==> keys[i] in wires
    requires forall i :: 0 <= i < n ==> wires[keys[i]].to != p
    ensures p in PropagateN(pins, wires, keys, n) <==> p in pins
    ensures p in pins ==> PropagateN(pins, wires, keys, n)[p] == pins[p]
  {
    if n > 0 {
      PropagateFrame(pins, wires, keys, n - 1, p);
    }
  }

  /** A pin a wire in `keys[..n]` writes has an entry afterwards. */
  lemma {:induction false} PropagateWritten(pins: PinTable, wires: map<int, Wire>, keys: seq<int>, n: nat, i: nat)
    requires n <= |keys| && forall k :: 0 <= k < |keys| ==> keys[k] in wires
    requires i < n
    ensures wires[keys[i]].to in PropagateN(pins, wires, keys, n)
  {
    if i < n - 1 {
      PropagateWritten(pins, wires, keys, n - 1, i);
    }
  }

  /** A pin with no entry before propagation can only gain one that carries just a value. */
  lemma {:induction false} PropagateKeepsPartial(pins: PinTable, wires: map<int, Wire>, keys: seq<int>, n: nat, t: int)
    requires n <= |keys| && forall k :: 0 <= k < |keys| ==> keys[k] in wires
    requires t !in pins
    ensures t in PropagateN(pins, wires, keys, n) ==> PropagateN(pins, wires, keys, n)[t].Partial?
  {
    if n > 0 {
      PropagateKeepsPartial(pins, wires, keys, n - 1, t);
    }
  }

  /**
   * `propagate` over the whole record: without chaining, a pin several
   * wires write ends up with the value read by the wire with the highest
   * id; a pin no wire writes is untouched; and a wire whose target has no
   * entry creates one carrying only a value.
   */
  lemma PropagatedHighestWireWins(pins: PinTable, wires: map<int, Wire>, w: int)
    requires NoChaining(wires) && w in wires
    requires forall k :: k in wires && wires[k].to == wires[w].to ==> k <= w
    ensures ValueAt(Propagated(pins, wires), wires[w].to) == ValueAt(pins, wires[w].from)
  {
    var keys := SortedKeys(wires.Keys);
    var p := wires[w].to;
    SortedKeysIncreasing(wires.Keys);
    PropagateLastWriter(pins, wires, keys, |keys|, p);
    var iw :| 0 <= iw < |keys| && keys[iw] == w;
    match LastWriter(wires, keys, |keys|, p)
    case None =>
      assert false;
    case Some(j) =>
      if keys[j] != w {
        assert false;
      }
  }

  lemma PropagatedUntouched(pins: PinTable, wires: map<int, Wire>, p: int)
    requires forall k :: k in wires ==> wires[k].to != p
    ensures p in Propagated(pins, wires) <==> p in pins
    ensures p in pins ==> Propagated(pins, wires)[p] == pins[p]
  {
    var keys := SortedKeys(wires.Keys);
    PropagateFrame(pins, wires, keys, |keys|, p);
  }

  lemma PropagatedDangling(pins: PinTable, wires: map<int, Wire>, w: int)
    requires w in wires && wires[w].to !in pins
    ensures wires[w].to in Propagated(pins, wires) && Propagated(pins, wires)[wires[w].to].Partial?
  {
    var keys := SortedKeys(wires.Keys);
    var iw :| 0 <= iw < |keys| && keys[iw] == w;
    PropagateWritten(pins, wires, keys, |keys|, iw);
    PropagateKeepsPartial(pins, wires, keys, |keys|, wires[w].to);
  }

  // ---------------------------------------------------------------------
  // The settle loop

  /** The table after `k` settle passes starting from `pins`. */
  function AfterPasses(c: Circuit, pins: PinTable, tick: int, k: nat): PinTable
    requires c.Valid()
  {
    if k == 0 then pins else Pass(c, AfterPasses(c, pins, tick, k - 1), tick).0
  }

  /** Whether pass number `k` (counting from 1) changed anything. */
  predicate PassChanged(c: Circuit, pins: PinTable, tick: int, k: nat)
    requires c.Valid() && k >= 1
  {
    Pass(c, AfterPasses(c, pins, tick, k - 1), tick).1
  }

  lemma {:induction false} SettleFrom(c: Circuit, pins: PinTable, tick: int, done: nat)
    requires c.Valid() && done < MaxPasses
    ensures var r := Settle(c, AfterPasses(c, pins, tick, done), tick, done);
      r.0 == AfterPasses(c, pins, tick, r.1) &&
      (forall k :: done < k < r.1 ==> PassChanged(c, pins, tick, k)) &&
      (r.1 < MaxPasses ==> !PassChanged(c, pins, tick, r.1))
    decreases MaxPasses - done
  {
    var q := AfterPasses(c, pins, tick, done);
    var (after, ch) := Pass(c, q, tick);
    assert after == AfterPasses(c, pins, tick, done + 1);
    assert ch == PassChanged(c, pins, tick, done + 1);
    if ch && done + 1 < MaxPasses {
      SettleFrom(c, pins, tick, done + 1);
    }
  }

  /**
   * The settle loop runs between 1 and 100 passes, every pass but the last
   * changed something, and it stopped early only on a pass that changed
   * nothing; its table is the one those passes produce.
   */
  lemma SettleStopsAtFirstQuietPass(c: Circuit, pins: PinTable, tick: int)
    requires c.Valid()
    ensures var r := Settle(c, pins, tick, 0);
      1 <= r.1 <= MaxPasses &&
      r.0 == AfterPasses(c, pins, tick, r.1) &&
      (forall k :: 1 <= k < r.1 ==> PassChanged(c, pins, tick, k)) &&
      (r.1 < MaxPasses ==> !PassChanged(c, pins, tick, r.1))
  {
    SettleFrom(c, pins, tick, 0);
  }

  /** The table the settle loop starts from in a step. */
  function SettleStart(nodes: map<int, Node>, pins: PinTable, wires: map<int, Wire>, currentTick: int): PinTable {
    Propagated(EvalSources(nodes, pins, currentTick + 1), wires)
  }

  /**
   * A step warns exactly when each of the first 99 passes changed
   * something, whatever the 100th pass did, so a loop that settles on
   * exactly the 100th pass still warns.
   */
  lemma StepWarnsIff(nodes: map<int, Node>, pins: PinTable, wires: map<int, Wire>, currentTick: int)
    ensures StepSpec(nodes, pins, wires, currentTick).tick == currentTick + 1
    ensures var c, start, tick := CircuitOf(nodes, wires), SettleStart(nodes, pins, wires, currentTick), currentTick + 1;
      StepSpec(nodes, pins, wires, currentTick).oscillation <==>
      forall k :: 1 <= k < MaxPasses ==> PassChanged(c, start, tick, k)
  {
    var c := CircuitOf(nodes, wires);
    var start := SettleStart(nodes, pins, wires, currentTick);
    SettleStopsAtFirstQuietPass(c, start, currentTick + 1);
  }

  /** A circuit of one NOT gate `nd` whose output pin is wired back to its input pin by `w`. */
  predicate NotLoop(nodes: map<int, Node>, wires: map<int, Wire>, nd: Node, w: Wire) {
    nodes == map[nd.id := nd] && nd.kind == Not && nd.inputPins == [w.to] && nd.outputPins == [w.from] &&
    wires == map[w.id := w] && w.from != w.to
  }

  /** Whichever value the loop holds, a pass flips the gate and carries the flip back round. */
  lemma NotLoopPass(c: Circuit, q: PinTable, tick: int, nd: Node, w: Wire)
    requires c.Valid() && NotLoop(c.nodes, c.wires, nd, w)
    requires c.nodeOrder == [nd.id] && c.wireOrder == [w.id]
    requires ValueAt(q, w.to) == ValueAt(q, w.from)
    ensures Pass(c, q, tick).1
    ensures ValueAt(Pass(c, q, tick).0, w.to) == ValueAt(Pass(c, q, tick).0, w.from)
  {
    assert c.nodes[c.nodeOrder[0]] == nd;
    var vals := NodeOutputs(nd, q, tick);
    assert InputValues(q, nd.inputPins) == [ValueAt(q, w.to)];
    assert vals == [if ValueAt(q, w.to) == One then Zero else One];
    assert WroteAny(q, nd.outputPins, vals, 1);
    assert Evaluate(nd, q, tick).1;
    assert EvalCombN(c.nodes, c.nodeOrder, q, tick, 0) == (q, false);
    var (p, ch) := EvalCombN(c.nodes, c.nodeOrder, q, tick, 1);
    assert ch;
    assert ValueAt(p, w.from) != Undef;
  }

  lemma {:induction false} NotLoopSettle(c: Circuit, q: PinTable, tick: int, done: nat, nd: Node, w: Wire)
    requires c.Valid() && NotLoop(c.nodes, c.wires, nd, w) && done < MaxPasses
    requires c.nodeOrder == [nd.id] && c.wireOrder == [w.id]
    requires ValueAt(q, w.to) == ValueAt(q, w.from)
    ensures Settle(c, q, tick, done).1 == MaxPasses
    decreases MaxPasses - done
  {
    NotLoopPass(c, q, tick, nd, w);
    if done + 1 < MaxPasses {
      NotLoopSettle(c, Pass(c, q, tick).0, tick, done + 1, nd, w);
    }
  }

  /** A NOT gate fed by its own output never settles: every step runs all 100 passes and warns. */
  lemma NotLoopOscillates(nodes: map<int, Node>, pins: PinTable, wires: map<int, Wire>, currentTick: int, nd: Node, w: Wire)
    requires NotLoop(nodes, wires, nd, w)
    ensures StepSpec(nodes, pins, wires, currentTick).oscillation
  {
    var tick := currentTick + 1;
    assert nodes.Keys == {nd.id} && wires.Keys == {w.id};
    SortedSingleton(nd.id);
    SortedSingleton(w.id);
    assert nodes[nd.id] == nd && !IsSource(nd.kind);
    var sourced := EvalSources(nodes, pins, tick);
    assert sourced == EvalSourcesN(nodes, [nd.id], pins, tick, 1);
    assert sourced == pins;
    var start := Propagated(sourced, wires);
    assert ValueAt(start, w.to) == ValueAt(start, w.from);
    NotLoopSettle(CircuitOf(nodes, wires), start, tick, 0, nd, w);
  }
  /** With only `const` and `clock` nodes the settle loop changes nothing on its first pass, so a step never warns. */
  lemma {:induction false} SourcesOnlyQuiet(nodes: map<int, Node>, keys: seq<int>, pins: PinTable, tick: int, n: nat)
    requires n <= |keys| && forall i :: 0 <= i < |keys| ==> keys[i] in nodes
    requires forall k :: k in nodes ==> IsSource(nodes[k].kind)
    ensures EvalCombN(nodes, keys, pins, tick, n) == (pins, false)
  {
    if n > 0 {
      SourcesOnlyQuiet(nodes, keys, pins, tick, n - 1);
      assert keys[n - 1] in nodes;
    }
  }

  lemma SourcesOnlyNeverWarn(nodes: map<int, Node>, pins: PinTable, wires: map<int, Wire>, currentTick: int)
    requires forall k :: k in nodes ==> IsSource(nodes[k].kind)
    ensures !StepSpec(nodes, pins, wires, currentTick).oscillation
  {
    var c := CircuitOf(nodes, wires);
    var start := SettleStart(nodes, pins, wires, currentTick);
    SourcesOnlyQuiet(nodes, c.nodeOrder, start, currentTick + 1, |c.nodeOrder|);
    assert !Pass(c, start, currentTick + 1).1;
  }

  // ---------------------------------------------------------------------
  // What a step may change in the pin table

  /** `b` has the entries of `a`, under the same ids, with at most their values changed. */
  ghost predicate SameShape(a: PinTable, b: PinTable) {
    a.Keys == b.Keys && forall k :: k in a ==> b[k] == a[k].(value := b[k].value)
  }

  lemma SameShapeTrans(a: PinTable, b: PinTable, c: PinTable)
    requires SameShape(a, b) && SameShape(b, c)
    ensures SameShape(a, c)
  {
  }

  /** The same entries added to two tables alike up to values leave them alike. */
  lemma SameShapeUnion(a: PinTable, b: PinTable, added: PinTable)
    requires SameShape(a, b)
    ensures SameShape(a + added, b + added)
  {
    forall k | k in a + added
      ensures (b + added)[k] == (a + added)[k].(value := (b + added)[k].value)
    {
      if k !in added {
        assert k in a;
      }
    }
  }

  /** Every pin a node writes or a wire targets has an entry. */
  ghost predicate TargetsPresent(nodes: map<int, Node>, wires: map<int, Wire>, keys: set<int>) {
    (forall k, p :: k in nodes && p in nodes[k].outputPins ==> p in keys) &&
    (forall k :: k in wires ==> wires[k].to in keys)
  }

  lemma OutputPresent(nodes: map<int, Node>, keys: set<int>, k: int, q: int)
    requires TargetsPresent(nodes, map[], keys) && k in nodes && q in nodes[k].outputPins
    ensures q in keys
  {
  }

  lemma {:induction false} WriteOutputsShape(pins: PinTable, ids: seq<int>, vals: seq<Signal>, n: nat)
    requires n <= |ids| && forall p :: p in ids ==> p in pins
    ensures SameShape(pins, WriteOutputs(pins, ids, vals, n))
  {
    if n > 0 {
      WriteOutputsShape(pins, ids, vals, n - 1);
      assert ids[n - 1] in ids;
    }
  }

  lemma {:induction false} EvalSourcesShape(nodes: map<int, Node>, keys: seq<int>, pins: PinTable, tick: int, n: nat)
    requires n <= |keys| && forall i :: 0 <= i < |keys| ==> keys[i] in nodes
    requires TargetsPresent(nodes, map[], pins.Keys)
    ensures SameShape(pins, EvalSourcesN(nodes, keys, pins, tick, n))
  {
    if n > 0 {
      EvalSourcesShape(nodes, keys, pins, tick, n - 1);
      var p := EvalSourcesN(nodes, keys, pins, tick, n - 1);
      var node := nodes[keys[n - 1]];
      if IsSource(node.kind) {
        assert keys[n - 1] in nodes;
        forall q | q in node.outputPins
          ensures q in p
        {
          OutputPresent(nodes, pins.Keys, keys[n - 1], q);
        }
        WriteOutputsShape(p, node.outputPins, NodeOutputs(node, p, tick), |node.outputPins|);
        SameShapeTrans(pins, p, Evaluate(node, p, tick).0);
      }
    }
  }

  lemma {:induction false} EvalCombShape(nodes: map<int, Node>, keys: seq<int>, pins: PinTable, tick: int, n: nat)
    requires n <= |keys| && forall i :: 0 <= i < |keys| ==> keys[i] in nodes
    requires TargetsPresent(nodes, map[], pins.Keys)
    ensures SameShape(pins, EvalCombN(nodes, keys, pins, tick, n).0)
  {
    if n > 0 {
      EvalCombShape(nodes, keys, pins, tick, n - 1);
      var p := EvalCombN(nodes, keys, pins, tick, n - 1).0;
      var node := nodes[keys[n - 1]];
      if !IsSource(node.kind) {
        assert keys[n - 1] in nodes;
        forall q | q in node.outputPins
          ensures q in p
        {
          OutputPresent(nodes, pins.Keys, keys[n - 1], q);
        }
        WriteOutputsShape(p, node.outputPins, NodeOutputs(node, p, tick), |node.outputPins|);
        SameShapeTrans(pins, p, Evaluate(node, p, tick).0);
      }
    }
  }

  lemma {:induction false} PropagateShape(pins: PinTable, wires: map<int, Wire>, keys: seq<int>, n: nat)
    requires n <= |keys| && forall i :: 0 <= i < |keys| ==> keys[i] in wires
    requires TargetsPresent(map[], wires, pins.Keys)
    ensures SameShape(pins, PropagateN(pins, wires, keys, n))
  {
    if n > 0 {
      PropagateShape(pins, wires, keys, n - 1);
      var k := keys[n - 1];
      assert k in wires;
      assert wires[k].to in pins.Keys;
    }
  }

  lemma {:induction false} SettleShape(c: Circuit, pins: PinTable, tick: int, done: nat)
    requires c.Valid() && done < MaxPasses
    requires TargetsPresent(c.nodes, c.wires, pins.Keys)
    ensures SameShape(pins, Settle(c, pins, tick, done).0)
    decreases MaxPasses - done
  {
    EvalCombShape(c.nodes, c.nodeOrder, pins, tick, |c.nodeOrder|);
    var p := EvalCombN(c.nodes, c.nodeOrder, pins, tick, |c.nodeOrder|).0;
    PropagateShape(p, c.wires, c.wireOrder, |c.wireOrder|);
    var q := Pass(c, pins, tick).0;
    SameShapeTrans(pins, p, q);
    if Pass(c, pins, tick).1 && done + 1 < MaxPasses {
      SettleShape(c, q, tick, done + 1);
      SameShapeTrans(pins, q, Settle(c, q, tick, done + 1).0);
    }
  }

  /**
   * When every pin a node writes and every wire target has an entry, a
   * step keeps exactly the same pin ids and changes only their values.
   */
  lemma StepKeepsPinShape(nodes: map<int, Node>, pins: PinTable, wires: map<int, Wire>, currentTick: int)
    requires TargetsPresent(nodes, wires, pins.Keys)
    ensures SameShape(pins, StepSpec(nodes, pins, wires, currentTick).pins)
  {
    var tick := currentTick + 1;
    var nkeys := SortedKeys(nodes.Keys);
    var wkeys := SortedKeys(wires.Keys);
    EvalSourcesShape(nodes, nkeys, pins, tick, |nkeys|);
    var sourced := EvalSources(nodes, pins, tick);
    PropagateShape(sourced, wires, wkeys, |wkeys|);
    var start := Propagated(sourced, wires);
    SameShapeTrans(pins, sourced, start);
    SettleShape(CircuitOf(nodes, wires), start, tick, 0);
    SameShapeTrans(pins, start, StepSpec(nodes, pins, wires, currentTick).pins);
  }
}
