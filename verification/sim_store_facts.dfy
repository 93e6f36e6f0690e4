/**
 * What the graph store's operations promise: the pin layout and defaults
 * of a new node, the cascade of a removal, exact wire deletion, the
 * parameter upsert, counters that no editing operation moves back (so
 * ids are never reused), a well-formedness invariant every operation
 * keeps, and a worked circuit of a constant driving a NOT gate.
 */
module SimStoreFacts {
  import opened Types
  import opened Keys
  import opened Simulation
  import opened SimulationFacts
  import opened SimStore

  // ---------------------------------------------------------------------
  // Layouts and defaults

  /**
   * The pin layout of every kind: how many inputs and outputs it gets,
   * and that the number of outputs is the number of values the simulation
   * computes for that kind.
   */
  lemma LayoutTable(node: Node, ins: seq<Signal>, tick: int)
    ensures var l := KindLayout(node.kind);
      |l.outputs| == |KindOutputs(node, ins, tick)|
    ensures node.kind in {And, Or, Xor, Nand, Nor, Xnor} ==>
      KindLayout(node.kind).inputs == ["A", "B"] && KindLayout(node.kind).outputs == ["Out"]
    ensures node.kind in {Not, SignalDisplay} ==>
      KindLayout(node.kind).inputs == ["In"] && KindLayout(node.kind).outputs == ["Out"]
    ensures node.kind == Split ==> KindLayout(node.kind).inputs == ["In"] && KindLayout(node.kind).outputs == ["A", "B"]
    ensures node.kind in {Const, Clock} ==> KindLayout(node.kind).inputs == [] && KindLayout(node.kind).outputs == ["Out"]
    ensures node.kind == Note ==> KindLayout(node.kind).inputs == [] && KindLayout(node.kind).outputs == []
  {
  }

  /**
   * The default parameters as the simulation reads them: a new constant
   * drives 0, a new clock has period 10, and the clock's `i` (Offset)
   * entry is never read.
   */
  lemma DefaultsAsRead(tick: int, offset: Param)
    ensures ConstOutput(KindLayout(Const).data) == Zero
    ensures PeriodNumber(KindLayout(Clock).data) == Some(10)
    ensures ClockOutput(KindLayout(Clock).data, tick) == SignalOf(tick % 10 == 0)
    ensures var d := KindLayout(Clock).data.value;
      ClockOutput(Some(d["i" := offset]), tick) == ClockOutput(Some(d), tick)
    ensures KindLayout(Note).data == Some(map["note" := Param("Note", Text, Str("nothing to note!"))])
  {
  }

  // ---------------------------------------------------------------------
  // Well-formed graphs

  /** Every id is below its counter, so a counter value is never already in use. */
  ghost predicate Fresh(g: Graph) {
    (forall k :: k in g.nodes ==> k < g.nextId) &&
    (forall k :: k in g.pins ==> k < g.nextPinId) &&
    (forall k :: k in g.wires ==> k < g.nextWireId)
  }

  /** A node's pin lists name pins it owns. */
  ghost predicate NodeOwnsPins(g: Graph, k: int)
    requires k in g.nodes
  {
    g.nodes[k].id == k &&
    (forall p :: p in g.nodes[k].inputPins ==> p in g.pins && OwnedBy(g.pins[p], k) && g.pins[p].dir == Input) &&
    (forall p :: p in g.nodes[k].outputPins ==> p in g.pins && OwnedBy(g.pins[p], k) && g.pins[p].dir == Output)
  }

  /**
   * The shape the editor maintains: records keyed by their ids, node pin
   * lists pointing at pins the node owns, wires between existing pins,
   * and counters ahead of every id.
   */
  ghost predicate WellFormed(g: Graph) {
    Fresh(g) &&
    (forall k :: k in g.nodes ==> NodeOwnsPins(g, k)) &&
    (forall k :: k in g.pins && g.pins[k].Pin? ==> g.pins[k].id == k) &&
    (forall k :: k in g.wires ==> g.wires[k].id == k && g.wires[k].from in g.pins && g.wires[k].to in g.pins)
  }

  /** The three counters of `h` are at least those of `g`. */
  predicate CountersKept(g: Graph, h: Graph) {
    g.nextId <= h.nextId && g.nextPinId <= h.nextPinId && g.nextWireId <= h.nextWireId
  }

  lemma EmptyWellFormed()
    ensures WellFormed(Types.Graph(map[], map[], map[], 1, 1, 1))
  {
  }

  // ---------------------------------------------------------------------
  // addNode

  /**
   * `addNode` returns `nextId` and advances it by one; it allocates the
   * pins contiguously from `nextPinId`, inputs first, each at 0, owned by
   * the new node and labelled from the layout, and sets `nextPinId` just
   * past the last one; nothing else changes.
   */
  lemma AddNodeAllocates(g: Graph, kind: NodeKind, k: int)
    ensures var (h, id) := AddNodeSpec(g, kind);
      var l := KindLayout(kind);
      var start, n := g.nextPinId, |l.inputs|;
      id == g.nextId && h.nextId == g.nextId + 1 && h.nextWireId == g.nextWireId &&
      h.nextPinId == start + n + |l.outputs| &&
      h.nodes[id].inputPins + h.nodes[id].outputPins == Range(start, n + |l.outputs|) &&
      |h.nodes[id].inputPins| == n && h.nodes[id].kind == kind && h.nodes[id].data == l.data &&
      (start <= k < start + n ==> k in h.pins && h.pins[k] == Pin(k, id, l.inputs[k - start], Zero, Input)) &&
      (start + n <= k < h.nextPinId ==> k in h.pins && h.pins[k] == Pin(k, id, l.outputs[k - start - n], Zero, Output)) &&
      (!(start <= k < h.nextPinId) ==> (k in h.pins <==> k in g.pins) && (k in g.pins ==> h.pins[k] == g.pins[k])) &&
      (k != id ==> (k in h.nodes <==> k in g.nodes) && (k in g.nodes ==> h.nodes[k] == g.nodes[k])) &&
      h.wires == g.wires
  {
    AddNodeNewNode(g, kind);
    AddNodePin(g, kind, k);
  }

  lemma AddNodeNewNode(g: Graph, kind: NodeKind)
    ensures var (h, id) := AddNodeSpec(g, kind);
      var l := KindLayout(kind);
      var start, n := g.nextPinId, |l.inputs|;
      id == g.nextId && h.nextId == g.nextId + 1 && h.nextWireId == g.nextWireId &&
      h.nextPinId == start + n + |l.outputs| &&
      h.nodes[id].inputPins + h.nodes[id].outputPins == Range(start, n + |l.outputs|) &&
      |h.nodes[id].inputPins| == n && h.nodes[id].kind == kind && h.nodes[id].data == l.data &&
      h.wires == g.wires
  {
    var l := KindLayout(kind);
    var (h, id) := AddNodeSpec(g, kind);
    assert h.nodes[id].inputPins + h.nodes[id].outputPins == Range(g.nextPinId, |l.inputs| + |l.outputs|);
  }

  lemma AddNodePin(g: Graph, kind: NodeKind, k: int)
    ensures var (h, id) := AddNodeSpec(g, kind);
      var l := KindLayout(kind);
      var start, n := g.nextPinId, |l.inputs|;
      (start <= k < start + n ==> k in h.pins && h.pins[k] == Pin(k, id, l.inputs[k - start], Zero, Input)) &&
      (start + n <= k < h.nextPinId ==> k in h.pins && h.pins[k] == Pin(k, id, l.outputs[k - start - n], Zero, Output)) &&
      (!(start <= k < h.nextPinId) ==> (k in h.pins <==> k in g.pins) && (k in g.pins ==> h.pins[k] == g.pins[k])) &&
      (k != id ==> (k in h.nodes <==> k in g.nodes) && (k in g.nodes ==> h.nodes[k] == g.nodes[k]))
  {
    var l := KindLayout(kind);
    var start, n := g.nextPinId, |l.inputs|;
    NewPinsContents(g.nextId, start, l.inputs, Input, k);
    NewPinsContents(g.nextId, start + n, l.outputs, Output, k);
  }

  /** On a well-formed graph the new node's id and pin ids are not in use yet, and the graph stays well-formed. */
  lemma AddNodeKeepsWellFormed(g: Graph, kind: NodeKind)
    requires WellFormed(g)
    ensures var (h, id) := AddNodeSpec(g, kind);
      id !in g.nodes && (forall k :: g.nextPinId <= k < h.nextPinId ==> k !in g.pins) &&
      WellFormed(h) && CountersKept(g, h)
  {
    var (h, id) := AddNodeSpec(g, kind);
    var l := KindLayout(kind);
    var start, n, m := g.nextPinId, |l.inputs|, |l.outputs|;
    forall k | k in h.pins
      ensures k < h.nextPinId && (h.pins[k].Pin? ==> h.pins[k].id == k)
    {
      AddNodeAllocates(g, kind, k);
    }
    forall k | k in h.nodes
      ensures NodeOwnsPins(h, k)
    {
      if k == id {
        forall p | p in h.nodes[k].inputPins
          ensures p in h.pins && OwnedBy(h.pins[p], k) && h.pins[p].dir == Input
        {
          var i :| 0 <= i < n && h.nodes[k].inputPins[i] == p;
          AddNodeAllocates(g, kind, p);
        }
        forall p | p in h.nodes[k].outputPins
          ensures p in h.pins && OwnedBy(h.pins[p], k) && h.pins[p].dir == Output
        {
          var i :| 0 <= i < m && h.nodes[k].outputPins[i] == p;
          AddNodeAllocates(g, kind, p);
        }
      } else {
        AddNodeAllocates(g, kind, k);
        assert NodeOwnsPins(g, k);
        forall p | p in h.nodes[k].inputPins + h.nodes[k].outputPins
          ensures p in h.pins && h.pins[p] == g.pins[p]
        {
          AddNodeAllocates(g, kind, p);
        }
      }
    }
    forall k | k in h.wires
      ensures h.wires[k].from in h.pins && h.wires[k].to in h.pins
    {
      AddNodeAllocates(g, kind, h.wires[k].from);
      AddNodeAllocates(g, kind, h.wires[k].to);
    }
  }

  // ---------------------------------------------------------------------
  // removeNode

  /**
   * `removeNode` deletes the node, exactly the pins it owns and exactly the
   * wires with an end on one of those pins; everything else, counters
   * included, is kept.
   */
  lemma RemoveNodeCascade(g: Graph, id: int, k: int)
    ensures var h := RemoveNodeSpec(g, id);
      id !in h.nodes &&
      (k != id ==> (k in h.nodes <==> k in g.nodes) && (k in g.nodes ==> h.nodes[k] == g.nodes[k])) &&
      (k in h.pins <==> k in g.pins && !OwnedBy(g.pins[k], id)) &&
      (k in h.pins ==> h.pins[k] == g.pins[k] && !OwnedBy(h.pins[k], id)) &&
      (k in h.wires ==> (h.wires[k] == g.wires[k] &&
        (h.wires[k].from in g.pins ==> h.wires[k].from in h.pins) &&
        (h.wires[k].to in g.pins ==> h.wires[k].to in h.pins))) &&
      (k in h.wires <==> k in g.wires && !TouchesNode(g.pins, g.wires[k], id)) &&
      h.nextId == g.nextId && h.nextPinId == g.nextPinId && h.nextWireId == g.nextWireId
  {
  }

  /** Removing a node from a well-formed graph leaves no wire or node list pointing at a deleted pin. */
  lemma RemoveNodeKeepsWellFormed(g: Graph, id: int)
    requires WellFormed(g)
    ensures WellFormed(RemoveNodeSpec(g, id)) && CountersKept(g, RemoveNodeSpec(g, id))
  {
    var h := RemoveNodeSpec(g, id);
    forall k | k in h.nodes
      ensures NodeOwnsPins(h, k)
    {
      assert NodeOwnsPins(g, k);
      forall p | p in h.nodes[k].inputPins + h.nodes[k].outputPins
        ensures p in h.pins && h.pins[p] == g.pins[p]
      {
        assert p in h.nodes[k].inputPins || p in h.nodes[k].outputPins;
      }
    }
    forall k | k in h.wires
      ensures h.wires[k].from in h.pins && h.wires[k].to in h.pins
    {
      RemoveNodeCascade(g, id, k);
    }
  }

  // ---------------------------------------------------------------------
  // addWire, disconnectPin, disconnectWire

  /**
   * `addWire` stores the wire under the old `nextWireId`, a key not in use
   * in a well-formed graph, advances that counter by one and changes
   * nothing else; the graph stays well-formed when both pins exist.
   */
  lemma AddWireFacts(g: Graph, from: int, to: int, anchors: Option<seq<Vec2>>)
    ensures var h := AddWireSpec(g, from, to, anchors);
      h.wires[g.nextWireId] == Wire(g.nextWireId, from, to, anchors) &&
      h.wires.Keys == g.wires.Keys + {g.nextWireId} &&
      h.nextWireId == g.nextWireId + 1 && CountersKept(g, h) &&
      h.nodes == g.nodes && h.pins == g.pins
    ensures WellFormed(g) ==> (g.nextWireId !in g.wires &&
      (from in g.pins && to in g.pins ==> WellFormed(AddWireSpec(g, from, to, anchors))))
  {
  }

  /** Every wire whose key is its id. */
  ghost predicate KeyedById(wires: map<int, Wire>) {
    forall k :: k in wires ==> wires[k].id == k
  }

  /** With wires keyed by id, the collected ids are exactly the keys of the wires on pin `p`. */
  lemma TouchingIdsAreKeys(wires: map<int, Wire>, p: int, k: int)
    requires KeyedById(wires)
    ensures k in TouchingIds(wires, SortedKeys(wires.Keys), p) <==>
      k in wires && (wires[k].from == p || wires[k].to == p)
  {
    var keys := SortedKeys(wires.Keys);
    if k in wires && (wires[k].from == p || wires[k].to == p) {
      assert k in keys && wires[k].id == k;
    }
  }

  /**
   * On wires keyed by id, `disconnectPin(p)` removes exactly the wires
   * with `from == p` or `to == p` and keeps the graph well-formed.
   */
  lemma DisconnectPinExact(g: Graph, p: int, k: int)
    requires KeyedById(g.wires)
    ensures var h := DisconnectPinSpec(g, p);
      (k in h.wires <==> k in g.wires && g.wires[k].from != p && g.wires[k].to != p) &&
      (k in h.wires ==> h.wires[k] == g.wires[k]) &&
      h.nodes == g.nodes && h.pins == g.pins && CountersKept(g, h) && h.nextWireId == g.nextWireId
  {
    TouchingIdsAreKeys(g.wires, p, k);
  }

  lemma DisconnectPinKeepsWellFormed(g: Graph, p: int)
    requires WellFormed(g)
    ensures WellFormed(DisconnectPinSpec(g, p))
  {
    var h := DisconnectPinSpec(g, p);
    forall k | k in h.wires
      ensures h.wires[k] == g.wires[k]
    {
      DisconnectPinExact(g, p, k);
    }
    forall k | k in h.nodes
      ensures NodeOwnsPins(h, k)
    {
      assert NodeOwnsPins(g, k);
    }
  }

  /** `disconnectWire(w)` removes key `w` only, and is a no-op when `w` is absent. */
  lemma DisconnectWireExact(g: Graph, w: int)
    ensures var h := DisconnectWireSpec(g, w);
      h.wires.Keys == g.wires.Keys - {w} && (forall k :: k in h.wires ==> h.wires[k] == g.wires[k]) &&
      h.nodes == g.nodes && h.pins == g.pins && CountersKept(g, h) &&
      (w !in g.wires ==> h == g)
    ensures WellFormed(g) ==> WellFormed(DisconnectWireSpec(g, w))
  {
    var h := DisconnectWireSpec(g, w);
    if w !in g.wires {
      assert h.wires == g.wires;
    }
    if WellFormed(g) {
      forall k | k in h.nodes
        ensures NodeOwnsPins(h, k)
      {
        assert NodeOwnsPins(g, k);
      }
    }
  }

  // ---------------------------------------------------------------------
  // setNodeParam

  /**
   * `setNodeParam` changes nothing for a missing node; otherwise it sets
   * the named parameter's value, keeping its name and kind when it exists
   * and creating it as numerical under the given name when it does not,
   * and leaves every other parameter, node and field as it was.
   */
  lemma SetParamFacts(g: Graph, id: int, name: string, value: ParamValue, other: string)
    ensures id !in g.nodes ==> SetParamSpec(g, id, name, value) == g
    ensures id in g.nodes ==>
      var h := SetParamSpec(g, id, name, value);
      var old_ := g.nodes[id];
      var new_ := h.nodes[id];
      h.nodes.Keys == g.nodes.Keys && (forall k :: k in g.nodes && k != id ==> h.nodes[k] == g.nodes[k]) &&
      new_ == old_.(data := new_.data) && new_.data.Some? && name in new_.data.value &&
      new_.data.value[name].value == value &&
      (old_.data.Some? && name in old_.data.value ==>
        new_.data.value[name].name == old_.data.value[name].name &&
        new_.data.value[name].kind == old_.data.value[name].kind) &&
      (old_.data.None? || name !in old_.data.value ==> new_.data.value[name] == Param(name, Numerical, value)) &&
      (other != name ==> ((other in new_.data.value <==> old_.data.Some? && other in old_.data.value) &&
        (old_.data.Some? && other in old_.data.value ==> new_.data.value[other] == old_.data.value[other]))) &&
      h.pins == g.pins && h.wires == g.wires && CountersKept(g, h) && CountersKept(h, g)
  {
  }

  lemma SetParamKeepsWellFormed(g: Graph, id: int, name: string, value: ParamValue)
    requires WellFormed(g)
    ensures WellFormed(SetParamSpec(g, id, name, value))
  {
    var h := SetParamSpec(g, id, name, value);
    forall k | k in h.nodes
      ensures NodeOwnsPins(h, k)
    {
      assert NodeOwnsPins(g, k);
    }
  }

  // ---------------------------------------------------------------------
  // The simulation step on a well-formed graph

  lemma WellFormedTargets(g: Graph)
    requires WellFormed(g)
    ensures TargetsPresent(g.nodes, g.wires, g.pins.Keys)
  {
    forall k, q | k in g.nodes && q in g.nodes[k].outputPins
      ensures q in g.pins.Keys
    {
      assert NodeOwnsPins(g, k);
    }
  }

  /** Changing only pin values keeps a graph well-formed. */
  lemma ValuesOnlyKeepWellFormed(g: Graph, pins: PinTable)
    requires WellFormed(g) && SameShape(g.pins, pins)
    ensures WellFormed(g.(pins := pins))
  {
    var h := g.(pins := pins);
    forall k | k in h.nodes
      ensures NodeOwnsPins(h, k)
    {
      assert NodeOwnsPins(g, k);
    }
  }

  /**
   * On a well-formed graph a simulation step only changes pin values: the
   * pin ids, owners, names and directions stay, so the graph stays
   * well-formed, and nodes, wires and counters are untouched.
   */
  lemma StepKeepsWellFormed(g: Graph, currentTick: int)
    requires WellFormed(g)
    ensures var r := StepSpec(g.nodes, g.pins, g.wires, currentTick);
      SameShape(g.pins, r.pins) && WellFormed(g.(pins := r.pins))
  {
    WellFormedTargets(g);
    StepKeepsPinShape(g.nodes, g.pins, g.wires, currentTick);
    ValuesOnlyKeepWellFormed(g, StepSpec(g.nodes, g.pins, g.wires, currentTick).pins);
  }

  /** `setNodeParam` as a whole (upsert, then a step) keeps a well-formed graph well-formed. */
  lemma SetNodeParamKeepsWellFormed(g: Graph, id: int, name: string, value: ParamValue, currentTick: int)
    requires WellFormed(g)
    ensures var u := SetParamSpec(g, id, name, value);
      WellFormed(u.(pins := StepSpec(u.nodes, u.pins, u.wires, currentTick).pins))
  {
    SetParamKeepsWellFormed(g, id, name, value);
    StepKeepsWellFormed(SetParamSpec(g, id, name, value), currentTick);
  }

  // ---------------------------------------------------------------------
  // A constant driving a NOT gate

  /** A constant (node 1, output pin 1) whose `Value` is `v`, and a NOT gate (node 2, input pin 2, output pin 3). */
  function ConstNotNodes(v: ParamValue): map<int, Node> {
    map[1 := Node(1, Const, [], [1], None, Some(map["Value" := Param("Value", Digital, v)])),
        2 := Node(2, Not, [2], [3], None, None)]
  }

  /** The one wire, from the constant's output to the gate's input. */
  function ConstNotWires(): map<int, Wire> {
    map[1 := Wire(1, 1, 2, None)]
  }

  /** The three pins, carrying the values `out`, `into` and `notOut`. */
  function ConstNotPins(out: Signal, into: Signal, notOut: Signal): PinTable {
    map[1 := Pin(1, 1, "Out", out, Output), 2 := Pin(2, 2, "In", into, Input), 3 := Pin(3, 2, "Out", notOut, Output)]
  }

  /** The NOT gate's output for input `s` (anything but 1 reads as 0). */
  function Inverted(s: Signal): Signal {
    if s == One then Zero else One
  }

  lemma SortedPair()
    ensures SortedKeys({1, 2}) == [1, 2]
  {
    var s: set<int> := {1, 2};
    assert MinOf(s) == 1;
    assert s - {1} == {2};
    SortedSingleton(2);
  }

  /** Evaluating the constant writes its level onto its output pin. */
  lemma ConstNotDrive(v: ParamValue, x: Signal, y: Signal, z: Signal, tick: int)
    ensures Evaluate(ConstNotNodes(v)[1], ConstNotPins(x, y, z), tick).0 == ConstNotPins(SignalOf(Truthy(v)), y, z)
  {
    var source, pins, level := ConstNotNodes(v)[1], ConstNotPins(x, y, z), SignalOf(Truthy(v));
    assert source.outputPins == [1];
    var vals := [level];
    assert NodeOutputs(source, pins, tick) == vals;
    assert WriteOutputs(pins, [1], vals, 0) == pins;
    assert SignalAt(vals, 0) == level && ValueAt(pins, 1) == x;
    assert WithValue(pins, 1, level) == ConstNotPins(level, y, z);
  }

  /** The source loop drives the constant's level onto its output pin and touches nothing else. */
  lemma ConstNotSources(v: ParamValue, x: Signal, y: Signal, z: Signal, tick: int)
    ensures EvalSources(ConstNotNodes(v), ConstNotPins(x, y, z), tick) == ConstNotPins(SignalOf(Truthy(v)), y, z)
  {
    var nodes, pins := ConstNotNodes(v), ConstNotPins(x, y, z);
    SortedPair();
    assert nodes.Keys == {1, 2};
    var keys := [1, 2];
    assert EvalSourcesN(nodes, keys, pins, tick, 0) == pins;
    assert keys[0] == 1 && IsSource(nodes[1].kind);
    ConstNotDrive(v, x, y, z, tick);
    assert EvalSourcesN(nodes, keys, pins, tick, 1) == ConstNotPins(SignalOf(Truthy(v)), y, z);
    assert keys[1] == 2 && !IsSource(nodes[2].kind);
  }

  /** Propagation copies the constant's output onto the gate's input. */
  lemma ConstNotPropagate(a: Signal, y: Signal, z: Signal)
    ensures Propagated(ConstNotPins(a, y, z), ConstNotWires()) == ConstNotPins(a, a, z)
  {
    assert ConstNotWires().Keys == {1};
    SortedSingleton(1);
  }

  /** Evaluating the gate writes the inverse of its input onto its output, and reports whether that changed it. */
  lemma ConstNotGate(v: ParamValue, a: Signal, y: Signal, z: Signal, tick: int)
    ensures Evaluate(ConstNotNodes(v)[2], ConstNotPins(a, y, z), tick) == (ConstNotPins(a, y, Inverted(y)), z != Inverted(y))
  {
    var gate, pins := ConstNotNodes(v)[2], ConstNotPins(a, y, z);
    assert InputValues(pins, [2]) == [y];
    assert NodeOutputs(gate, pins, tick) == [Inverted(y)];
    assert gate.outputPins == [3];
    var vals := [Inverted(y)];
    assert WriteOutputs(pins, [3], vals, 0) == pins;
    assert SignalAt(vals, 0) == Inverted(y) && ValueAt(pins, 3) == z;
    assert WithValue(pins, 3, Inverted(y)) == ConstNotPins(a, y, Inverted(y));
    assert WriteOutputs(pins, [3], vals, 1) == ConstNotPins(a, y, Inverted(y));
    assert WroteAny(pins, [3], vals, 1) == (z != Inverted(y));
  }

  /** One settle pass: the gate inverts its input, then the wire copies the constant's output again. */
  lemma ConstNotPass(v: ParamValue, a: Signal, y: Signal, z: Signal, tick: int)
    ensures var c := CircuitOf(ConstNotNodes(v), ConstNotWires());
      Pass(c, ConstNotPins(a, y, z), tick) == (ConstNotPins(a, a, Inverted(y)), z != Inverted(y))
  {
    var nodes, pins := ConstNotNodes(v), ConstNotPins(a, y, z);
    var c := CircuitOf(nodes, ConstNotWires());
    SortedPair();
    assert nodes.Keys == {1, 2};
    var keys := [1, 2];
    assert c.nodeOrder == keys;
    assert EvalCombN(nodes, keys, pins, tick, 0) == (pins, false);
    assert keys[0] == 1 && IsSource(nodes[1].kind);
    assert EvalCombN(nodes, keys, pins, tick, 1) == (pins, false);
    ConstNotGate(v, a, y, z, tick);
    assert keys[1] == 2 && !IsSource(nodes[2].kind);
    assert EvalCombN(nodes, keys, pins, tick, 2) == (ConstNotPins(a, y, Inverted(y)), z != Inverted(y));
    ConstNotPropagate(a, y, Inverted(y));
  }

  /**
   * A whole step over the constant and the gate, whatever values the pins
   * held: the gate's input follows the constant and its output is the
   * inverse, and the settle loop stops within two passes, so there is no
   * oscillation warning.
   */
  lemma ConstNotStep(v: ParamValue, x: Signal, y: Signal, z: Signal, currentTick: int)
    ensures var level := SignalOf(Truthy(v));
      StepSpec(ConstNotNodes(v), ConstNotPins(x, y, z), ConstNotWires(), currentTick) ==
        StepResult(ConstNotPins(level, level, Inverted(level)), currentTick + 1, false)
  {
    var level, tick := SignalOf(Truthy(v)), currentTick + 1;
    var c := CircuitOf(ConstNotNodes(v), ConstNotWires());
    ConstNotSources(v, x, y, z, tick);
    ConstNotPropagate(level, y, z);
    var settledPins := ConstNotPins(level, level, Inverted(level));
    ConstNotPass(v, level, level, z, tick);
    SettleStep(c, ConstNotPins(level, level, z), tick, 0, settledPins, z != Inverted(level));
    if z != Inverted(level) {
      ConstNotPass(v, level, level, Inverted(level), tick);
      SettleStep(c, settledPins, tick, 1, settledPins, false);
    }
  }

  /** Setting the constant's `Value` replaces it and changes nothing else. */
  lemma ConstNotSetValue(g: Graph, v: ParamValue, w: ParamValue)
    requires g.nodes == ConstNotNodes(v)
    ensures SetParamSpec(g, 1, "Value", w) == g.(nodes := ConstNotNodes(w))
  {
    var before := map["Value" := Param("Value", Digital, v)];
    assert UpdatedParam(Some(before), "Value", w) == Param("Value", Digital, w);
    assert before["Value" := Param("Value", Digital, w)] == map["Value" := Param("Value", Digital, w)];
  }

  /** On a fresh store, adding a constant and a NOT gate and wiring them builds the circuit above, every pin at 0. */
  lemma ConstNotBuilt()
    ensures var (g1, a) := AddNodeSpec(Types.Graph(map[], map[], map[], 1, 1, 1), Const);
      var (g2, b) := AddNodeSpec(g1, Not);
      a == 1 && b == 2 && g2.nodes[a].outputPins == [1] && g2.nodes[b].inputPins == [2] && g2.nodes[b].outputPins == [3] &&
      AddWireSpec(g2, 1, 2, None) ==
        Types.Graph(ConstNotNodes(Num(0)), ConstNotPins(Zero, Zero, Zero), ConstNotWires(), 3, 4, 2)
  {
    var g0 := Types.Graph(map[], map[], map[], 1, 1, 1);
    var out1: seq<string>, in2: seq<string> := ["Out"], ["In"];
    assert out1[..0] == [] && in2[..0] == [];
    assert Range(1, 0) == [] && Range(1, 1) == [1] && Range(2, 1) == [2] && Range(3, 1) == [3];
    assert NewPins(1, 1, out1, Output) == map[1 := Pin(1, 1, "Out", Zero, Output)];
    assert NewPins(2, 2, in2, Input) == map[2 := Pin(2, 2, "In", Zero, Input)];
    assert NewPins(2, 3, out1, Output) == map[3 := Pin(3, 2, "Out", Zero, Output)];
    var (g1, a) := AddNodeSpec(g0, Const);
    assert a == 1 && g1.nextId == 2 && g1.nextPinId == 2;
    assert g1.nodes == map[1 := ConstNotNodes(Num(0))[1]];
    var (g2, b) := AddNodeSpec(g1, Not);
    assert b == 2 && g2.nodes == ConstNotNodes(Num(0));
    assert g2.pins == ConstNotPins(Zero, Zero, Zero);
  }

  /**
   * End to end on a fresh store: add a constant and a NOT gate, wire the
   * constant's output to the gate's input, set the constant's `Value` to 1
   * (which runs a step): the gate outputs 0; set it back to 0 (another
   * step): the gate outputs 1. Neither step warns of oscillation.
   */
  lemma ConstDrivesNot()
    ensures var (g1, a) := AddNodeSpec(Types.Graph(map[], map[], map[], 1, 1, 1), Const);
      var (g2, b) := AddNodeSpec(g1, Not);
      var g3 := AddWireSpec(g2, g2.nodes[a].outputPins[0], g2.nodes[b].inputPins[0], None);
      var u4 := SetParamSpec(g3, a, "Value", Num(1));
      var r4 := StepSpec(u4.nodes, u4.pins, u4.wires, 0);
      var u5 := SetParamSpec(u4.(pins := r4.pins), a, "Value", Num(0));
      var r5 := StepSpec(u5.nodes, u5.pins, u5.wires, r4.tick);
      var out := g2.nodes[b].outputPins[0];
      ValueAt(r4.pins, out) == Zero && !r4.oscillation &&
      ValueAt(r5.pins, out) == One && !r5.oscillation && r5.tick == 2
  {
    ConstNotBuilt();
    var g3 := Types.Graph(ConstNotNodes(Num(0)), ConstNotPins(Zero, Zero, Zero), ConstNotWires(), 3, 4, 2);
    ConstNotSetValue(g3, Num(0), Num(1));
    var u4 := g3.(nodes := ConstNotNodes(Num(1)));
    ConstNotStep(Num(1), Zero, Zero, Zero, 0);
    var r4 := StepSpec(u4.nodes, u4.pins, u4.wires, 0);
    ConstNotSetValue(u4.(pins := r4.pins), Num(1), Num(0));
    ConstNotStep(Num(0), One, One, Zero, 1);
  }
}
