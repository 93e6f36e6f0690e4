/**
 * The simulation engine: one tick evaluates the source nodes once, copies
 * every wire's value across, and then repeats "evaluate every other node,
 * then propagate" until a pass changes nothing or 100 passes have run.
 *
 * The loop-free functions (`Evaluate`, `Propagated`, `Settle`, `StepSpec`)
 * say what a tick computes; the methods are the engine's loops, each proved
 * equal to its function.
 */
module Simulation {
  import opened Types
  import opened Keys

  /** The cap on settle passes within one tick. */
  const MaxPasses: nat := 100

  /** What one tick commits: the new pin table, the new tick and the oscillation warning. */
  datatype StepResult = StepResult(pins: PinTable, tick: int, oscillation: bool)

  // ---------------------------------------------------------------------
  // Reading and writing the pin table

  /** The value found under `id`, or undefined when there is no entry. */
  function ValueAt(pins: PinTable, id: int): Signal {
    if id in pins then pins[id].value else Undef
  }

  /** Replaces the entry under `id` by a copy carrying value `v`; a missing entry becomes `Partial(v)`. */
  function WithValue(pins: PinTable, id: int, v: Signal): PinTable {
    pins[id := if id in pins then pins[id].(value := v) else Partial(v)]
  }

  /** The values of the pins with the given ids, in order. */
  function InputValues(pins: PinTable, ids: seq<int>): (vs: seq<Signal>)
    ensures |vs| == |ids|
    ensures forall i :: 0 <= i < |ids| ==> vs[i] == ValueAt(pins, ids[i])
  {
    seq(|ids|, i requires 0 <= i < |ids| => ValueAt(pins, ids[i]))
  }

  /** Element `i` of a list of signals, undefined past its end. */
  function SignalAt(vs: seq<Signal>, i: int): Signal {
    if 0 <= i < |vs| then vs[i] else Undef
  }

  // ---------------------------------------------------------------------
  // Per-kind behaviour

  function SignalOf(b: bool): Signal {
    if b then One else Zero
  }

  /** A signal read as a bit, undefined counting as 0. */
  predicate Bit(v: Signal) {
    v == One
  }

  /** `vs.every(v => v === 1)` */
  predicate AllOne(vs: seq<Signal>) {
    vs == [] || (vs[0] == One && AllOne(vs[1..]))
  }

  /** `vs.some(v => v === 1)` */
  predicate AnyOne(vs: seq<Signal>) {
    vs != [] && (vs[0] == One || AnyOne(vs[1..]))
  }

  predicate IsSource(kind: NodeKind) {
    kind == Const || kind == Clock
  }

  /** JavaScript truthiness of a parameter value. */
  predicate Truthy(v: ParamValue) {
    match v
    case Num(n) => n != 0
    case Flag(b) => b
    case Str(s) => s != ""
  }

  /** The level of a constant node: its `Value` parameter, 0 when absent. */
  function ConstOutput(data: Option<map<string, Param>>): Signal {
    if data.Some? && "Value" in data.value then SignalOf(Truthy(data.value["Value"].value))
    else Zero
  }

  /**
   * The clock's period as a number: the `period` parameter, 2 when absent.
   * `None` stands for NaN, the number a text value is taken to give.
   */
  function PeriodNumber(data: Option<map<string, Param>>): Option<int> {
    if data.Some? && "period" in data.value then
      match data.value["period"].value
      case Num(n) => Some(n)
      case Flag(b) => Some(if b then 1 else 0)
      case Str(_) => None
    else Some(2)
  }

  /**
   * A clock is high when the tick is a multiple of its period. A period of
   * 0 or NaN makes the remainder NaN, which reads as "not high", so the output is 1.
   */
  function ClockOutput(data: Option<map<string, Param>>, tick: int): Signal {
    match PeriodNumber(data)
    case None => One
    case Some(p) => if p == 0 then One else SignalOf(tick % p == 0)
  }

  /** The values a node of this kind drives onto its output pins, in order. */
  function KindOutputs(node: Node, ins: seq<Signal>, tick: int): seq<Signal> {
    match node.kind
    case And => [SignalOf(AllOne(ins))]
    case Or => [SignalOf(AnyOne(ins))]
    case Xor => [SignalOf(Bit(SignalAt(ins, 0)) != Bit(SignalAt(ins, 1)))]
    case Not => [if SignalAt(ins, 0) == One then Zero else One]
    case Nand => [SignalOf(!AllOne(ins))]
    case Nor => [SignalOf(!AnyOne(ins))]
    case Xnor => [SignalOf(Bit(SignalAt(ins, 0)) == Bit(SignalAt(ins, 1)))]
    case Const => [ConstOutput(node.data)]
    case Clock => [ClockOutput(node.data, tick)]
    case Split => [SignalAt(ins, 0), SignalAt(ins, 0)]
    case SignalDisplay => [SignalAt(ins, 0)]
    case Note => []
  }

  // ---------------------------------------------------------------------
  // Evaluating one node

  /** The pin table after the first `n` output writes of a node evaluation. */
  function WriteOutputs(pins: PinTable, ids: seq<int>, vals: seq<Signal>, n: nat): PinTable
    requires n <= |ids|
  {
    if n == 0 then pins
    else
      var p := WriteOutputs(pins, ids, vals, n - 1);
      var v := SignalAt(vals, n - 1);
      if ValueAt(p, ids[n - 1]) != v then WithValue(p, ids[n - 1], v) else p
  }

  /** Whether one of the first `n` output writes found a different value. */
  predicate WroteAny(pins: PinTable, ids: seq<int>, vals: seq<Signal>, n: nat)
    requires n <= |ids|
  {
    n > 0 &&
    (WroteAny(pins, ids, vals, n - 1) ||
     ValueAt(WriteOutputs(pins, ids, vals, n - 1), ids[n - 1]) != SignalAt(vals, n - 1))
  }

  /** The values node `node` computes from the current pin table. */
  function NodeOutputs(node: Node, pins: PinTable, tick: int): seq<Signal> {
    KindOutputs(node, InputValues(pins, node.inputPins), tick)
  }

  /** A node evaluation: the updated table and whether anything was written. */
  function Evaluate(node: Node, pins: PinTable, tick: int): (PinTable, bool) {
    var vals := NodeOutputs(node, pins, tick);
    (WriteOutputs(pins, node.outputPins, vals, |node.outputPins|),
     WroteAny(pins, node.outputPins, vals, |node.outputPins|))
  }

  /** Evaluates `node` and writes each output pin whose value differs. */
  method EvaluateNode(node: Node, pins: PinTable, tick: int) returns (updated: PinTable, changed: bool)
    ensures (updated, changed) == Evaluate(node, pins, tick)
  {
    var inputVals := InputValues(pins, node.inputPins);
    var outputVal := KindOutputs(node, inputVals, tick);
    updated, changed := pins, false;
    for i := 0 to |node.outputPins|
      invariant updated == WriteOutputs(pins, node.outputPins, outputVal, i)
      invariant changed == WroteAny(pins, node.outputPins, outputVal, i)
    {
      var id := node.outputPins[i];
      var v := SignalAt(outputVal, i);
      if ValueAt(updated, id) != v {
        updated := WithValue(updated, id, v);
        changed := true;
      }
    }
  }

  // ---------------------------------------------------------------------
  // Propagation along wires

  /** The pin table after the wires `keys[..n]` have copied their values across, in that order. */
  function PropagateN(pins: PinTable, wires: map<int, Wire>, keys: seq<int>, n: nat): PinTable
    requires n <= |keys|
    requires forall k :: k in keys ==> k in wires
  {
    if n == 0 then pins
    else
      var p := PropagateN(pins, wires, keys, n - 1);
      var w := wires[keys[n - 1]];
      WithValue(p, w.to, ValueAt(p, w.from))
  }

  /** Propagation over every wire in ascending id order. */
  function Propagated(pins: PinTable, wires: map<int, Wire>): PinTable {
    var keys := SortedKeys(wires.Keys);
    PropagateN(pins, wires, keys, |keys|)
  }

  /** Sets every wire's target pin to the value of its source pin, visiting the wires in `order`. */
  method PropagateAlong(pins: PinTable, wires: map<int, Wire>, order: seq<int>) returns (updated: PinTable)
    requires forall i :: 0 <= i < |order| ==> order[i] in wires
    ensures updated == PropagateN(pins, wires, order, |order|)
  {
    updated := pins;
    for i := 0 to |order|
      invariant updated == PropagateN(pins, wires, order, i)
    {
      var wire := wires[order[i]];
      var fromVal := ValueAt(updated, wire.from);
      updated := WithValue(updated, wire.to, fromVal);
    }
  }

  /** `propagate`: every wire, in ascending wire-id order. */
  method Propagate(pins: PinTable, wires: map<int, Wire>) returns (updated: PinTable)
    ensures updated == Propagated(pins, wires)
  {
    updated := PropagateAlong(pins, wires, SortedKeys(wires.Keys));
  }

  // ---------------------------------------------------------------------
  // Node passes, the settle loop and the whole step

  /** The pin table after the source nodes among `keys[..n]` have been evaluated. */
  function EvalSourcesN(nodes: map<int, Node>, keys: seq<int>, pins: PinTable, tick: int, n: nat): PinTable
    requires n <= |keys|
    requires forall k :: k in keys ==> k in nodes
  {
    if n == 0 then pins
    else
      var p := EvalSourcesN(nodes, keys, pins, tick, n - 1);
      var node := nodes[keys[n - 1]];
      if IsSource(node.kind) then Evaluate(node, p, tick).0 else p
  }

  /** The pin table, and whether any write happened, after the non-source nodes among `keys[..n]` have been evaluated. */
  function EvalCombN(nodes: map<int, Node>, keys: seq<int>, pins: PinTable, tick: int, n: nat): (PinTable, bool)
    requires n <= |keys|
    requires forall k :: k in keys ==> k in nodes
  {
    if n == 0 then (pins, false)
    else
      var (p, ch) := EvalCombN(nodes, keys, pins, tick, n - 1);
      var node := nodes[keys[n - 1]];
      if IsSource(node.kind) then (p, ch)
      else
        var (p', c) := Evaluate(node, p, tick);
        (p', ch || c)
  }

  /**
   * The circuit one step runs over, with the order each `for...in` visits
   * it in: node ids and wire ids, both ascending.
   */
  datatype Circuit = Circuit(nodes: map<int, Node>, wires: map<int, Wire>, nodeOrder: seq<int>, wireOrder: seq<int>)
  {
    predicate Valid() {
      (forall i :: 0 <= i < |nodeOrder| ==> nodeOrder[i] in nodes) &&
      (forall i :: 0 <= i < |wireOrder| ==> wireOrder[i] in wires)
    }
  }

  function CircuitOf(nodes: map<int, Node>, wires: map<int, Wire>): (c: Circuit)
    ensures c.Valid() && c.nodes == nodes && c.wires == wires
  {
    Circuit(nodes, wires, SortedKeys(nodes.Keys), SortedKeys(wires.Keys))
  }

  /** One settle pass: every non-source node in ascending id order, then propagation. */
  function Pass(c: Circuit, pins: PinTable, tick: int): (PinTable, bool)
    requires c.Valid()
  {
    var (p, ch) := EvalCombN(c.nodes, c.nodeOrder, pins, tick, |c.nodeOrder|);
    (PropagateN(p, c.wires, c.wireOrder, |c.wireOrder|), ch)
  }

  /**
   * The settle loop after `done` passes: runs pass number `done + 1` and
   * stops when it changed nothing or when it was the last allowed pass.
   * Gives the final table and the number of passes run.
   */
  function Settle(c: Circuit, pins: PinTable, tick: int, done: nat): (r: (PinTable, nat))
    requires c.Valid() && done < MaxPasses
    ensures done < r.1 <= MaxPasses
    decreases MaxPasses - done
  {
    var (p, ch) := Pass(c, pins, tick);
    if !ch || done + 1 == MaxPasses then (p, done + 1)
    else Settle(c, p, tick, done + 1)
  }

  /** One unfolding of `Settle`, given the outcome of its first pass. */
  lemma SettleStep(c: Circuit, pins: PinTable, tick: int, done: nat, after: PinTable, changed: bool)
    requires c.Valid() && done < MaxPasses
    requires Pass(c, pins, tick) == (after, changed)
    ensures Settle(c, pins, tick, done) ==
      if !changed || done + 1 == MaxPasses then (after, done + 1) else Settle(c, after, tick, done + 1)
  {
  }

  /** The pin table once every source node has been evaluated in ascending id order. */
  function EvalSources(nodes: map<int, Node>, pins: PinTable, tick: int): PinTable {
    var keys := SortedKeys(nodes.Keys);
    EvalSourcesN(nodes, keys, pins, tick, |keys|)
  }

  /** What one simulation step commits. */
  function StepSpec(nodes: map<int, Node>, pins: PinTable, wires: map<int, Wire>, currentTick: int): StepResult {
    var tick := currentTick + 1;
    var settled := Settle(CircuitOf(nodes, wires), Propagated(EvalSources(nodes, pins, tick), wires), tick, 0);
    StepResult(settled.0, tick, settled.1 == MaxPasses)
  }

  /** The first loop of a step: evaluates the `const` and `clock` nodes in ascending id order. */
  method EvaluateSources(nodes: map<int, Node>, pins: PinTable, tick: int) returns (pinsCopy: PinTable)
    ensures pinsCopy == EvalSources(nodes, pins, tick)
  {
    var keys := SortedKeys(nodes.Keys);
    pinsCopy := pins;
    for i := 0 to |keys|
      invariant pinsCopy == EvalSourcesN(nodes, keys, pins, tick, i)
    {
      var node := nodes[keys[i]];
      if IsSource(node.kind) {
        var written;
        pinsCopy, written := EvaluateNode(node, pinsCopy, tick);
      }
    }
  }

  /** The body of the settle loop: evaluates every other node in the circuit's node order, then propagates. */
  method RunPass(c: Circuit, pins: PinTable, tick: int) returns (pinsCopy: PinTable, changed: bool)
    requires c.Valid()
    ensures (pinsCopy, changed) == Pass(c, pins, tick)
  {
    pinsCopy, changed := pins, false;
    for i := 0 to |c.nodeOrder|
      invariant (pinsCopy, changed) == EvalCombN(c.nodes, c.nodeOrder, pins, tick, i)
    {
      var node := c.nodes[c.nodeOrder[i]];
      if !IsSource(node.kind) {
        var didChange;
        ghost var before := pinsCopy;
        pinsCopy, didChange := EvaluateNode(node, pinsCopy, tick);
        assert (pinsCopy, didChange) == Evaluate(node, before, tick);
        if didChange {
          changed := true;
        }
      }
    }
    pinsCopy := PropagateAlong(pinsCopy, c.wires, c.wireOrder);
  }

  /**
   * The settle loop, `while (changed && step++ < 100)`: returns the settled
   * table and the final value of the pass counter, which the guard's
   * post-increment carries to 101 when the last allowed pass still changed something.
   */
  method SettleLoop(c: Circuit, pins: PinTable, tick: int) returns (pinsCopy: PinTable, step: nat)
    requires c.Valid()
    ensures pinsCopy == Settle(c, pins, tick, 0).0
    ensures var passes := Settle(c, pins, tick, 0).1;
      step == passes || (passes == MaxPasses && step == MaxPasses + 1)
  {
    ghost var final := Settle(c, pins, tick, 0);
    pinsCopy := pins;
    var changed := true;
    step := 0;
    while changed && step < MaxPasses
      invariant step <= MaxPasses
      invariant changed && step < MaxPasses ==> Settle(c, pinsCopy, tick, step) == final
      invariant !changed || step == MaxPasses ==> pinsCopy == final.0 && step == final.1
      decreases MaxPasses - step
    {
      ghost var passStart := pinsCopy;
      step := step + 1;
      pinsCopy, changed := RunPass(c, pinsCopy, tick);
      SettleStep(c, passStart, tick, step - 1, pinsCopy, changed);
    }
    if changed {
      step := step + 1;
    }
  }

  /**
   * One simulation step over a working copy of the pin table: sources once,
   * propagation, then the bounded settle loop. The warning is raised when
   * the pass counter reaches the cap.
   */
  method SimulateStep(nodes: map<int, Node>, pins: PinTable, wires: map<int, Wire>, currentTick: int)
    returns (r: StepResult)
    ensures r == StepSpec(nodes, pins, wires, currentTick)
  {
    var tick := currentTick + 1;
    var pinsCopy := EvaluateSources(nodes, pins, tick);
    pinsCopy := Propagate(pinsCopy, wires);
    var step;
    pinsCopy, step := SettleLoop(CircuitOf(nodes, wires), pinsCopy, tick);
    r := StepResult(pinsCopy, tick, step >= MaxPasses);
  }
}
