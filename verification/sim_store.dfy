/**
 * The circuit graph store: three id-keyed maps (nodes, pins, wires), three
 * id counters that no editing operation moves back, and the simulation tick.
 *
 * Each editing operation is specified by a function on the `Graph` value
 * (`AddNodeSpec`, `RemoveNodeSpec`, ...); the `SimStore` class holds the
 * fields and its methods are proved to move the fields from the old graph
 * to the one the function gives.
 */
module SimStore {
  import opened Types
  import opened Keys
  import opened Simulation

  // ---------------------------------------------------------------------
  // Node layouts

  /** The labels of a kind's input and output pins and its default parameters. */
  datatype Layout = Layout(inputs: seq<string>, outputs: seq<string>, data: Option<map<string, Param>>)

  function KindLayout(kind: NodeKind): Layout {
    match kind
    case Not => Layout(["In"], ["Out"], None)
    case And | Or | Xor | Nand | Nor | Xnor => Layout(["A", "B"], ["Out"], None)
    case Const => Layout([], ["Out"], Some(map["Value" := Param("Value", Digital, Num(0))]))
    case Clock => Layout([], ["Out"], Some(map[
      "period" := Param("Period", Numerical, Num(10)),
      "i" := Param("Offset", Numerical, Num(0))]))
    case Split => Layout(["In"], ["A", "B"], None)
    case Note => Layout([], [], Some(map["note" := Param("Note", Text, Str("nothing to note!"))]))
    case SignalDisplay => Layout(["In"], ["Out"], None)
  }

  /** The ids `start, start + 1, ..., start + n - 1`. */
  function Range(start: int, n: nat): (r: seq<int>)
    ensures |r| == n && forall i :: 0 <= i < n ==> r[i] == start + i
  {
    seq(n, i requires 0 <= i < n => start + i)
  }

  /** Fresh pins for `labels`, numbered from `start` in label order, owned by `nodeId`, all at 0. */
  function NewPins(nodeId: int, start: int, labels: seq<string>, dir: PinDir): PinTable
    decreases |labels|
  {
    if labels == [] then map[]
    else
      var last := start + |labels| - 1;
      NewPins(nodeId, start, labels[..|labels| - 1], dir)[last := Pin(last, nodeId, labels[|labels| - 1], Zero, dir)]
  }

  /** The fresh pins are exactly the ids `start .. start + |labels| - 1`, pin `start + i` labelled `labels[i]`. */
  lemma {:induction false} NewPinsContents(nodeId: int, start: int, labels: seq<string>, dir: PinDir, k: int)
    ensures k in NewPins(nodeId, start, labels, dir) <==> start <= k < start + |labels|
    ensures start <= k < start + |labels| ==>
      NewPins(nodeId, start, labels, dir)[k] == Pin(k, nodeId, labels[k - start], Zero, dir)
    decreases |labels|
  {
    if labels != [] {
      NewPinsContents(nodeId, start, labels[..|labels| - 1], dir, k);
    }
  }

  // ---------------------------------------------------------------------
  // The operations on the graph value

  /** `addNode`: the new graph and the id it returns. */
  function AddNodeSpec(g: Graph, kind: NodeKind): (Graph, int) {
    AddNodeWith(g, kind, KindLayout(kind))
  }

  /** A node of `kind` with layout `l` added under the next id, its pins under the next pin ids. */
  function AddNodeWith(g: Graph, kind: NodeKind, l: Layout): (Graph, int) {
    var id, start := g.nextId, g.nextPinId;
    var outStart := start + |l.inputs|;
    var node := Node(id, kind, Range(start, |l.inputs|), Range(outStart, |l.outputs|), None, l.data);
    var newPins := NewPins(id, start, l.inputs, Input) + NewPins(id, outStart, l.outputs, Output);
    (g.(nodes := g.nodes[id := node], pins := g.pins + newPins,
        nextId := id + 1, nextPinId := outStart + |l.outputs|), id)
  }

  /** A pin entry that names `id` as its owner (an entry carrying only a value names none). */
  predicate OwnedBy(p: Pin, id: int) {
    p.Pin? && p.nodeId == id
  }

  /** Whether a wire has an end on a pin owned by node `id`. */
  predicate TouchesNode(pins: PinTable, w: Wire, id: int) {
    (w.from in pins && OwnedBy(pins[w.from], id)) || (w.to in pins && OwnedBy(pins[w.to], id))
  }

  /** `removeNode`: the node, the pins it owns and every wire on one of those pins go. */
  function RemoveNodeSpec(g: Graph, id: int): Graph {
    g.(nodes := g.nodes - {id},
       pins := map k | k in g.pins && !OwnedBy(g.pins[k], id) :: g.pins[k],
       wires := map k | k in g.wires && !TouchesNode(g.pins, g.wires[k], id) :: g.wires[k])
  }

  /** `addWire`: stored under the next wire id, with no check of its pins. */
  function AddWireSpec(g: Graph, from: int, to: int, anchors: Option<seq<Vec2>>): Graph {
    g.(wires := g.wires[g.nextWireId := Wire(g.nextWireId, from, to, anchors)], nextWireId := g.nextWireId + 1)
  }

  /** The `id` fields of the wires among `keys` with an end on pin `p`. */
  function TouchingIds(wires: map<int, Wire>, keys: seq<int>, p: int): set<int> {
    set k | k in keys && k in wires && (wires[k].from == p || wires[k].to == p) :: wires[k].id
  }

  /** `disconnectPin`: deletes, by their `id` field, the wires with an end on pin `p`. */
  function DisconnectPinSpec(g: Graph, p: int): Graph {
    g.(wires := g.wires - TouchingIds(g.wires, SortedKeys(g.wires.Keys), p))
  }

  /** `disconnectWire`: deletes key `w`, if present. */
  function DisconnectWireSpec(g: Graph, w: int): Graph {
    g.(wires := g.wires - {w})
  }

  /** The parameter `setNodeParam` writes: the old one with a new value, or a new numerical one. */
  function UpdatedParam(data: Option<map<string, Param>>, name: string, value: ParamValue): Param {
    if data.Some? && name in data.value then data.value[name].(value := value)
    else Param(name, Numerical, value)
  }

  /** `setNodeParam` before its simulation step: an upsert into the node's parameters. */
  function SetParamSpec(g: Graph, id: int, name: string, value: ParamValue): Graph {
    if id !in g.nodes then g
    else
      var node := g.nodes[id];
      var base := if node.data.Some? then node.data.value else map[];
      g.(nodes := g.nodes[id := node.(data := Some(base[name := UpdatedParam(node.data, name, value)]))])
  }

  /**
   * One of `addNode`'s two loops: a pin per label, numbered upwards from
   * `start`, added to `newPins`; gives the ids in order and the next free id.
   */
  method CreatePins(newPins: PinTable, nodeId: int, start: int, labels: seq<string>, dir: PinDir)
    returns (out: PinTable, ids: seq<int>, pinId: int)
    ensures out == newPins + NewPins(nodeId, start, labels, dir)
    ensures ids == Range(start, |labels|) && pinId == start + |labels|
  {
    out, ids, pinId := newPins, [], start;
    for i := 0 to |labels|
      invariant pinId == start + i
      invariant ids == Range(start, i)
      invariant out == newPins + NewPins(nodeId, start, labels[..i], dir)
    {
      assert labels[..i + 1][..i] == labels[..i];
      out := out[pinId := Pin(pinId, nodeId, labels[i], Zero, dir)];
      ids := ids + [pinId];
      pinId := pinId + 1;
    }
    assert labels[..|labels|] == labels;
  }

  lemma TouchingIdsSnoc(wires: map<int, Wire>, keys: seq<int>, k: int, p: int)
    requires k in wires
    ensures TouchingIds(wires, keys + [k], p) ==
      TouchingIds(wires, keys, p) + (if wires[k].from == p || wires[k].to == p then {wires[k].id} else {})
  {
    var extra := if wires[k].from == p || wires[k].to == p then {wires[k].id} else {};
    forall x | x in TouchingIds(wires, keys + [k], p)
      ensures x in TouchingIds(wires, keys, p) + extra
    {
      var j :| j in keys + [k] && j in wires && (wires[j].from == p || wires[j].to == p) && wires[j].id == x;
      if j != k {
        assert j in keys;
      }
    }
  }

  /** `disconnectPin`'s loop: deletes the `id` of every wire among `keys` with an end on pin `p`. */
  method DeleteTouching(snapshot: map<int, Wire>, keys: seq<int>, p: int) returns (result: map<int, Wire>)
    requires forall i :: 0 <= i < |keys| ==> keys[i] in snapshot
    ensures result == snapshot - TouchingIds(snapshot, keys, p)
  {
    result := snapshot;
    for i := 0 to |keys|
      invariant result == snapshot - TouchingIds(snapshot, keys[..i], p)
    {
      assert keys[..i + 1] == keys[..i] + [keys[i]];
      TouchingIdsSnoc(snapshot, keys[..i], keys[i], p);
      var wire := snapshot[keys[i]];
      if p == wire.from || p == wire.to {
        result := result - {wire.id};
      }
    }
    assert keys[..|keys|] == keys;
  }

  // ---------------------------------------------------------------------
  // The store

  class SimStore {
    var nodes: map<int, Node>
    var pins: PinTable
    var wires: map<int, Wire>
    var nextId: int
    var nextPinId: int
    var nextWireId: int
    var currentTick: int

    /** The empty circuit, every counter at 1 and the tick at 0. */
    constructor()
      ensures nodes == map[] && pins == map[] && wires == map[]
      ensures nextId == 1 && nextPinId == 1 && nextWireId == 1 && currentTick == 0
    {
      nodes, pins, wires := map[], map[], map[];
      nextId, nextPinId, nextWireId := 1, 1, 1;
      currentTick := 0;
    }

    /** The graph part of the store (everything but the tick). */
    function Graph(): Graph
      reads this
    {
      Types.Graph(nodes, pins, wires, nextId, nextPinId, nextWireId)
    }

    /** Replaces the graph, as restoring a history entry or loading a project does; the tick stays. */
    method SetGraph(g: Types.Graph)
      modifies this
      ensures Graph() == g && currentTick == old(currentTick)
    {
      nodes, pins, wires := g.nodes, g.pins, g.wires;
      nextId, nextPinId, nextWireId := g.nextId, g.nextPinId, g.nextWireId;
    }

    method AddNode(kind: NodeKind) returns (id: int)
      modifies this
      ensures (Graph(), id) == AddNodeSpec(old(Graph()), kind)
      ensures currentTick == old(currentTick)
    {
      id := nextId;
      var layout := KindLayout(kind);
      var newPins, inputPins, pinId := CreatePins(map[], id, nextPinId, layout.inputs, Input);
      assert newPins == NewPins(id, old(nextPinId), layout.inputs, Input);
      var outStart := pinId;
      var outputPins;
      newPins, outputPins, pinId := CreatePins(newPins, id, outStart, layout.outputs, Output);
      var newNode := Node(id, kind, inputPins, outputPins, None, layout.data);
      nodes := nodes[id := newNode];
      pins := pins + newPins;
      nextId := id + 1;
      nextPinId := pinId;
    }

    method RemoveNode(id: int)
      modifies this
      ensures Graph() == RemoveNodeSpec(old(Graph()), id)
      ensures currentTick == old(currentTick)
    {
      var newPins := map k | k in pins && !OwnedBy(pins[k], id) :: pins[k];
      var newWires := map k | k in wires && !TouchesNode(pins, wires[k], id) :: wires[k];
      nodes, pins, wires := nodes - {id}, newPins, newWires;
    }

    method AddWire(from: int, to: int, anchors: Option<seq<Vec2>>)
      modifies this
      ensures Graph() == AddWireSpec(old(Graph()), from, to, anchors)
      ensures currentTick == old(currentTick)
    {
      var newId := nextWireId;
      nextWireId := nextWireId + 1;
      wires := wires[newId := Wire(newId, from, to, anchors)];
    }

    method DisconnectPin(p: int)
      modifies this
      ensures Graph() == DisconnectPinSpec(old(Graph()), p)
      ensures currentTick == old(currentTick)
    {
      var keys := SortedKeys(wires.Keys);
      wires := DeleteTouching(wires, keys, p);
    }

    method DisconnectWire(w: int)
      modifies this
      ensures Graph() == DisconnectWireSpec(old(Graph()), w)
      ensures currentTick == old(currentTick)
    {
      wires := wires - {w};
    }

    /** One simulation step over the store: commits the new pins and tick and reports the warning. */
    method Simulate() returns (oscillation: bool)
      modifies this
      ensures var r := StepSpec(old(nodes), old(pins), old(wires), old(currentTick));
        pins == r.pins && currentTick == r.tick && oscillation == r.oscillation
      ensures nodes == old(nodes) && wires == old(wires)
      ensures nextId == old(nextId) && nextPinId == old(nextPinId) && nextWireId == old(nextWireId)
    {
      var r := SimulateStep(nodes, pins, wires, currentTick);
      pins, currentTick := r.pins, r.tick;
      oscillation := r.oscillation;
    }

    /** `setNodeParam`: the upsert, then one simulation step, which runs even when the node is missing. */
    method SetNodeParam(id: int, name: string, value: ParamValue) returns (oscillation: bool)
      modifies this
      ensures var g := SetParamSpec(old(Graph()), id, name, value);
        var r := StepSpec(g.nodes, g.pins, g.wires, old(currentTick));
        Graph() == g.(pins := r.pins) && currentTick == r.tick && oscillation == r.oscillation
    {
      if id in nodes {
        var node := nodes[id];
        var base := if node.data.Some? then node.data.value else map[];
        nodes := nodes[id := node.(data := Some(base[name := UpdatedParam(node.data, name, value)]))];
      }
      oscillation := Simulate();
    }
  }
}
