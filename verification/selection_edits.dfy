/**
 * What copying, pasting and deleting the selection do to the circuit graph,
 * as functions on `Graph` values. The editor's store methods that perform
 * them step by step are proved against these functions.
 */
module SelectionEdits {
  import opened Types
  import opened Keys
  import opened SimStore
  import opened SimulationFacts
  import opened SimStoreFacts
  import opened EditorClipboard
  import opened Selection

  // ---------------------------------------------------------------------
  // Copy

  /** A wire both of whose pins are real pins owned by selected nodes. */
  predicate Internal(pins: PinTable, w: Wire, ids: seq<int>) {
    w.from in pins && w.to in pins && pins[w.from].Pin? && pins[w.to].Pin? &&
    pins[w.from].nodeId in ids && pins[w.to].nodeId in ids
  }

  /** The wires among `keys`, in order, that connect two selected nodes. */
  function InternalWires(pins: PinTable, wires: map<int, Wire>, keys: seq<int>, ids: seq<int>): (r: seq<Wire>)
    requires forall k :: k in keys ==> k in wires
    ensures forall w :: w in r ==> w in wires.Values && Internal(pins, w, ids)
    ensures forall k :: k in keys && Internal(pins, wires[k], ids) ==> wires[k] in r
    decreases |keys|
  {
    if keys == [] then []
    else
      var k := keys[|keys| - 1];
      var rest := InternalWires(pins, wires, keys[..|keys| - 1], ids);
      assert keys == keys[..|keys| - 1] + [k];
      if Internal(pins, wires[k], ids) then rest + [wires[k]] else rest
  }

  /** `copySelection`'s clipboard content for the selected ids; an id without a position is recorded as `None`. */
  function CopyData(g: Graph, positions: map<int, Vec2>, ids: seq<int>): ClipboardData {
    ClipboardData(
      seq(|ids|, i requires 0 <= i < |ids| => if ids[i] in g.nodes then Some(g.nodes[ids[i]]) else None),
      map id | id in ids :: if id in positions then Some(positions[id]) else None,
      InternalWires(g.pins, g.wires, SortedKeys(g.wires.Keys), ids))
  }

  /** A copied selection with an id whose position was missing when it was copied. */
  predicate Unplaced(data: ClipboardData) {
    exists id | id in data.positions :: data.positions[id].None?
  }

  /**
   * The copy holds, for each selected id in order, its node (nothing for an
   * id with no node), a position entry for every selected id (missing for an
   * unplaced one), and exactly the stored wires whose two pins belong to
   * selected nodes.
   */
  lemma CopyContents(g: Graph, positions: map<int, Vec2>, ids: seq<int>, w: Wire)
    ensures var c := CopyData(g, positions, ids);
      |c.nodes| == |ids| &&
      (forall i :: 0 <= i < |ids| ==> (c.nodes[i].Some? <==> ids[i] in g.nodes)) &&
      (forall i :: 0 <= i < |ids| && ids[i] in g.nodes ==> c.nodes[i] == Some(g.nodes[ids[i]])) &&
      (forall id :: id in c.positions <==> id in ids) &&
      (forall id :: id in c.positions ==> (c.positions[id].Some? <==> id in positions)) &&
      (forall id :: id in c.positions && id in positions ==> c.positions[id] == Some(positions[id])) &&
      (w in c.wires <==> w in g.wires.Values && Internal(g.pins, w, ids))
  {
    var c := CopyData(g, positions, ids);
    var keys := SortedKeys(g.wires.Keys);
    if w in g.wires.Values && Internal(g.pins, w, ids) {
      var k :| k in g.wires && g.wires[k] == w;
      assert k in keys;
    }
  }

  /** The copy is unplaced exactly when some selected id has no position. */
  lemma CopyUnplaced(g: Graph, positions: map<int, Vec2>, ids: seq<int>)
    ensures Unplaced(CopyData(g, positions, ids)) <==> exists i :: 0 <= i < |ids| && ids[i] !in positions
  {
    var c := CopyData(g, positions, ids);
    if exists i :: 0 <= i < |ids| && ids[i] !in positions {
      var i :| 0 <= i < |ids| && ids[i] !in positions;
      var id := ids[i];
      assert id in c.positions && c.positions[id].None?;
      assert Unplaced(c);
    }
    if Unplaced(c) {
      var id :| id in c.positions && c.positions[id].None?;
      var i :| 0 <= i < |ids| && ids[i] == id;
      assert ids[i] !in positions;
      assert exists j :: 0 <= j < |ids| && ids[j] !in positions;
    }
  }

  // ---------------------------------------------------------------------
  // Paste: the nodes

  /** The copied entries that hold a node, in order (`if (!oldNode) continue`). */
  function Present(nodes: seq<Option<Node>>): seq<Node>
    decreases |nodes|
  {
    if nodes == [] then []
    else
      var rest := Present(nodes[..|nodes| - 1]);
      if nodes[|nodes| - 1].Some? then rest + [nodes[|nodes| - 1].value] else rest
  }

  /** Exactly the copied nodes are kept, none added, in their order. */
  lemma {:induction false} PresentMembers(nodes: seq<Option<Node>>)
    ensures |Present(nodes)| <= |nodes|
    ensures forall n :: n in Present(nodes) <==> Some(n) in nodes
    decreases |nodes|
  {
    if nodes != [] {
      PresentMembers(nodes[..|nodes| - 1]);
      assert nodes == nodes[..|nodes| - 1] + [nodes[|nodes| - 1]];
    }
  }

  /** `idMap` after pasting `olds` with fresh ids from `first` up: a node copied twice maps to its later copy. */
  function IdMapOf(olds: seq<Node>, first: int): map<int, int>
    decreases |olds|
  {
    if olds == [] then map[]
    else IdMapOf(olds[..|olds| - 1], first)[olds[|olds| - 1].id := first + |olds| - 1]
  }

  /** Every copied node's old id maps to the fresh id of its last copy, and nothing else is mapped. */
  lemma {:induction false} IdMapRemaps(olds: seq<Node>, first: int, k: int)
    ensures var m := IdMapOf(olds, first);
      (k in m <==> exists j :: 0 <= j < |olds| && olds[j].id == k) &&
      (k in m ==> first <= m[k] < first + |olds| && olds[m[k] - first].id == k &&
                  forall j :: m[k] - first < j < |olds| ==> olds[j].id != k)
    decreases |olds|
  {
    if olds != [] {
      var init := olds[..|olds| - 1];
      IdMapRemaps(init, first, k);
      if k != olds[|olds| - 1].id && exists j :: 0 <= j < |olds| && olds[j].id == k {
        var j :| 0 <= j < |olds| && olds[j].id == k;
        assert init[j].id == k;
      }
    }
  }

  /**
   * The parameters of a pasted node after its copied parameters `done` were
   * written: each keeps its default's name and kind and takes the copied
   * value; one the defaults lack is added as a numerical parameter.
   */
  function CopiedParams(base: map<string, Param>, src: map<string, Param>, done: set<string>): map<string, Param>
    requires done <= src.Keys
  {
    map k | k in base.Keys + done ::
      if k in done then
        (if k in base then base[k].(value := src[k].value) else Param(k, Numerical, src[k].value))
      else base[k]
  }

  /** One more copied parameter written by `setNodeParam`. */
  lemma CopiedParamsStep(data: Option<map<string, Param>>, src: map<string, Param>, done: set<string>, k: string)
    requires done <= src.Keys && k in src && k !in done
    ensures var base := if data.Some? then data.value else map[];
      var cur := if done == {} then data else Some(CopiedParams(base, src, done));
      var curMap := if cur.Some? then cur.value else map[];
      curMap[k := UpdatedParam(cur, k, src[k].value)] == CopiedParams(base, src, done + {k})
  {
  }

  /** A pasted node's parameters once every copied parameter in `src` was written over `data`. */
  function CopiedData(data: Option<map<string, Param>>, src: map<string, Param>): Option<map<string, Param>> {
    if src == map[] then data
    else Some(CopiedParams(if data.Some? then data.value else map[], src, src.Keys))
  }

  /** `pasteSelection` for one copied node: a fresh node of its kind, then its parameters copied over the defaults. */
  function PasteOne(g: Graph, orig: Node): Graph {
    var (h, id) := AddNodeSpec(g, orig.kind);
    if orig.data.None? then h
    else h.(nodes := h.nodes[id := h.nodes[id].(data := CopiedData(h.nodes[id].data, orig.data.value))])
  }

  /** The fresh node and pin counters move past the pasted nodes; wires are untouched. */
  lemma {:induction false} PasteNodesCounters(g: Graph, olds: seq<Node>)
    ensures var h := PasteNodes(g, olds);
      h.nextId == g.nextId + |olds| && h.wires == g.wires && h.nextWireId == g.nextWireId && g.nextPinId <= h.nextPinId
    decreases |olds|
  {
    if olds != [] {
      PasteNodesCounters(g, olds[..|olds| - 1]);
    }
  }

  /** The node loop of `pasteSelection` over the copied nodes. */
  function PasteNodes(g: Graph, olds: seq<Node>): Graph
    decreases |olds|
  {
    if olds == [] then g else PasteOne(PasteNodes(g, olds[..|olds| - 1]), olds[|olds| - 1])
  }

  /** Two graphs that agree on everything but the pin table, which the simulation steps rewrite. */
  predicate SameButPins(g: Graph, h: Graph) {
    g.nodes == h.nodes && g.wires == h.wires &&
    g.nextId == h.nextId && g.nextPinId == h.nextPinId && g.nextWireId == h.nextWireId
  }

  /** One pasted node never looks at pin values: graphs that agree but for pins still agree after it. */
  lemma PasteOneIgnoresPins(g: Graph, h: Graph, orig: Node)
    requires SameButPins(g, h)
    ensures SameButPins(PasteOne(g, orig), PasteOne(h, orig))
  {
    var l := KindLayout(orig.kind);
    assert AddNodeSpec(g, orig.kind) == AddNodeWith(g, orig.kind, l);
    assert AddNodeSpec(h, orig.kind) == AddNodeWith(h, orig.kind, l);
    assert SameButPins(AddNodeSpec(g, orig.kind).0, AddNodeSpec(h, orig.kind).0);
  }

  /** Nor do its new pins depend on pin values: tables alike up to values stay alike after it. */
  lemma PasteOneKeepsShape(g: Graph, h: Graph, orig: Node)
    requires SameButPins(g, h) && SameShape(g.pins, h.pins)
    ensures SameShape(PasteOne(g, orig).pins, PasteOne(h, orig).pins)
  {
    var l := KindLayout(orig.kind);
    var start := g.nextPinId;
    var outStart := start + |l.inputs|;
    var added := NewPins(g.nextId, start, l.inputs, Input) + NewPins(g.nextId, outStart, l.outputs, Output);
    assert AddNodeSpec(g, orig.kind) == AddNodeWith(g, orig.kind, l);
    assert AddNodeSpec(h, orig.kind) == AddNodeWith(h, orig.kind, l);
    assert PasteOne(g, orig).pins == g.pins + added;
    assert PasteOne(h, orig).pins == h.pins + added;
    SameShapeUnion(g.pins, h.pins, added);
  }

  /** Node `id` of `nodes` is a copy of `orig` under that id: the same kind and, for `key`, the copied value. */
  predicate HasCopy(nodes: map<int, Node>, id: int, orig: Node, key: string) {
    id in nodes && nodes[id].id == id && nodes[id].kind == orig.kind &&
    (orig.data.Some? && key in orig.data.value ==>
      nodes[id].data.Some? && key in nodes[id].data.value &&
      nodes[id].data.value[key].value == orig.data.value[key].value)
  }

  /**
   * Pasting `olds` gives copy `j` the id `nextId + j`, the kind of the
   * `j`-th copied node and every copied parameter value.
   */
  lemma {:induction false} PasteNodesCopies(g: Graph, olds: seq<Node>, j: nat, key: string)
    requires j < |olds|
    ensures HasCopy(PasteNodes(g, olds).nodes, g.nextId + j, olds[j], key)
    decreases |olds|
  {
    var init, last := olds[..|olds| - 1], olds[|olds| - 1];
    PasteNodesCounters(g, init);
    if j < |olds| - 1 {
      PasteNodesCopies(g, init, j, key);
      PasteOneFrame(PasteNodes(g, init), last, g.nextId + j);
    } else {
      PasteOneCopies(PasteNodes(g, init), last, key);
    }
  }

  /** The node one paste adds has the next id, the copied kind and every copied parameter value. */
  lemma PasteOneCopies(g: Graph, orig: Node, key: string)
    ensures HasCopy(PasteOne(g, orig).nodes, g.nextId, orig, key)
  {
  }

  /** One paste leaves every node below the next id as it was. */
  lemma PasteOneFrame(g: Graph, orig: Node, k: int)
    requires k < g.nextId
    ensures var h := PasteOne(g, orig);
      (k in h.nodes <==> k in g.nodes) && (k in g.nodes ==> h.nodes[k] == g.nodes[k])
  {
  }

  /** Nodes outside the fresh ids are left exactly as they were. */
  lemma {:induction false} PasteNodesFrame(g: Graph, olds: seq<Node>, k: int)
    requires !(g.nextId <= k < g.nextId + |olds|)
    ensures var h := PasteNodes(g, olds);
      h.nextId == g.nextId + |olds| && (k in h.nodes <==> k in g.nodes) && (k in g.nodes ==> h.nodes[k] == g.nodes[k])
    decreases |olds|
  {
    if olds != [] {
      PasteNodesFrame(g, olds[..|olds| - 1], k);
    }
  }

  /** `oldPositions[id] ?? {x: 0, y: 0}`: the copied position of `id`, the origin when none was recorded. */
  function CopiedPosition(copied: map<int, Option<Vec2>>, id: int): Vec2 {
    if id in copied && copied[id].Some? then copied[id].value else Vec2(0, 0)
  }

  /** The positions after pasting: copy `j` sits at its original's copied position (the origin if none) plus the offset. */
  function PastedPositions(positions: map<int, Vec2>, olds: seq<Node>, copied: map<int, Option<Vec2>>, first: int, offset: Vec2): map<int, Vec2>
    decreases |olds|
  {
    if olds == [] then positions
    else
      var oldPos := CopiedPosition(copied, olds[|olds| - 1].id);
      PastedPositions(positions, olds[..|olds| - 1], copied, first, offset)[first + |olds| - 1 := Shifted(oldPos, offset.x, offset.y)]
  }

  /** The parameters a copied node brings, each written by one `setNodeParam`. */
  function ParamCount(n: Node): nat {
    if n.data.Some? then |n.data.value.Keys| else 0
  }

  /** The `setNodeParam` calls pasting `olds` makes; each runs one simulation step. */
  function ParamWrites(olds: seq<Node>): nat
    decreases |olds|
  {
    if olds == [] then 0 else ParamWrites(olds[..|olds| - 1]) + ParamCount(olds[|olds| - 1])
  }

  // ---------------------------------------------------------------------
  // Paste: the wires

  /** The id `pins[pid]` names, when it is a real pin labelled `name`. */
  predicate Named(pins: PinTable, pid: int, name: string) {
    pid in pins && pins[pid].Pin? && pins[pid].name == name
  }

  /** `pids.map(pid => pins[pid]).find(p => p && p.name === name)?.id`. */
  function FindPinByName(pins: PinTable, pids: seq<int>, name: string): (r: Option<int>)
    ensures r.Some? <==> exists j :: 0 <= j < |pids| && Named(pins, pids[j], name)
    decreases |pids|
  {
    if pids == [] then None
    else if Named(pins, pids[0], name) then Some(pins[pids[0]].id)
    else
      var r := FindPinByName(pins, pids[1..], name);
      assert forall j :: 1 <= j < |pids| ==> pids[j] == pids[1..][j - 1];
      r
  }

  /** The pin found is the first listed one that has the name. */
  lemma {:induction false} FindPinIsFirst(pins: PinTable, pids: seq<int>, name: string) returns (j: nat)
    requires FindPinByName(pins, pids, name).Some?
    ensures j < |pids| && Named(pins, pids[j], name) && pins[pids[j]].id == FindPinByName(pins, pids, name).value
    ensures forall i :: 0 <= i < j ==> !Named(pins, pids[i], name)
    decreases |pids|
  {
    if Named(pins, pids[0], name) {
      j := 0;
    } else {
      var j' := FindPinIsFirst(pins, pids[1..], name);
      j := j' + 1;
      forall i | 0 <= i < j
        ensures !Named(pins, pids[i], name)
      {
        if i > 0 {
          assert pids[i] == pids[1..][i - 1];
        }
      }
    }
  }

  /** An id is usable when present and not 0 (JavaScript treats 0 as missing). */
  predicate Truthy(id: Option<int>) {
    id.Some? && id.value != 0
  }

  /** The anchors of a pasted wire: a non-empty list moved by the offset, otherwise none. */
  function ShiftAnchors(anchors: Option<seq<Vec2>>, offset: Vec2): (r: Option<seq<Vec2>>)
    ensures r.Some? <==> anchors.Some? && anchors.value != []
    ensures r.Some? ==> (|r.value| == |anchors.value| &&
      forall i :: 0 <= i < |r.value| ==> r.value[i] == Shifted(anchors.value[i], offset.x, offset.y))
  {
    if anchors.Some? && |anchors.value| > 0 then
      Some(seq(|anchors.value|, i requires 0 <= i < |anchors.value| => Shifted(anchors.value[i], offset.x, offset.y)))
    else None
  }

  /** What `addWire` is asked to store for one pasted wire. */
  datatype WireRequest = WireRequest(from: int, to: int, anchors: Option<seq<Vec2>>)

  /** The owner of a pin id, if it is a real pin. */
  function Owner(pins: PinTable, pid: int): Option<int> {
    if pid in pins && pins[pid].Pin? then Some(pins[pid].nodeId) else None
  }

  /** The new node a copied node id maps to, if any. */
  function Mapped(idMap: map<int, int>, owner: Option<int>): Option<int> {
    if owner.Some? && owner.value in idMap then Some(idMap[owner.value]) else None
  }

  /** The pin of new node `n` (if it exists) that is listed in `outputs` or inputs and named `name`. */
  function PinOfNew(nodes: map<int, Node>, pins: PinTable, n: int, outputs: bool, name: string): Option<int> {
    if n !in nodes then None
    else FindPinByName(pins, if outputs then nodes[n].outputPins else nodes[n].inputPins, name)
  }

  /**
   * The wire `pasteSelection` adds for a copied wire `w`, if any: both of
   * its old pins must still be there, their owners must have been pasted,
   * and the new owners must have an output and an input pin of the same names.
   */
  function PastedWire(nodes: map<int, Node>, pins: PinTable, idMap: map<int, int>, w: Wire, offset: Vec2): Option<WireRequest> {
    if w.from !in pins || w.to !in pins then None
    else
      var newFrom, newTo := Mapped(idMap, Owner(pins, w.from)), Mapped(idMap, Owner(pins, w.to));
      if !Truthy(newFrom) || !Truthy(newTo) then None
      else
        var f := PinOfNew(nodes, pins, newFrom.value, true, pins[w.from].name);
        var t := PinOfNew(nodes, pins, newTo.value, false, pins[w.to].name);
        if Truthy(f) && Truthy(t) then Some(WireRequest(f.value, t.value, ShiftAnchors(w.anchors, offset)))
        else None
  }

  /** The pin found by name is the same in two tables alike up to values. */
  lemma {:induction false} FindPinSameShape(a: PinTable, b: PinTable, pids: seq<int>, name: string)
    requires SameShape(a, b)
    ensures FindPinByName(a, pids, name) == FindPinByName(b, pids, name)
    decreases |pids|
  {
    if pids != [] {
      FindPinSameShape(a, b, pids[1..], name);
    }
  }

  /** A pasted wire reads pin ids, owners and names, never values. */
  lemma PastedWireSameShape(nodes: map<int, Node>, a: PinTable, b: PinTable, idMap: map<int, int>, w: Wire, offset: Vec2)
    requires SameShape(a, b)
    ensures PastedWire(nodes, a, idMap, w, offset) == PastedWire(nodes, b, idMap, w, offset)
  {
    forall pids: seq<int>, name: string
      ensures FindPinByName(a, pids, name) == FindPinByName(b, pids, name)
    {
      FindPinSameShape(a, b, pids, name);
    }
  }

  /** The requests for the copied wires, in clipboard order. */
  function Requests(nodes: map<int, Node>, pins: PinTable, idMap: map<int, int>, ws: seq<Wire>, offset: Vec2): seq<WireRequest>
    decreases |ws|
  {
    if ws == [] then []
    else
      var rest := Requests(nodes, pins, idMap, ws[..|ws| - 1], offset);
      var r := PastedWire(nodes, pins, idMap, ws[|ws| - 1], offset);
      if r.Some? then rest + [r.value] else rest
  }

  /** The requests depend on the pin table only up to values. */
  lemma {:induction false} RequestsSameShape(nodes: map<int, Node>, a: PinTable, b: PinTable, idMap: map<int, int>,
                                             ws: seq<Wire>, offset: Vec2)
    requires SameShape(a, b)
    ensures Requests(nodes, a, idMap, ws, offset) == Requests(nodes, b, idMap, ws, offset)
    decreases |ws|
  {
    if ws != [] {
      RequestsSameShape(nodes, a, b, idMap, ws[..|ws| - 1], offset);
      PastedWireSameShape(nodes, a, b, idMap, ws[|ws| - 1], offset);
    }
  }

  /** `addWire` for each request in turn. */
  function AddWires(g: Graph, reqs: seq<WireRequest>): Graph
    decreases |reqs|
  {
    if reqs == [] then g
    else
      var r := reqs[|reqs| - 1];
      AddWireSpec(AddWires(g, reqs[..|reqs| - 1]), r.from, r.to, r.anchors)
  }

  /** Adding wires never looks at pins or nodes: graphs that agree but for pins still agree after it, and the pins are kept. */
  lemma {:induction false} AddWiresIgnoresPins(g: Graph, h: Graph, reqs: seq<WireRequest>)
    requires SameButPins(g, h)
    ensures SameButPins(AddWires(g, reqs), AddWires(h, reqs)) && AddWires(g, reqs).pins == g.pins
    decreases |reqs|
  {
    if reqs != [] {
      AddWiresIgnoresPins(g, h, reqs[..|reqs| - 1]);
    }
  }

  /**
   * A pasted wire runs between the copies of the original wire's two owners:
   * from an output pin and to an input pin that carry the original pins'
   * names, and its anchors are the original's moved by the offset.
   */
  lemma PastedWireMatches(nodes: map<int, Node>, pins: PinTable, idMap: map<int, int>, w: Wire, offset: Vec2)
    requires PastedWire(nodes, pins, idMap, w, offset).Some?
    ensures var r := PastedWire(nodes, pins, idMap, w, offset).value;
      w.from in pins && w.to in pins && pins[w.from].Pin? && pins[w.to].Pin? &&
      pins[w.from].nodeId in idMap && pins[w.to].nodeId in idMap &&
      (var nf, nt := idMap[pins[w.from].nodeId], idMap[pins[w.to].nodeId];
       nf in nodes && nt in nodes &&
       (exists j :: 0 <= j < |nodes[nf].outputPins| && Named(pins, nodes[nf].outputPins[j], pins[w.from].name) &&
          pins[nodes[nf].outputPins[j]].id == r.from) &&
       (exists j :: 0 <= j < |nodes[nt].inputPins| && Named(pins, nodes[nt].inputPins[j], pins[w.to].name) &&
          pins[nodes[nt].inputPins[j]].id == r.to)) &&
      r.anchors == ShiftAnchors(w.anchors, offset)
  {
    assert Mapped(idMap, Owner(pins, w.from)).Some? && Mapped(idMap, Owner(pins, w.to)).Some?;
    var nf, nt := idMap[pins[w.from].nodeId], idMap[pins[w.to].nodeId];
    var jf := FindPinIsFirst(pins, nodes[nf].outputPins, pins[w.from].name);
    var jt := FindPinIsFirst(pins, nodes[nt].inputPins, pins[w.to].name);
  }

  /** Adding the requested wires appends one wire per request under consecutive fresh ids and changes nothing else. */
  lemma {:induction false} AddWiresAppends(g: Graph, reqs: seq<WireRequest>, j: nat)
    requires j < |reqs|
    ensures var h := AddWires(g, reqs);
      h.nextWireId == g.nextWireId + |reqs| && h.nodes == g.nodes && h.pins == g.pins &&
      h.nextId == g.nextId && h.nextPinId == g.nextPinId &&
      g.nextWireId + j in h.wires && h.wires[g.nextWireId + j] == Wire(g.nextWireId + j, reqs[j].from, reqs[j].to, reqs[j].anchors)
    decreases |reqs|
  {
    var init := reqs[..|reqs| - 1];
    if j < |reqs| - 1 {
      AddWiresAppends(g, init, j);
    } else if init != [] {
      AddWiresAppends(g, init, 0);
    }
  }

  // ---------------------------------------------------------------------
  // Delete

  /** A real pin owned by one of the nodes `ids`. */
  predicate OwnedByAny(p: Pin, ids: seq<int>) {
    p.Pin? && p.nodeId in ids
  }

  /** A wire with an end on a pin of a selected node. */
  predicate TouchesSelected(pins: PinTable, w: Wire, ids: seq<int>) {
    (w.from in pins && OwnedByAny(pins[w.from], ids)) || (w.to in pins && OwnedByAny(pins[w.to], ids))
  }

  /**
   * The filter in `deleteSelection` reads `pins[w.from].nodeId` and, when
   * that owner is not selected, `pins[w.to].nodeId`: a missing pin there
   * makes it throw.
   */
  predicate DeleteThrowsOn(pins: PinTable, w: Wire, ids: seq<int>) {
    w.from !in pins || (!OwnedByAny(pins[w.from], ids) && w.to !in pins)
  }

  /** The wires among `keys`, in order, with an end on a selected node. */
  function SelectedWires(pins: PinTable, wires: map<int, Wire>, keys: seq<int>, ids: seq<int>): (r: seq<Wire>)
    requires forall k :: k in keys ==> k in wires
    ensures forall w :: w in r ==> w in wires.Values && TouchesSelected(pins, w, ids)
    ensures forall k :: k in keys && TouchesSelected(pins, wires[k], ids) ==> wires[k] in r
    decreases |keys|
  {
    if keys == [] then []
    else
      var k := keys[|keys| - 1];
      var rest := SelectedWires(pins, wires, keys[..|keys| - 1], ids);
      assert keys == keys[..|keys| - 1] + [k];
      if TouchesSelected(pins, wires[k], ids) then rest + [wires[k]] else rest
  }

  /** `disconnectWire(w.id)` for each listed wire in turn. */
  function DisconnectAll(g: Graph, ws: seq<Wire>): Graph
    decreases |ws|
  {
    if ws == [] then g else DisconnectWireSpec(DisconnectAll(g, ws[..|ws| - 1]), ws[|ws| - 1].id)
  }

  /** `removeNode(id)` for each listed id in turn. */
  function RemoveAll(g: Graph, ids: seq<int>): Graph
    decreases |ids|
  {
    if ids == [] then g else RemoveNodeSpec(RemoveAll(g, ids[..|ids| - 1]), ids[|ids| - 1])
  }

  /** `deleteSelection` on the graph: nothing for an empty selection, `None` when it would throw. */
  function DeleteSelectionSpec(g: Graph, ids: seq<int>): Option<Graph> {
    if ids == [] then Some(g)
    else if exists k :: k in g.wires && DeleteThrowsOn(g.pins, g.wires[k], ids) then None
    else Some(RemoveAll(DisconnectAll(g, SelectedWires(g.pins, g.wires, SortedKeys(g.wires.Keys), ids)), ids))
  }

  /** Disconnecting a list of wires deletes exactly the keys equal to their ids. */
  lemma {:induction false} DisconnectAllRemoves(g: Graph, ws: seq<Wire>, k: int)
    ensures var h := DisconnectAll(g, ws);
      h.nodes == g.nodes && h.pins == g.pins && h.nextId == g.nextId && h.nextPinId == g.nextPinId && h.nextWireId == g.nextWireId &&
      (k in h.wires <==> k in g.wires && forall i :: 0 <= i < |ws| ==> ws[i].id != k) &&
      (k in h.wires ==> h.wires[k] == g.wires[k])
    decreases |ws|
  {
    if ws != [] {
      DisconnectAllRemoves(g, ws[..|ws| - 1], k);
    }
  }

  /**
   * Removing a list of nodes deletes those nodes, the pins they own and the
   * wires with an end on those pins, judged by the pins before any removal.
   */
  lemma {:induction false} RemoveAllCascades(g: Graph, ids: seq<int>, k: int)
    ensures var h := RemoveAll(g, ids);
      h.nextId == g.nextId && h.nextPinId == g.nextPinId && h.nextWireId == g.nextWireId &&
      (k in h.nodes <==> k in g.nodes && k !in ids) && (k in h.nodes ==> h.nodes[k] == g.nodes[k]) &&
      (k in h.pins <==> k in g.pins && !OwnedByAny(g.pins[k], ids)) && (k in h.pins ==> h.pins[k] == g.pins[k]) &&
      (k in h.wires <==> k in g.wires && !TouchesSelected(g.pins, g.wires[k], ids)) &&
      (k in h.wires ==> h.wires[k] == g.wires[k])
    decreases |ids|
  {
    if ids != [] {
      var init := ids[..|ids| - 1];
      var x := ids[|ids| - 1];
      assert ids == init + [x];
      RemoveAllCascades(g, init, k);
      if k in g.wires {
        var w := g.wires[k];
        RemoveAllCascades(g, init, w.from);
        RemoveAllCascades(g, init, w.to);
      }
    }
  }

  /**
   * On wires keyed by id, a selection delete that does not throw removes the
   * selected nodes, every pin they own and every wire with an end on one of
   * those pins; everything else, and every counter, stays.
   */
  lemma DeleteSelectionRemoves(g: Graph, ids: seq<int>, k: int)
    requires KeyedById(g.wires) && DeleteSelectionSpec(g, ids).Some?
    ensures var h := DeleteSelectionSpec(g, ids).value;
      h.nextId == g.nextId && h.nextPinId == g.nextPinId && h.nextWireId == g.nextWireId &&
      (k in h.nodes <==> k in g.nodes && k !in ids) && (k in h.nodes ==> h.nodes[k] == g.nodes[k]) &&
      (k in h.pins <==> k in g.pins && !OwnedByAny(g.pins[k], ids)) && (k in h.pins ==> h.pins[k] == g.pins[k]) &&
      (k in h.wires <==> k in g.wires && !TouchesSelected(g.pins, g.wires[k], ids)) &&
      (k in h.wires ==> h.wires[k] == g.wires[k])
  {
    if ids != [] {
      var keys := SortedKeys(g.wires.Keys);
      var ws := SelectedWires(g.pins, g.wires, keys, ids);
      var d := DisconnectAll(g, ws);
      DisconnectAllRemoves(g, ws, k);
      RemoveAllCascades(d, ids, k);
      if k in g.wires {
        if TouchesSelected(g.pins, g.wires[k], ids) {
          assert k in keys;
          assert g.wires[k] in ws;
          var i :| 0 <= i < |ws| && ws[i] == g.wires[k];
          assert ws[i].id == k;
        } else {
          forall i | 0 <= i < |ws|
            ensures ws[i].id != k
          {
            assert ws[i] in ws;
            var j :| j in g.wires && g.wires[j] == ws[i];
            assert g.wires[j].id == j;
          }
        }
      }
    }
  }
}
