/**
 * The editor's UI store: node positions, the selection, the rectangle being
 * dragged, the wire draft and the wire being edited, together with the
 * editing commands that change the circuit through the simulation store.
 * Each method is proved to move the store (and the circuit) exactly as the
 * matching function on values says; the properties of those functions are
 * proved beside them.
 */
module UIStore {
  import opened Types
  import opened Keys
  import opened SimStore
  import opened SimulationFacts
  import opened SimStoreFacts
  import opened EditorClipboard
  import opened Selection
  import opened WireEdit
  import opened SelectionEdits

  /** The fields of the UI store the model keeps, as one value. */
  datatype UIState = UIState(
    nodePositions: map<int, Vec2>,
    selectedNodesIds: seq<int>,
    wireDraft: Option<WireDraft>,
    selectedWireId: Option<int>,
    editingWireId: Option<int>,
    squareSelection: Option<Square>)

  /** The node table while `CopyParams` runs: node `id` of `nodes0` with the entries `done` of `src` copied. */
  function Copying(nodes0: map<int, Node>, id: int, src: map<string, Param>, done: set<string>): map<int, Node>
    requires id in nodes0 && done <= src.Keys
  {
    var n0 := nodes0[id];
    var base := if n0.data.Some? then n0.data.value else map[];
    nodes0[id := n0.(data := if done == {} then n0.data else Some(CopiedParams(base, src, done)))]
  }

  /** One `setNodeParam` of a further entry of `src` moves `Copying` on by that entry. */
  lemma CopyingStep(g: Graph, nodes0: map<int, Node>, id: int, src: map<string, Param>, done: set<string>, key: string)
    requires id in nodes0 && done <= src.Keys && key in src && key !in done
    requires g.nodes == Copying(nodes0, id, src, done)
    ensures SameButPins(SetParamSpec(g, id, key, src[key].value), g.(nodes := Copying(nodes0, id, src, done + {key})))
  {
    CopiedParamsStep(nodes0[id].data, src, done, key);
  }

  /** Once every entry is copied, `Copying` is the node with `CopiedData`. */
  lemma CopyingDone(nodes0: map<int, Node>, id: int, src: map<string, Param>)
    requires id in nodes0
    ensures var n := nodes0[id];
      Copying(nodes0, id, src, src.Keys) == nodes0[id := n.(data := CopiedData(n.data, src))]
  {
    if src.Keys == {} {
      assert src == map[];
    }
  }

  /** One `setNodeParam` of the copy loop: entry `key` of `src` joins the copied entries. */
  method CopyEntry(sim: SimStore, ghost g0: Graph, id: int, src: map<string, Param>, ghost done: set<string>, key: string)
    requires id in g0.nodes && done <= src.Keys && key in src && key !in done
    requires SameButPins(sim.Graph(), g0.(nodes := Copying(g0.nodes, id, src, done)))
    requires WellFormed(g0) ==> WellFormed(sim.Graph()) && SameShape(g0.pins, sim.pins)
    modifies sim
    ensures SameButPins(sim.Graph(), g0.(nodes := Copying(g0.nodes, id, src, done + {key})))
    ensures WellFormed(g0) ==> WellFormed(sim.Graph()) && SameShape(g0.pins, sim.pins)
    ensures sim.currentTick == old(sim.currentTick) + 1
  {
    ghost var before := sim.Graph();
    CopyingStep(before, g0.nodes, id, src, done, key);
    var _ := sim.SetNodeParam(id, key, src[key].value);
    if WellFormed(g0) {
      var u := SetParamSpec(before, id, key, src[key].value);
      SetParamKeepsWellFormed(before, id, key, src[key].value);
      StepKeepsWellFormed(u, old(sim.currentTick));
      SameShapeTrans(g0.pins, u.pins, sim.pins);
    }
  }

  /**
   * The parameters of node `id` become `CopiedData` of `src` over them, one
   * `setNodeParam` per copied entry, each running one simulation step;
   * nothing else of the graph but the pin table (which every simulation
   * step rewrites) changes.
   */
  method CopyParams(sim: SimStore, id: int, src: map<string, Param>)
    requires id in sim.nodes
    modifies sim
    ensures id in old(sim.nodes)
    ensures var n := old(sim.nodes)[id];
      sim.nodes == old(sim.nodes)[id := n.(data := CopiedData(n.data, src))]
    ensures sim.wires == old(sim.wires) && sim.nextId == old(sim.nextId) &&
      sim.nextPinId == old(sim.nextPinId) && sim.nextWireId == old(sim.nextWireId)
    ensures sim.currentTick == old(sim.currentTick) + |src.Keys|
    ensures WellFormed(old(sim.Graph())) ==> WellFormed(sim.Graph()) && SameShape(old(sim.pins), sim.pins)
  {
    ghost var g0, tick0 := sim.Graph(), sim.currentTick;
    var done: set<string> := {};
    assert g0.nodes[id := g0.nodes[id]] == g0.nodes;
    while done != src.Keys
      invariant done <= src.Keys
      invariant SameButPins(sim.Graph(), g0.(nodes := Copying(g0.nodes, id, src, done)))
      invariant sim.currentTick == tick0 + |done|
      invariant WellFormed(g0) ==> WellFormed(sim.Graph()) && SameShape(g0.pins, sim.pins)
      decreases |src.Keys - done|
    {
      NonEmptyHasElement(src.Keys - done);
      var key :| key in src.Keys - done;
      CopyEntry(sim, g0, id, src, done, key);
      done := done + {key};
    }
    CopyingDone(g0.nodes, id, src);
  }

  /** One copied node pasted: a fresh node of its kind, then its parameters. */
  method PasteNode(sim: SimStore, orig: Node) returns (newId: int)
    modifies sim
    ensures newId == old(sim.nextId) && sim.nextId == newId + 1
    ensures SameButPins(sim.Graph(), PasteOne(old(sim.Graph()), orig))
    ensures sim.currentTick == old(sim.currentTick) + ParamCount(orig)
    ensures WellFormed(old(sim.Graph())) ==> WellFormed(sim.Graph()) && SameShape(PasteOne(old(sim.Graph()), orig).pins, sim.pins)
  {
    if WellFormed(sim.Graph()) {
      AddNodeKeepsWellFormed(sim.Graph(), orig.kind);
    }
    newId := sim.AddNode(orig.kind);
    if orig.data.Some? {
      CopyParams(sim, newId, orig.data.value);
    }
  }

  /** The copied nodes up to index `i` that hold a node, one more entry at a time. */
  lemma PresentStep(oldNodes: seq<Option<Node>>, i: nat)
    requires i < |oldNodes|
    ensures Present(oldNodes[..i + 1]) ==
      Present(oldNodes[..i]) + (if oldNodes[i].Some? then [oldNodes[i].value] else [])
  {
    assert oldNodes[..i + 1][..i] == oldNodes[..i];
  }

  /** One more pasted node: the graph. */
  lemma PasteNodesSnoc(g0: Graph, done: seq<Node>, orig: Node)
    ensures PasteNodes(g0, done + [orig]) == PasteOne(PasteNodes(g0, done), orig)
  {
    assert (done + [orig])[..|done|] == done;
  }

  /** A store that matches the pasted graph so far, but for pins, still matches it after one more node is pasted into each. */
  lemma PasteNodesStep(after: Graph, before: Graph, g0: Graph, done: seq<Node>, orig: Node)
    requires SameButPins(before, PasteNodes(g0, done)) && SameButPins(after, PasteOne(before, orig))
    ensures SameButPins(after, PasteNodes(g0, done + [orig]))
  {
    PasteOneIgnoresPins(before, PasteNodes(g0, done), orig);
    PasteNodesSnoc(g0, done, orig);
  }

  /** One more pasted node: the id map. */
  lemma IdMapSnoc(done: seq<Node>, orig: Node, first: int)
    ensures IdMapOf(done + [orig], first) == IdMapOf(done, first)[orig.id := first + |done|]
  {
    assert (done + [orig])[..|done|] == done;
  }

  /** One more pasted node: the new ids. */
  lemma RangeSnoc(first: int, n: nat)
    ensures Range(first, n + 1) == Range(first, n) + [first + n]
  {
  }

  /** One more pasted node: the positions. */
  lemma PositionsSnoc(done: seq<Node>, orig: Node, first: int, positions0: map<int, Vec2>,
                      oldPositions: map<int, Option<Vec2>>, offset: Vec2)
    ensures var oldPos := CopiedPosition(oldPositions, orig.id);
      PastedPositions(positions0, done + [orig], oldPositions, first, offset) ==
        PastedPositions(positions0, done, oldPositions, first, offset)[first + |done| := Shifted(oldPos, offset.x, offset.y)]
  {
    assert (done + [orig])[..|done|] == done;
  }

  /**
   * The node loop of `pasteSelection`: every copied node is pasted, its old
   * id mapped to the new one, and the new node placed at its copied position
   * (the origin if none) plus `offset`; `positions` are the UI store's
   * positions the loop writes into. Every copied parameter costs one
   * simulation step.
   */
  method PasteNodesLoop(sim: SimStore, oldNodes: seq<Option<Node>>, oldPositions: map<int, Option<Vec2>>, offset: Vec2,
                        positions0: map<int, Vec2>)
    returns (idMap: map<int, int>, newNodeIds: seq<int>, positions: map<int, Vec2>)
    modifies sim
    ensures var olds, first := Present(oldNodes), old(sim.nextId);
      SameButPins(sim.Graph(), PasteNodes(old(sim.Graph()), olds)) &&
      idMap == IdMapOf(olds, first) && newNodeIds == Range(first, |olds|) &&
      positions == PastedPositions(positions0, olds, oldPositions, first, offset) &&
      sim.currentTick == old(sim.currentTick) + ParamWrites(olds)
    ensures WellFormed(old(sim.Graph())) ==>
      WellFormed(sim.Graph()) && SameShape(PasteNodes(old(sim.Graph()), Present(oldNodes)).pins, sim.pins)
  {
    ghost var g0, first, tick0 := sim.Graph(), sim.nextId, sim.currentTick;
    ghost var done: seq<Node> := [];
    idMap, newNodeIds, positions := map[], [], positions0;
    for i := 0 to |oldNodes|
      invariant done == Present(oldNodes[..i])
      invariant SameButPins(sim.Graph(), PasteNodes(g0, done))
      invariant idMap == IdMapOf(done, first)
      invariant newNodeIds == Range(first, |done|)
      invariant positions == PastedPositions(positions0, done, oldPositions, first, offset)
      invariant sim.nextId == first + |done|
      invariant sim.currentTick == tick0 + ParamWrites(done)
      invariant WellFormed(g0) ==> WellFormed(sim.Graph()) && SameShape(PasteNodes(g0, done).pins, sim.pins)
    {
      PresentStep(oldNodes, i);
      var oldNode := oldNodes[i];
      if oldNode.None? {
        continue;
      }
      var newId := PasteStep(sim, g0, done, first, tick0, oldNode.value);
      idMap, newNodeIds, positions :=
        Record(done, first, oldNode.value, newId, idMap, newNodeIds, positions, oldPositions, offset, positions0);
      done := done + [oldNode.value];
    }
    assert oldNodes[..|oldNodes|] == oldNodes;
  }

  /** One pass of the node loop on the store: `orig` is pasted under the next id. */
  method PasteStep(sim: SimStore, ghost g0: Graph, ghost done: seq<Node>, ghost first: int, ghost tick0: int, orig: Node)
    returns (newId: int)
    requires SameButPins(sim.Graph(), PasteNodes(g0, done)) && sim.nextId == first + |done|
    requires sim.currentTick == tick0 + ParamWrites(done)
    requires WellFormed(g0) ==> WellFormed(sim.Graph()) && SameShape(PasteNodes(g0, done).pins, sim.pins)
    modifies sim
    ensures SameButPins(sim.Graph(), PasteNodes(g0, done + [orig]))
    ensures newId == first + |done| && sim.nextId == newId + 1
    ensures sim.currentTick == tick0 + ParamWrites(done + [orig])
    ensures WellFormed(g0) ==> WellFormed(sim.Graph()) && SameShape(PasteNodes(g0, done + [orig]).pins, sim.pins)
  {
    assert (done + [orig])[..|done|] == done;
    ghost var before := sim.Graph();
    newId := PasteNode(sim, orig);
    PasteNodesStep(sim.Graph(), before, g0, done, orig);
    if WellFormed(g0) {
      PasteOneKeepsShape(PasteNodes(g0, done), before, orig);
      SameShapeTrans(PasteNodes(g0, done + [orig]).pins, PasteOne(before, orig).pins, sim.pins);
    }
  }

  /** One pass of the node loop on its bookkeeping: the old id maps to the new one, which is listed and placed. */
  method Record(ghost done: seq<Node>, ghost first: int, orig: Node, newId: int,
                idMap0: map<int, int>, newNodeIds0: seq<int>, positions1: map<int, Vec2>,
                oldPositions: map<int, Option<Vec2>>, offset: Vec2, ghost positions0: map<int, Vec2>)
    returns (idMap: map<int, int>, newNodeIds: seq<int>, positions: map<int, Vec2>)
    requires newId == first + |done|
    requires idMap0 == IdMapOf(done, first) && newNodeIds0 == Range(first, |done|)
    requires positions1 == PastedPositions(positions0, done, oldPositions, first, offset)
    ensures idMap == IdMapOf(done + [orig], first) && newNodeIds == Range(first, |done| + 1)
    ensures positions == PastedPositions(positions0, done + [orig], oldPositions, first, offset)
  {
    IdMapSnoc(done, orig, first);
    RangeSnoc(first, |done|);
    PositionsSnoc(done, orig, first, positions0, oldPositions, offset);
    idMap := idMap0[orig.id := newId];
    newNodeIds := newNodeIds0 + [newId];
    var oldPos := CopiedPosition(oldPositions, orig.id);
    positions := positions1[newId := Shifted(oldPos, offset.x, offset.y)];
  }

  /** The wire loop of `pasteSelection`, reading the node and pin tables as they were after the node loop. */
  method PasteWiresLoop(sim: SimStore, nodes: map<int, Node>, pins: PinTable, idMap: map<int, int>,
                        oldWires: seq<Wire>, offset: Vec2)
    modifies sim
    ensures sim.Graph() == AddWires(old(sim.Graph()), Requests(nodes, pins, idMap, oldWires, offset))
    ensures sim.currentTick == old(sim.currentTick)
  {
    ghost var g0, tick0 := sim.Graph(), sim.currentTick;
    for i := 0 to |oldWires|
      invariant sim.Graph() == AddWires(g0, Requests(nodes, pins, idMap, oldWires[..i], offset))
      invariant sim.currentTick == tick0
    {
      assert oldWires[..i + 1][..i] == oldWires[..i];
      var request := PastedWire(nodes, pins, idMap, oldWires[i], offset);
      if request.Some? {
        sim.AddWire(request.value.from, request.value.to, request.value.anchors);
      }
    }
    assert oldWires[..|oldWires|] == oldWires;
  }

  /** The positions left when the nodes `ids` are deleted. */
  function Without(positions: map<int, Vec2>, ids: seq<int>): (r: map<int, Vec2>)
    ensures forall k :: k in r <==> k in positions && k !in ids
    ensures forall k :: k in r ==> r[k] == positions[k]
  {
    map k | k in positions && k !in ids :: positions[k]
  }

  /** `disconnectWire(w.id)` for each of `ws` in turn. */
  method DisconnectWires(sim: SimStore, ws: seq<Wire>)
    modifies sim
    ensures sim.Graph() == DisconnectAll(old(sim.Graph()), ws) && sim.currentTick == old(sim.currentTick)
  {
    ghost var g0 := sim.Graph();
    for i := 0 to |ws|
      invariant sim.Graph() == DisconnectAll(g0, ws[..i]) && sim.currentTick == old(sim.currentTick)
    {
      assert ws[..i + 1][..i] == ws[..i];
      sim.DisconnectWire(ws[i].id);
    }
    assert ws[..|ws|] == ws;
  }

  /** `removeNode(id)` for each of `ids` in turn. */
  method RemoveNodes(sim: SimStore, ids: seq<int>)
    modifies sim
    ensures sim.Graph() == RemoveAll(old(sim.Graph()), ids) && sim.currentTick == old(sim.currentTick)
  {
    ghost var g0 := sim.Graph();
    for i := 0 to |ids|
      invariant sim.Graph() == RemoveAll(g0, ids[..i]) && sim.currentTick == old(sim.currentTick)
    {
      assert ids[..i + 1][..i] == ids[..i];
      sim.RemoveNode(ids[i]);
    }
    assert ids[..|ids|] == ids;
  }

  /** The `delete newPositions[id]` loop of `deleteSelection`. */
  method DropPositions(positions: map<int, Vec2>, ids: seq<int>) returns (newPositions: map<int, Vec2>)
    ensures newPositions == Without(positions, ids)
  {
    newPositions := positions;
    for i := 0 to |ids|
      invariant newPositions == Without(positions, ids[..i])
    {
      assert forall k :: k in ids[..i + 1] <==> k in ids[..i] || k == ids[i];
      newPositions := newPositions - {ids[i]};
    }
    assert ids[..|ids|] == ids;
  }

  class UIStore {
    var nodePositions: map<int, Vec2>
    var selectedNodesIds: seq<int>
    var wireDraft: Option<WireDraft>
    var selectedWireId: Option<int>
    var editingWireId: Option<int>
    var squareSelection: Option<Square>

    /** No positions, nothing selected, no draft, nothing being edited. */
    constructor()
      ensures State() == UIState(map[], [], None, None, None, None)
    {
      nodePositions := map[];
      selectedNodesIds := [];
      wireDraft := None;
      selectedWireId := None;
      editingWireId := None;
      squareSelection := None;
    }

    function State(): UIState
      reads this
    {
      UIState(nodePositions, selectedNodesIds, wireDraft, selectedWireId, editingWireId, squareSelection)
    }

    // -------------------------------------------------------------------
    // Nodes and the selection

    /** `addNode`: a node of `kind` in the circuit, placed at `position`. */
    method AddNode(sim: SimStore, kind: NodeKind, position: Vec2)
      modifies this, sim
      ensures var (g, id) := AddNodeSpec(old(sim.Graph()), kind);
        sim.Graph() == g && State() == old(State()).(nodePositions := old(nodePositions)[id := position])
      ensures sim.currentTick == old(sim.currentTick)
    {
      var id := sim.AddNode(kind);
      nodePositions := nodePositions[id := position];
    }

    /** `moveNode`: the selection moves so that the dragged node lands on `newPos`. */
    method MoveNode(id: int, newPos: Vec2)
      modifies this
      ensures State() == old(State()).(nodePositions := MoveNodeSpec(old(nodePositions), old(selectedNodesIds), id, newPos))
    {
      var selected := selectedNodesIds;
      if id !in selected || id !in nodePositions {
        return;
      }
      var ref := nodePositions[id];
      var dx, dy := newPos.x - ref.x, newPos.y - ref.y;
      for i := 0 to |selected|
        invariant nodePositions == MoveAll(old(nodePositions), selected[..i], dx, dy)
        invariant State() == old(State()).(nodePositions := nodePositions)
      {
        assert selected[..i + 1][..i] == selected[..i];
        var sid := selected[i];
        if sid in nodePositions {
          var pos := nodePositions[sid];
          nodePositions := nodePositions[sid := Shifted(pos, dx, dy)];
        }
      }
      assert selected[..|selected|] == selected;
    }

    /** `setSelection`. */
    method SetSelection(ids: seq<int>)
      modifies this
      ensures State() == old(State()).(selectedNodesIds := ids)
    {
      selectedNodesIds := ids;
    }

    /** `addSelection`: the ids are appended as given, repeats included. */
    method AddSelection(ids: seq<int>)
      modifies this
      ensures State() == old(State()).(selectedNodesIds := old(selectedNodesIds) + ids)
    {
      selectedNodesIds := selectedNodesIds + ids;
    }

    /** `clearSelection`. */
    method ClearSelection()
      modifies this
      ensures State() == old(State()).(selectedNodesIds := [])
    {
      selectedNodesIds := [];
    }

    /** `toogleSelection`: `id` flips in or out of the selection, which loses its repeats. */
    method ToogleSelection(id: int)
      modifies this
      ensures State() == old(State()).(selectedNodesIds := ToggleSelection(old(selectedNodesIds), id))
    {
      var selected := Dedup(selectedNodesIds);
      if id in selected {
        selected := Remove(selected, id);
      } else {
        selected := selected + [id];
      }
      selectedNodesIds := selected;
    }

    // -------------------------------------------------------------------
    // Rectangle selection

    /** `startSquareSelection`: a rectangle of no extent at `start`. */
    method StartSquareSelection(start: Vec2, mods: Mods)
      modifies this
      ensures State() == old(State()).(squareSelection := Some(Square(mods, start, start, start)))
    {
      squareSelection := Some(Square(mods, start, start, start));
    }

    /** `updateSquareSelection`: nothing without a rectangle; otherwise its corners span the origin and the cursor. */
    method UpdateSquareSelection(current: Vec2)
      modifies this
      ensures old(squareSelection).None? ==> State() == old(State())
      ensures old(squareSelection).Some? ==>
        State() == old(State()).(squareSelection := Some(UpdateSquare(old(squareSelection).value, current)))
    {
      if squareSelection.None? {
        return;
      }
      var sq := squareSelection.value;
      var start := Vec2(if sq.origin.x <= current.x then sq.origin.x else current.x,
                        if sq.origin.y <= current.y then sq.origin.y else current.y);
      var end := Vec2(if sq.origin.x >= current.x then sq.origin.x else current.x,
                      if sq.origin.y >= current.y then sq.origin.y else current.y);
      squareSelection := Some(sq.(start := start, end := end));
    }

    /** `endSquareSelection`: the selection is combined with the nodes inside the rectangle, which goes away. */
    method EndSquareSelection()
      modifies this
      ensures old(squareSelection).None? ==> State() == old(State())
      ensures old(squareSelection).Some? ==>
        var sq := old(squareSelection).value;
        State() == old(State()).(
          selectedNodesIds := NewSelection(sq.mods, old(selectedNodesIds), Inside(old(nodePositions), sq)),
          squareSelection := None)
    {
      if squareSelection.None? {
        return;
      }
      var sq := squareSelection.value;
      var inside := Inside(nodePositions, sq);
      var newSelection: seq<int>;
      match sq.mods {
        case Shift =>
          newSelection := Dedup(selectedNodesIds + inside);
        case Ctrl =>
          var currentSet := Dedup(selectedNodesIds);
          for i := 0 to |inside|
            invariant currentSet == ToggleAll(Dedup(selectedNodesIds), inside[..i])
          {
            assert inside[..i + 1][..i] == inside[..i];
            var id := inside[i];
            if id in currentSet {
              currentSet := Remove(currentSet, id);
            } else {
              currentSet := currentSet + [id];
            }
          }
          assert inside[..|inside|] == inside;
          newSelection := currentSet;
        case Plain =>
          newSelection := inside;
      }
      selectedNodesIds := newSelection;
      squareSelection := None;
    }

    // -------------------------------------------------------------------
    // Copy, paste and delete

    /** `copySelection`: with a selection, the clipboard receives its nodes, their positions and the wires among them. */
    method CopySelection(sim: SimStore, clip: Clipboard)
      modifies clip
      ensures selectedNodesIds == [] ==> clip.slot == old(clip.slot)
      ensures selectedNodesIds != [] ==> clip.slot == Some(CopyData(sim.Graph(), nodePositions, selectedNodesIds))
    {
      var ids := selectedNodesIds;
      if |ids| == 0 {
        return;
      }
      var simNodes := sim.nodes;
      var nodes := seq(|ids|, i requires 0 <= i < |ids| => if ids[i] in simNodes then Some(simNodes[ids[i]]) else None);
      var positions := map id | id in ids :: if id in nodePositions then Some(nodePositions[id]) else None;
      var wires := InternalWires(sim.pins, sim.wires, SortedKeys(sim.wires.Keys), ids);
      clip.Set(Some(ClipboardData(nodes, positions, wires)));
    }

    /**
     * `pasteSelection` moving the copies by `offset`: without copied nodes
     * nothing happens. `ok` is false where the source throws while taking
     * the bounding box of the copied positions, because one of them is
     * missing; nothing has changed then. Otherwise every copied node is
     * added with its parameters, placed at its copied position plus the
     * offset, the copied wires are re-made between the copies, and the
     * copies become the selection. The circuit ends as `PasteNodes` then
     * `AddWires` say, up to the pin table the simulation steps of
     * `setNodeParam` rewrite, and the tick moves on once per copied
     * parameter. On a well-formed store those steps change pin values
     * only, so the wires re-made are the ones the pasted graph's own pins
     * call for.
     */
    method PasteSelection(sim: SimStore, clip: Clipboard, offset: Vec2) returns (ok: bool)
      modifies this, sim
      ensures ok <==> !(clip.slot.Some? && clip.slot.value.nodes != [] && Unplaced(clip.slot.value))
      ensures !ok || clip.slot.None? || clip.slot.value.nodes == [] ==>
        State() == old(State()) && sim.Graph() == old(sim.Graph()) && sim.currentTick == old(sim.currentTick)
      ensures ok && clip.slot.Some? && clip.slot.value.nodes != [] ==>
        var data, first := clip.slot.value, old(sim.nextId);
        var olds := Present(data.nodes);
        var placed := PasteNodes(old(sim.Graph()), olds);
        SameButPins(sim.Graph(), AddWires(placed, Requests(placed.nodes, sim.pins, IdMapOf(olds, first), data.wires, offset))) &&
        sim.currentTick == old(sim.currentTick) + ParamWrites(olds) &&
        State() == old(State()).(
          nodePositions := PastedPositions(old(nodePositions), olds, data.positions, first, offset),
          selectedNodesIds := Range(first, |olds|))
      ensures ok && clip.slot.Some? && clip.slot.value.nodes != [] && WellFormed(old(sim.Graph())) ==>
        var data, first := clip.slot.value, old(sim.nextId);
        var olds := Present(data.nodes);
        var placed := PasteNodes(old(sim.Graph()), olds);
        SameShape(placed.pins, sim.pins) &&
        SameButPins(sim.Graph(), AddWires(placed, Requests(placed.nodes, placed.pins, IdMapOf(olds, first), data.wires, offset)))
    {
      var clipboard := clip.Get();
      if clipboard.None? {
        return true;
      }
      var oldNodes, oldPositions, oldWires := clipboard.value.nodes, clipboard.value.positions, clipboard.value.wires;
      if |oldNodes| == 0 {
        return true;
      }
      if exists id | id in oldPositions :: oldPositions[id].None? {
        return false;
      }
      ghost var g0 := sim.Graph();
      var idMap, newNodeIds, positions := PasteNodesLoop(sim, oldNodes, oldPositions, offset, nodePositions);
      nodePositions := positions;
      ghost var g1 := sim.Graph();
      var freshNodes, freshPins := sim.nodes, sim.pins;
      PasteWiresLoop(sim, freshNodes, freshPins, idMap, oldWires, offset);
      AddWiresIgnoresPins(g1, PasteNodes(g0, Present(oldNodes)), Requests(freshNodes, freshPins, idMap, oldWires, offset));
      if WellFormed(g0) {
        RequestsSameShape(freshNodes, PasteNodes(g0, Present(oldNodes)).pins, freshPins, idMap, oldWires, offset);
      }
      selectedNodesIds := newNodeIds;
      ok := true;
    }

    /**
     * `duplicateSelection`: the selection is copied and pasted at once. With
     * no cursor position, the paste centres the copies 80 to the right of
     * and 80 below the copied ones, so every copy lands at that offset. A
     * selected id without a position makes the paste throw (`ok` false)
     * after the copy has been stored.
     */
    method DuplicateSelection(sim: SimStore, clip: Clipboard) returns (ok: bool)
      modifies this, sim, clip
      ensures old(selectedNodesIds) == [] ==> clip.slot == old(clip.slot)
      ensures old(selectedNodesIds) != [] ==>
        clip.slot == Some(CopyData(old(sim.Graph()), old(nodePositions), old(selectedNodesIds)))
      ensures ok <==> !(clip.slot.Some? && clip.slot.value.nodes != [] && Unplaced(clip.slot.value))
      ensures !ok || clip.slot.None? || clip.slot.value.nodes == [] ==>
        State() == old(State()) && sim.Graph() == old(sim.Graph()) && sim.currentTick == old(sim.currentTick)
      ensures ok && clip.slot.Some? && clip.slot.value.nodes != [] ==>
        var data, first, offset := clip.slot.value, old(sim.nextId), Vec2(80, 80);
        var olds := Present(data.nodes);
        var placed := PasteNodes(old(sim.Graph()), olds);
        SameButPins(sim.Graph(), AddWires(placed, Requests(placed.nodes, sim.pins, IdMapOf(olds, first), data.wires, offset))) &&
        sim.currentTick == old(sim.currentTick) + ParamWrites(olds) &&
        State() == old(State()).(
          nodePositions := PastedPositions(old(nodePositions), olds, data.positions, first, offset),
          selectedNodesIds := Range(first, |olds|))
      ensures ok && clip.slot.Some? && clip.slot.value.nodes != [] && WellFormed(old(sim.Graph())) ==>
        var data, first, offset := clip.slot.value, old(sim.nextId), Vec2(80, 80);
        var olds := Present(data.nodes);
        var placed := PasteNodes(old(sim.Graph()), olds);
        SameShape(placed.pins, sim.pins) &&
        SameButPins(sim.Graph(), AddWires(placed, Requests(placed.nodes, placed.pins, IdMapOf(olds, first), data.wires, offset)))
    {
      CopySelection(sim, clip);
      ok := PasteSelection(sim, clip, Vec2(80, 80));
    }

    /**
     * `deleteSelection`: with a selection, every wire touching a selected
     * node is disconnected, the nodes are removed and so are their
     * positions, and the selection empties. `ok` is false where the source
     * throws on a wire whose pins are missing; nothing has changed then.
     */
    method DeleteSelection(sim: SimStore) returns (ok: bool)
      modifies this, sim
      ensures var r := DeleteSelectionSpec(old(sim.Graph()), old(selectedNodesIds));
        ok == r.Some? && sim.Graph() == (if ok then r.value else old(sim.Graph()))
      ensures sim.currentTick == old(sim.currentTick)
      ensures !ok || old(selectedNodesIds) == [] ==> State() == old(State())
      ensures ok && old(selectedNodesIds) != [] ==>
        State() == old(State()).(
          nodePositions := Without(old(nodePositions), old(selectedNodesIds)),
          selectedNodesIds := [])
    {
      var ids := selectedNodesIds;
      if |ids| == 0 {
        return true;
      }
      var pins, wires := sim.pins, sim.wires;
      if exists k | k in wires :: DeleteThrowsOn(pins, wires[k], ids) {
        return false;
      }
      var wiresToRemove := SelectedWires(pins, wires, SortedKeys(wires.Keys), ids);
      DisconnectWires(sim, wiresToRemove);
      RemoveNodes(sim, ids);
      var newPositions := DropPositions(nodePositions, ids);
      nodePositions := newPositions;
      selectedNodesIds := [];
      ok := true;
    }

    // -------------------------------------------------------------------
    // The wire draft

    /** `startWire`: a draft from `fromPinId` with no anchors, its free end at `startPos`. */
    method StartWire(fromPinId: int, startPos: Vec2)
      modifies this
      ensures State() == old(State()).(wireDraft := Some(Types.WireDraft(fromPinId, [], startPos)))
    {
      wireDraft := Some(Types.WireDraft(fromPinId, [], startPos));
    }

    /** `addWireAnchor`. */
    method AddWireAnchor(pos: Vec2)
      modifies this
      ensures State() == old(State()).(wireDraft := AddDraftAnchor(old(wireDraft), pos))
    {
      if wireDraft.None? {
        return;
      }
      wireDraft := Some(wireDraft.value.(anchors := wireDraft.value.anchors + [pos]));
    }

    /** `updateWirePos`: the draft's free end follows the cursor; nothing without a draft. */
    method UpdateWirePos(pos: Vec2)
      modifies this
      ensures old(wireDraft).None? ==> State() == old(State())
      ensures old(wireDraft).Some? ==> State() == old(State()).(wireDraft := Some(old(wireDraft).value.(currentPos := pos)))
    {
      if wireDraft.None? {
        return;
      }
      wireDraft := Some(wireDraft.value.(currentPos := pos));
    }

    /** `removeLastAnchor`. */
    method RemoveLastAnchor()
      modifies this
      ensures State() == old(State()).(wireDraft := PopDraftAnchor(old(wireDraft)))
    {
      if wireDraft.None? {
        return;
      }
      if |wireDraft.value.anchors| == 0 {
        wireDraft := None;
        return;
      }
      var anchors := wireDraft.value.anchors;
      wireDraft := Some(wireDraft.value.(anchors := anchors[..|anchors| - 1]));
    }

    /** `completeWire`: the draft is kept, dropped, or turned into a wire, as `CompleteWireSpec` decides. */
    method CompleteWire(sim: SimStore, toPinId: int)
      modifies this, sim
      ensures var c := CompleteWireSpec(old(wireDraft), old(sim.pins), old(sim.wires), toPinId);
        State() == (if c == KeepDraft then old(State()) else old(State()).(wireDraft := None)) &&
        sim.Graph() == (if c.Connect? then AddWireSpec(old(sim.Graph()), c.from, c.to, c.anchors) else old(sim.Graph()))
      ensures sim.currentTick == old(sim.currentTick)
    {
      var draft := wireDraft;
      var pins, wires := sim.pins, sim.wires;
      if draft.None? {
        return;
      }
      if draft.value.fromPinId !in pins || toPinId !in pins {
        return;
      }
      var fromPin, toPin := pins[draft.value.fromPinId], pins[toPinId];
      if SameOwner(fromPin, toPin) {
        wireDraft := None;
        return;
      }
      var outputPin, inputPin;
      if IsOutput(fromPin) && IsInput(toPin) {
        outputPin, inputPin := fromPin, toPin;
      } else if IsInput(fromPin) && IsOutput(toPin) {
        outputPin, inputPin := toPin, fromPin;
      } else {
        wireDraft := None;
        return;
      }
      if HasWire(wires, outputPin.id, inputPin.id) {
        wireDraft := None;
        return;
      }
      var anchors := draft.value.anchors;
      sim.AddWire(outputPin.id, inputPin.id, if |anchors| > 0 then Some(anchors) else None);
      wireDraft := None;
    }

    /** `cancelWire`. */
    method CancelWire()
      modifies this
      ensures State() == old(State()).(wireDraft := None)
    {
      wireDraft := None;
    }

    // -------------------------------------------------------------------
    // Editing finished wires

    /** `selectWire`. */
    method SelectWire(wireId: Option<int>)
      modifies this
      ensures State() == old(State()).(selectedWireId := wireId)
    {
      selectedWireId := wireId;
    }

    /** `startEditingWire`: the wire is both edited and selected. */
    method StartEditingWire(wireId: int)
      modifies this
      ensures State() == old(State()).(editingWireId := Some(wireId), selectedWireId := Some(wireId))
    {
      editingWireId := Some(wireId);
      selectedWireId := Some(wireId);
    }

    /** `finishEditingWire`: the selected wire stays selected. */
    method FinishEditingWire()
      modifies this
      ensures State() == old(State()).(editingWireId := None)
    {
      editingWireId := None;
    }

    /** `addAnchorToWire`. */
    method AddAnchorToWire(sim: SimStore, wireId: int, anchorIndex: int, position: Vec2)
      modifies sim
      ensures sim.Graph() == old(sim.Graph()).(wires := AddAnchorToWireSpec(old(sim.wires), wireId, anchorIndex, position))
      ensures sim.currentTick == old(sim.currentTick)
    {
      if wireId !in sim.wires {
        return;
      }
      var wire := sim.wires[wireId];
      var anchors := if wire.anchors.Some? then wire.anchors.value else [];
      var k := SliceIndex(anchorIndex, |anchors|);
      var newAnchors := anchors[..k] + [position] + anchors[k..];
      sim.wires := sim.wires[wireId := wire.(anchors := Some(newAnchors))];
    }

    /** `moveWireAnchor`. */
    method MoveWireAnchor(sim: SimStore, wireId: int, anchorIndex: int, position: Vec2)
      modifies sim
      ensures sim.Graph() == old(sim.Graph()).(wires := MoveWireAnchorSpec(old(sim.wires), wireId, anchorIndex, position))
      ensures sim.currentTick == old(sim.currentTick)
    {
      if wireId !in sim.wires || sim.wires[wireId].anchors.None? {
        return;
      }
      var wire := sim.wires[wireId];
      var newAnchors := wire.anchors.value;
      if 0 <= anchorIndex < |newAnchors| {
        newAnchors := newAnchors[anchorIndex := position];
      } else if anchorIndex == |newAnchors| {
        newAnchors := newAnchors + [position];
      }
      sim.wires := sim.wires[wireId := wire.(anchors := Some(newAnchors))];
    }

    /** `removeWireAnchor`. */
    method RemoveWireAnchor(sim: SimStore, wireId: int, anchorIndex: int)
      modifies sim
      ensures sim.Graph() == old(sim.Graph()).(wires := RemoveWireAnchorSpec(old(sim.wires), wireId, anchorIndex))
      ensures sim.currentTick == old(sim.currentTick)
    {
      if wireId !in sim.wires || sim.wires[wireId].anchors.None? {
        return;
      }
      var wire := sim.wires[wireId];
      var newAnchors := RemoveAnchor(wire.anchors.value, anchorIndex);
      sim.wires := sim.wires[wireId := wire.(anchors := if |newAnchors| > 0 then Some(newAnchors) else None)];
    }
  }
}
