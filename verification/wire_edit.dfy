/**
 * Editing wires by hand: the draft that follows the cursor while a wire is
 * drawn, the rules that turn a draft into a wire, and the edits of a
 * finished wire's anchor list.
 */
module WireEdit {
  import opened Types

  // ---------------------------------------------------------------------
  // The draft

  /** `addWireAnchor`: with a draft, the point goes to the end of its anchors. */
  function AddDraftAnchor(d: Option<WireDraft>, pos: Vec2): (r: Option<WireDraft>)
    ensures r.Some? <==> d.Some?
    ensures r.Some? ==> |r.value.anchors| == |d.value.anchors| + 1 && r.value.anchors[|d.value.anchors|] == pos
  {
    if d.None? then d else Some(d.value.(anchors := d.value.anchors + [pos]))
  }

  /** `removeLastAnchor`: drops the newest anchor, or cancels a draft that has none. */
  function PopDraftAnchor(d: Option<WireDraft>): (r: Option<WireDraft>)
    ensures r.None? <==> d.None? || d.value.anchors == []
    ensures r.Some? ==> (r.value.fromPinId == d.value.fromPinId && r.value.currentPos == d.value.currentPos &&
      r.value.anchors + [d.value.anchors[|d.value.anchors| - 1]] == d.value.anchors)
  {
    if d.None? then d
    else if d.value.anchors == [] then None
    else Some(d.value.(anchors := d.value.anchors[..|d.value.anchors| - 1]))
  }

  /** Removing the last anchor undoes placing it. */
  lemma PopUndoesAdd(d: Option<WireDraft>, pos: Vec2)
    ensures PopDraftAnchor(AddDraftAnchor(d, pos)) == d
  {
    if d.Some? {
      assert (d.value.anchors + [pos])[..|d.value.anchors|] == d.value.anchors;
    }
  }

  // ---------------------------------------------------------------------
  // Completing the draft

  /** How `completeWire` ends: the draft stays, the draft is dropped, or a wire is added and the draft dropped. */
  datatype Completion = KeepDraft | DropDraft | Connect(from: int, to: int, anchors: Option<seq<Vec2>>)

  /**
   * The owner comparison `fromPin.nodeId === toPin.nodeId`: an entry that
   * carries only a value has no owner, and two missing owners compare equal.
   */
  predicate SameOwner(a: Pin, b: Pin) {
    if a.Pin? && b.Pin? then a.nodeId == b.nodeId else a.Partial? && b.Partial?
  }

  predicate IsOutput(p: Pin) {
    p.Pin? && p.dir == Output
  }

  predicate IsInput(p: Pin) {
    p.Pin? && p.dir == Input
  }

  /** Some stored wire already runs from `from` to `to`. */
  predicate HasWire(wires: map<int, Wire>, from: int, to: int) {
    exists k :: k in wires && wires[k].from == from && wires[k].to == to
  }

  /** `completeWire(toPinId)` as a decision on the draft, the pin table and the wires. */
  function CompleteWireSpec(draft: Option<WireDraft>, pins: PinTable, wires: map<int, Wire>, toPinId: int): Completion {
    if draft.None? then KeepDraft
    else if draft.value.fromPinId !in pins || toPinId !in pins then KeepDraft
    else
      var fromPin, toPin := pins[draft.value.fromPinId], pins[toPinId];
      if SameOwner(fromPin, toPin) then DropDraft
      else if !((IsOutput(fromPin) && IsInput(toPin)) || (IsInput(fromPin) && IsOutput(toPin))) then DropDraft
      else
        var outputPin := if IsOutput(fromPin) then fromPin else toPin;
        var inputPin := if IsOutput(fromPin) then toPin else fromPin;
        if HasWire(wires, outputPin.id, inputPin.id) then DropDraft
        else
          var anchors := draft.value.anchors;
          Connect(outputPin.id, inputPin.id, if |anchors| > 0 then Some(anchors) else None)
  }

  /**
   * A wire is made exactly when there is a draft, both pins exist, they are
   * real pins of different nodes with opposite directions, and that
   * output-to-input pair is not wired yet; it then always runs from the
   * output pin to the input pin, whichever was clicked first, and carries the
   * draft's anchors if there are any. The draft is kept only when there is
   * none or a pin is missing.
   */
  lemma CompleteWireRules(draft: Option<WireDraft>, pins: PinTable, wires: map<int, Wire>, toPinId: int)
    ensures var c := CompleteWireSpec(draft, pins, wires, toPinId);
      (c == KeepDraft <==> draft.None? || draft.value.fromPinId !in pins || toPinId !in pins) &&
      (c.Connect? <==>
        draft.Some? && draft.value.fromPinId in pins && toPinId in pins &&
        (var f, t := pins[draft.value.fromPinId], pins[toPinId];
         f.Pin? && t.Pin? && f.nodeId != t.nodeId &&
         ((IsOutput(f) && IsInput(t) && !HasWire(wires, f.id, t.id)) ||
          (IsInput(f) && IsOutput(t) && !HasWire(wires, t.id, f.id))))) &&
      (c.Connect? ==>
        var f, t := pins[draft.value.fromPinId], pins[toPinId];
        ((c.from, c.to) == (f.id, t.id) || (c.from, c.to) == (t.id, f.id)) &&
        (c.anchors.Some? <==> draft.value.anchors != []) &&
        (c.anchors.Some? ==> c.anchors.value == draft.value.anchors))
  {
  }

  /** A connection always goes from an output pin to an input pin. */
  lemma ConnectOutputToInput(draft: Option<WireDraft>, pins: PinTable, wires: map<int, Wire>, toPinId: int)
    requires CompleteWireSpec(draft, pins, wires, toPinId).Connect?
    ensures var c := CompleteWireSpec(draft, pins, wires, toPinId);
      var f, t := pins[draft.value.fromPinId], pins[toPinId];
      (IsOutput(f) && IsInput(t) && c.from == f.id && c.to == t.id) ||
      (IsOutput(t) && IsInput(f) && c.from == t.id && c.to == f.id)
  {
  }

  // ---------------------------------------------------------------------
  // Anchor lists of finished wires

  /**
   * The position a JavaScript `slice` argument `i` names in a list of length
   * `len`: a negative index counts back from the end, and the result is
   * clamped to the list.
   */
  function SliceIndex(i: int, len: nat): (k: nat)
    ensures k <= len
    ensures 0 <= i <= len ==> k == i
    ensures i < 0 && len + i >= 0 ==> k == len + i
  {
    if i < 0 then (if len + i < 0 then 0 else len + i)
    else if i > len then len
    else i
  }

  /** `[...a.slice(0, i), pos, ...a.slice(i)]`: `pos` lands at the sliced position and everything else keeps its order. */
  function InsertAnchor(a: seq<Vec2>, i: int, pos: Vec2): (r: seq<Vec2>)
    ensures var k := SliceIndex(i, |a|);
      |r| == |a| + 1 && r[k] == pos && r[..k] == a[..k] && r[k + 1..] == a[k..]
  {
    var k := SliceIndex(i, |a|);
    var r := a[..k] + [pos] + a[k..];
    assert r[..k] == a[..k] && r[k + 1..] == a[k..];
    r
  }

  /** `newAnchors[i] = pos` on a copy: an index in the list is replaced; one just past it appends. */
  function ReplaceAnchor(a: seq<Vec2>, i: int, pos: Vec2): (r: seq<Vec2>)
    ensures 0 <= i < |a| ==> |r| == |a| && r[i] == pos && forall j :: 0 <= j < |a| && j != i ==> r[j] == a[j]
    ensures i == |a| ==> r == a + [pos]
    ensures (i < 0 || i > |a|) ==> r == a
  {
    if 0 <= i < |a| then a[i := pos]
    else if i == |a| then a + [pos]
    else a
  }

  /** `a.filter((_, j) => j !== i)`: the entry at index `i` goes, if there is one. */
  function RemoveAnchor(a: seq<Vec2>, i: int): (r: seq<Vec2>)
    ensures 0 <= i < |a| ==> (|r| == |a| - 1 &&
      (forall j :: 0 <= j < i ==> r[j] == a[j]) && (forall j :: i <= j < |r| ==> r[j] == a[j + 1]))
    ensures !(0 <= i < |a|) ==> r == a
  {
    if 0 <= i < |a| then a[..i] + a[i + 1..] else a
  }

  /** Removing the anchor just inserted gives back the original list. */
  lemma RemoveUndoesInsert(a: seq<Vec2>, i: int, pos: Vec2)
    ensures RemoveAnchor(InsertAnchor(a, i, pos), SliceIndex(i, |a|)) == a
  {
    var k := SliceIndex(i, |a|);
    var r := InsertAnchor(a, i, pos);
    assert r[..k] + r[k + 1..] == a;
  }

  /** `addAnchorToWire`: a missing wire is left alone; otherwise the point is inserted into its anchors (none counting as empty). */
  function AddAnchorToWireSpec(wires: map<int, Wire>, wireId: int, i: int, pos: Vec2): map<int, Wire> {
    if wireId !in wires then wires
    else
      var w := wires[wireId];
      var anchors := if w.anchors.Some? then w.anchors.value else [];
      wires[wireId := w.(anchors := Some(InsertAnchor(anchors, i, pos)))]
  }

  /** `moveWireAnchor`: a missing wire or one without an anchor list is left alone. */
  function MoveWireAnchorSpec(wires: map<int, Wire>, wireId: int, i: int, pos: Vec2): map<int, Wire> {
    if wireId !in wires || wires[wireId].anchors.None? then wires
    else
      var w := wires[wireId];
      wires[wireId := w.(anchors := Some(ReplaceAnchor(w.anchors.value, i, pos)))]
  }

  /** `removeWireAnchor`: as above; a list left empty is dropped altogether. */
  function RemoveWireAnchorSpec(wires: map<int, Wire>, wireId: int, i: int): map<int, Wire> {
    if wireId !in wires || wires[wireId].anchors.None? then wires
    else
      var w := wires[wireId];
      var rest := RemoveAnchor(w.anchors.value, i);
      wires[wireId := w.(anchors := if |rest| > 0 then Some(rest) else None)]
  }

  /**
   * The three anchor edits touch only the anchors of the named wire: the same
   * wire ids exist afterwards, every other wire is unchanged, and the edited
   * wire keeps its id and its two pins.
   */
  lemma AnchorEditsFrame(wires: map<int, Wire>, wireId: int, i: int, pos: Vec2, k: int)
    ensures var a, m, r := AddAnchorToWireSpec(wires, wireId, i, pos),
      MoveWireAnchorSpec(wires, wireId, i, pos), RemoveWireAnchorSpec(wires, wireId, i);
      a.Keys == wires.Keys && m.Keys == wires.Keys && r.Keys == wires.Keys &&
      (k in wires && k != wireId ==> a[k] == wires[k] && m[k] == wires[k] && r[k] == wires[k]) &&
      (k in wires ==> a[k].(anchors := None) == wires[k].(anchors := None) &&
                      m[k].(anchors := None) == wires[k].(anchors := None) &&
                      r[k].(anchors := None) == wires[k].(anchors := None))
  {
  }

  /** Inserting always grows the wire's anchor list by one, starting from an empty one when it had none. */
  lemma AddAnchorGrows(wires: map<int, Wire>, wireId: int, i: int, pos: Vec2)
    requires wireId in wires
    ensures var w, a := wires[wireId], AddAnchorToWireSpec(wires, wireId, i, pos)[wireId];
      a.anchors.Some? &&
      |a.anchors.value| == (if w.anchors.Some? then |w.anchors.value| else 0) + 1 &&
      pos in a.anchors.value
  {
  }

  /** Removing the only anchor leaves the wire with no anchor list at all. */
  lemma RemoveLastWireAnchor(wires: map<int, Wire>, wireId: int, p: Vec2)
    requires wireId in wires && wires[wireId].anchors == Some([p])
    ensures RemoveWireAnchorSpec(wires, wireId, 0)[wireId].anchors == None
  {
  }
}
