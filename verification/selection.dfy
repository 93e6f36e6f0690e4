/**
 * The node selection as the editor keeps it: a list of node ids. The
 * operations that go through a JavaScript `Set` keep its insertion order:
 * an id stays where it was first added, a deleted id drops out, and an added
 * one goes to the end.
 */
module Selection {
  import opened Types
  import opened Keys

  // ---------------------------------------------------------------------
  // Insertion-ordered set operations on id lists

  /** `Array.from(new Set(s))`: every id once, at its first occurrence. */
  function Dedup(s: seq<int>): (r: seq<int>)
    ensures NoDups(r) && |r| <= |s|
    ensures forall x :: x in r <==> x in s
    decreases |s|
  {
    if s == [] then []
    else
      var d := Dedup(s[..|s| - 1]);
      assert s == s[..|s| - 1] + [s[|s| - 1]];
      if s[|s| - 1] in d then d else d + [s[|s| - 1]]
  }

  /** An id list with no repeats is its own set. */
  lemma {:induction false} DedupKeepsDistinct(s: seq<int>)
    requires NoDups(s)
    ensures Dedup(s) == s
    decreases |s|
  {
    if s != [] {
      var init := s[..|s| - 1];
      DedupKeepsDistinct(init);
      assert s[|s| - 1] !in init;
      assert s == init + [s[|s| - 1]];
    }
  }

  /** `Set.delete` followed by `Array.from`: the other ids, in their order. */
  function Remove(s: seq<int>, x: int): (r: seq<int>)
    ensures forall y :: y in r <==> y in s && y != x
    ensures NoDups(s) ==> NoDups(r)
    decreases |s|
  {
    if s == [] then []
    else
      var rest := Remove(s[..|s| - 1], x);
      assert s == s[..|s| - 1] + [s[|s| - 1]];
      assert NoDups(s) ==> s[|s| - 1] !in s[..|s| - 1];
      if s[|s| - 1] == x then rest else rest + [s[|s| - 1]]
  }

  /** One toggle on an insertion-ordered set: delete the id if present, otherwise add it at the end. */
  function Toggle(s: seq<int>, x: int): seq<int> {
    if x in s then Remove(s, x) else s + [x]
  }

  /** `toogleSelection`: the selection as a set, with `id` flipped; no other id changes. */
  function ToggleSelection(sel: seq<int>, id: int): (r: seq<int>)
    ensures NoDups(r)
    ensures forall y :: y in r <==> (y in sel) != (y == id)
  {
    Toggle(Dedup(sel), id)
  }

  /** Every id of `ids` toggled in turn. */
  function ToggleAll(s: seq<int>, ids: seq<int>): seq<int>
    decreases |ids|
  {
    if ids == [] then s else Toggle(ToggleAll(s, ids[..|ids| - 1]), ids[|ids| - 1])
  }

  /** Toggling a list of distinct ids flips exactly those ids and keeps the set repeat-free. */
  lemma {:induction false} ToggleAllFlips(s: seq<int>, ids: seq<int>)
    requires NoDups(s) && NoDups(ids)
    ensures NoDups(ToggleAll(s, ids))
    ensures forall y :: y in ToggleAll(s, ids) <==> (y in s) != (y in ids)
    decreases |ids|
  {
    if ids != [] {
      var init := ids[..|ids| - 1];
      ToggleAllFlips(s, init);
      assert ids == init + [ids[|ids| - 1]];
    }
  }

  // ---------------------------------------------------------------------
  // Rectangle selection

  /** The modifier held when the rectangle was started: none, ctrl or shift. */
  datatype Mods = Plain | Ctrl | Shift

  /** A rectangle being dragged: where it started, and its current corners. */
  datatype Square = Square(mods: Mods, origin: Vec2, start: Vec2, end: Vec2)

  /** `updateSquareSelection`: the corners become the low and high ends of the origin and the cursor on each axis. */
  function UpdateSquare(sq: Square, current: Vec2): (r: Square)
    ensures r.mods == sq.mods && r.origin == sq.origin
    ensures r.start.x <= r.end.x && r.start.y <= r.end.y
    ensures {r.start.x, r.end.x} == {sq.origin.x, current.x}
    ensures {r.start.y, r.end.y} == {sq.origin.y, current.y}
  {
    var start := Vec2(if sq.origin.x <= current.x then sq.origin.x else current.x,
                      if sq.origin.y <= current.y then sq.origin.y else current.y);
    var end := Vec2(if sq.origin.x >= current.x then sq.origin.x else current.x,
                    if sq.origin.y >= current.y then sq.origin.y else current.y);
    sq.(start := start, end := end)
  }

  /** A position inside the closed rectangle from `start` to `end`. */
  predicate InRect(p: Vec2, start: Vec2, end: Vec2) {
    start.x <= p.x <= end.x && start.y <= p.y <= end.y
  }

  /** The ids among `keys`, in order, whose position is inside the rectangle. */
  function InsideOf(positions: map<int, Vec2>, keys: seq<int>, start: Vec2, end: Vec2): (r: seq<int>)
    requires forall k :: k in keys ==> k in positions
    ensures forall id :: id in r <==> id in keys && InRect(positions[id], start, end)
    ensures NoDups(keys) ==> NoDups(r)
    ensures Increasing(keys) ==> Increasing(r)
    decreases |keys|
  {
    if keys == [] then []
    else
      var k := keys[|keys| - 1];
      var rest := InsideOf(positions, keys[..|keys| - 1], start, end);
      assert keys == keys[..|keys| - 1] + [k];
      assert Increasing(keys) ==> forall i :: 0 <= i < |rest| ==> rest[i] < k by {
        if Increasing(keys) {
          forall i | 0 <= i < |rest| ensures rest[i] < k {
            assert rest[i] in keys[..|keys| - 1];
          }
        }
      }
      if InRect(positions[k], start, end) then rest + [k] else rest
  }

  /** The ids whose node position lies in the rectangle, in ascending id order. */
  function Inside(positions: map<int, Vec2>, sq: Square): (r: seq<int>)
    ensures NoDups(r)
    ensures Increasing(r)
    ensures forall id :: id in r <==> id in positions && InRect(positions[id], sq.start, sq.end)
  {
    var keys := SortedKeys(positions.Keys);
    SortedKeysIncreasing(positions.Keys);
    IncreasingNoDups(keys);
    InsideOf(positions, keys, sq.start, sq.end)
  }

  /** `endSquareSelection`'s new selection: shift adds without repeats, ctrl toggles each id inside, none replaces. */
  function NewSelection(mods: Mods, sel: seq<int>, inside: seq<int>): seq<int> {
    match mods
    case Shift => Dedup(sel + inside)
    case Ctrl => ToggleAll(Dedup(sel), inside)
    case Plain => inside
  }

  /**
   * What each mode selects: shift the union, ctrl the symmetric difference,
   * none exactly the ids inside; never an id twice.
   */
  lemma NewSelectionMembers(mods: Mods, sel: seq<int>, inside: seq<int>)
    requires NoDups(inside)
    ensures NoDups(NewSelection(mods, sel, inside))
    ensures mods == Shift ==> forall y :: y in NewSelection(mods, sel, inside) <==> y in sel || y in inside
    ensures mods == Ctrl ==> forall y :: y in NewSelection(mods, sel, inside) <==> (y in sel) != (y in inside)
    ensures mods == Plain ==> NewSelection(mods, sel, inside) == inside
  {
    if mods == Ctrl {
      ToggleAllFlips(Dedup(sel), inside);
    }
  }

  // ---------------------------------------------------------------------
  // Dragging the selection

  function Shifted(p: Vec2, dx: int, dy: int): Vec2 {
    Vec2(p.x + dx, p.y + dy)
  }

  /** `moveNode`'s loop: every listed id that has a position moves by the delta, once per time it is listed. */
  function MoveAll(positions: map<int, Vec2>, sel: seq<int>, dx: int, dy: int): map<int, Vec2>
    decreases |sel|
  {
    if sel == [] then positions
    else
      var m := MoveAll(positions, sel[..|sel| - 1], dx, dy);
      var sid := sel[|sel| - 1];
      if sid in m then m[sid := Shifted(m[sid], dx, dy)] else m
  }

  /** `moveNode`: nothing unless the dragged id is selected and placed; then the selection moves by the drag's delta. */
  function MoveNodeSpec(positions: map<int, Vec2>, sel: seq<int>, id: int, newPos: Vec2): map<int, Vec2> {
    if id !in sel || id !in positions then positions
    else MoveAll(positions, sel, newPos.x - positions[id].x, newPos.y - positions[id].y)
  }

  /** A placed node moves by the delta as many times as it is listed; the set of placed nodes is unchanged. */
  lemma {:induction false} MoveAllShifts(positions: map<int, Vec2>, sel: seq<int>, dx: int, dy: int, k: int)
    ensures var m := MoveAll(positions, sel, dx, dy);
      (k in m <==> k in positions) &&
      (k in positions ==> m[k] == Vec2(positions[k].x + multiset(sel)[k] * dx, positions[k].y + multiset(sel)[k] * dy))
    decreases |sel|
  {
    if sel != [] {
      var init := sel[..|sel| - 1];
      MoveAllShifts(positions, init, dx, dy, k);
      assert sel == init + [sel[|sel| - 1]];
      assert multiset(sel) == multiset(init) + multiset{sel[|sel| - 1]};
    }
  }

  lemma {:induction false} DistinctCount(s: seq<int>, k: int)
    requires NoDups(s)
    ensures multiset(s)[k] == if k in s then 1 else 0
    decreases |s|
  {
    if s != [] {
      var init := s[..|s| - 1];
      DistinctCount(init, k);
      assert s == init + [s[|s| - 1]];
      assert multiset(s) == multiset(init) + multiset{s[|s| - 1]};
    }
  }

  /**
   * With a repeat-free selection, dragging a selected, placed node puts it
   * exactly on the cursor position and moves every other selected node by the
   * same delta; unselected nodes stay, and no position appears or vanishes.
   */
  lemma MoveNodeLands(positions: map<int, Vec2>, sel: seq<int>, id: int, newPos: Vec2, k: int)
    requires NoDups(sel)
    ensures var m := MoveNodeSpec(positions, sel, id, newPos);
      (k in m <==> k in positions) &&
      (id in sel && id in positions ==> id in m && m[id] == newPos) &&
      (id in sel && id in positions && k in sel && k in positions ==>
        m[k] == Shifted(positions[k], newPos.x - positions[id].x, newPos.y - positions[id].y)) &&
      (k in positions && (k !in sel || id !in sel || id !in positions) ==> m[k] == positions[k])
  {
    if id in sel && id in positions {
      var dx, dy := newPos.x - positions[id].x, newPos.y - positions[id].y;
      MoveAllShifts(positions, sel, dx, dy, k);
      MoveAllShifts(positions, sel, dx, dy, id);
      DistinctCount(sel, k);
      DistinctCount(sel, id);
    }
  }
}
