/**
 * The editor's copy buffer: one slot that holds the last copied selection
 * (nodes, their positions and the wires between them) or nothing.
 */
module EditorClipboard {
  import opened Types

  /**
   * A copied selection. A selected id with no node behind it is copied as
   * `None`, as looking it up in the node map gives nothing; likewise a
   * selected id with no position keeps its entry in `positions`, as `None`.
   */
  datatype ClipboardData = ClipboardData(
    nodes: seq<Option<Node>>,
    positions: map<int, Option<Vec2>>,
    wires: seq<Wire>)

  /** The module-level slot; `None` is the empty clipboard. */
  class Clipboard {
    var slot: Option<ClipboardData>

    /** The clipboard starts empty. */
    constructor()
      ensures slot == None
    {
      slot := None;
    }

    /** `setClipboard`: overwrites whatever was stored. */
    method Set(data: Option<ClipboardData>)
      modifies this
      ensures slot == data
    {
      slot := data;
    }

    /** `getClipboard`: the stored value, unchanged. */
    method Get() returns (data: Option<ClipboardData>)
      ensures data == slot
    {
      data := slot;
    }

    /** `clearClipboard`: empties the slot. */
    method Clear()
      modifies this
      ensures slot == None
    {
      slot := None;
    }
  }

  /** A read sees the last value written, whatever was there before, and a clear empties it. */
  method SetGetClear(clip: Clipboard, first: Option<ClipboardData>, second: Option<ClipboardData>)
    returns (seen: Option<ClipboardData>, afterClear: Option<ClipboardData>)
    modifies clip
    ensures seen == second && afterClear == None
  {
    clip.Set(first);
    clip.Set(second);
    seen := clip.Get();
    clip.Clear();
    afterClear := clip.Get();
  }
}
