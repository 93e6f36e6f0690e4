/**
 * The project store: the project's name and the undo/redo history, a list of
 * snapshots of the circuit and the node positions with an index to the
 * current one. Pushing truncates everything after the index, appends, and
 * drops the oldest snapshot when the list would exceed its cap.
 */
module ProjectStore {
  import opened Types
  import opened WireEdit
  import opened SimStore
  import opened UIStore

  /** `maxHistorySize`. */
  const MaxHistorySize := 50

  /** The history as a value: the snapshots and the index of the current one. */
  datatype History = History(entries: seq<HistoryEntry>, index: int)

  /** The shape every reachable history has: within the cap, the index on an entry, or -1 exactly when it is empty. */
  predicate ValidHistory(h: History) {
    |h.entries| <= MaxHistorySize && -1 <= h.index < |h.entries| && (h.index == -1 <==> h.entries == [])
  }

  /** `pushHistory` on the history: `slice(0, index + 1)`, `push`, then `shift` when over the cap. */
  function Push(h: History, entry: HistoryEntry): (r: History)
    ensures |r.entries| >= 1 && r.entries[|r.entries| - 1] == entry && r.index == |r.entries| - 1
  {
    var kept := h.entries[..SliceIndex(h.index + 1, |h.entries|)] + [entry];
    var entries := if |kept| > MaxHistorySize then kept[1..] else kept;
    History(entries, |entries| - 1)
  }

  /** `undo` on the history: one entry back, unless already at the first one (or before it). */
  function UndoHistory(h: History): History {
    if h.index <= 0 then h else h.(index := h.index - 1)
  }

  /** `redo` on the history: one entry forward, unless already at the newest one. */
  function RedoHistory(h: History): History {
    if h.index >= |h.entries| - 1 then h else h.(index := h.index + 1)
  }

  predicate CanUndoHistory(h: History) {
    h.index > 0
  }

  predicate CanRedoHistory(h: History) {
    h.index < |h.entries| - 1
  }

  /**
   * A push from a valid history keeps the cap: the entries up to and
   * including the current one are kept, the new one is appended and becomes
   * current, and when that makes 51 the oldest is dropped. Nothing is left
   * to redo.
   */
  lemma PushKeepsPrefix(h: History, entry: HistoryEntry)
    requires ValidHistory(h)
    ensures var r, k := Push(h, entry), h.index + 1;
      ValidHistory(r) && !CanRedoHistory(r) &&
      |r.entries| == (if k + 1 > MaxHistorySize then MaxHistorySize else k + 1) &&
      r.entries[..|r.entries| - 1] == h.entries[k + 1 - |r.entries|..k]
  {
    var k := h.index + 1;
    var kept := h.entries[..k] + [entry];
    assert kept[..k] == h.entries[..k];
    if |kept| > MaxHistorySize {
      assert kept[1..][..|kept| - 2] == h.entries[1..k];
    }
  }

  /** Undo and redo keep a history valid and never change its entries. */
  lemma UndoRedoValid(h: History)
    requires ValidHistory(h)
    ensures ValidHistory(UndoHistory(h)) && UndoHistory(h).entries == h.entries
    ensures ValidHistory(RedoHistory(h)) && RedoHistory(h).entries == h.entries
  {
  }

  /**
   * Undo acts exactly when `canUndo` holds, redo exactly when `canRedo`
   * holds; a redo right after an undo (and an undo right after a redo) gets
   * back to where it started.
   */
  lemma UndoRedoInverse(h: History)
    requires ValidHistory(h)
    ensures UndoHistory(h) != h <==> CanUndoHistory(h)
    ensures RedoHistory(h) != h <==> CanRedoHistory(h)
    ensures CanUndoHistory(h) ==> CanRedoHistory(UndoHistory(h)) && RedoHistory(UndoHistory(h)) == h
    ensures CanRedoHistory(h) ==> CanUndoHistory(RedoHistory(h)) && UndoHistory(RedoHistory(h)) == h
  {
  }

  /** The circuit a loaded project describes. */
  function ProjectGraph(data: ProjectState): Graph {
    Graph(data.nodes, data.pins, data.wires, data.nextId, data.nextPinId, data.nextWireId)
  }

  class ProjectStore {
    var projectName: string
    var history: seq<HistoryEntry>
    var historyIndex: int

    /** An untitled project with an empty history and the index before its start. */
    constructor()
      ensures projectName == "Untitled Project" && Hist() == History([], -1) && Valid()
    {
      projectName := "Untitled Project";
      history := [];
      historyIndex := -1;
    }

    function Hist(): History
      reads this
    {
      History(history, historyIndex)
    }

    predicate Valid()
      reads this
    {
      ValidHistory(Hist())
    }

    /** `setProjectName`. */
    method SetProjectName(name: string)
      modifies this
      ensures projectName == name && Hist() == old(Hist())
    {
      projectName := name;
    }

    /** `pushHistory`: a snapshot of the circuit and the positions becomes the newest, current entry. */
    method PushHistory(sim: SimStore, ui: UIStore)
      modifies this
      ensures Hist() == Push(old(Hist()), HistoryEntry(sim.Graph(), ui.nodePositions))
      ensures old(Valid()) ==> Valid() && !CanRedo()
      ensures projectName == old(projectName)
    {
      var entry := HistoryEntry(sim.Graph(), ui.nodePositions);
      ghost var before := Hist();
      var newHistory := history[..SliceIndex(historyIndex + 1, |history|)];
      newHistory := newHistory + [entry];
      if |newHistory| > MaxHistorySize {
        newHistory := newHistory[1..];
      }
      history := newHistory;
      historyIndex := |newHistory| - 1;
      if ValidHistory(before) {
        PushKeepsPrefix(before, entry);
      }
    }

    /** `undo`: with an earlier entry, the index moves back and that entry's circuit and positions are restored. */
    method Undo(sim: SimStore, ui: UIStore)
      requires Valid()
      modifies this, sim, ui
      ensures Hist() == UndoHistory(old(Hist())) && Valid() && projectName == old(projectName)
      ensures !old(CanUndo()) ==> sim.Graph() == old(sim.Graph()) && ui.State() == old(ui.State())
      ensures old(CanUndo()) ==>
        var entry := history[historyIndex];
        sim.Graph() == entry.sim && ui.State() == old(ui.State()).(nodePositions := entry.nodePositions)
      ensures sim.currentTick == old(sim.currentTick)
    {
      if historyIndex <= 0 {
        return;
      }
      var newIndex := historyIndex - 1;
      var entry := history[newIndex];
      sim.SetGraph(entry.sim);
      ui.nodePositions := entry.nodePositions;
      historyIndex := newIndex;
    }

    /** `redo`: with a later entry, the index moves forward and that entry's circuit and positions are restored. */
    method Redo(sim: SimStore, ui: UIStore)
      requires Valid()
      modifies this, sim, ui
      ensures Hist() == RedoHistory(old(Hist())) && Valid() && projectName == old(projectName)
      ensures !old(CanRedo()) ==> sim.Graph() == old(sim.Graph()) && ui.State() == old(ui.State())
      ensures old(CanRedo()) ==>
        var entry := history[historyIndex];
        sim.Graph() == entry.sim && ui.State() == old(ui.State()).(nodePositions := entry.nodePositions)
      ensures sim.currentTick == old(sim.currentTick)
    {
      if historyIndex >= |history| - 1 {
        return;
      }
      var newIndex := historyIndex + 1;
      var entry := history[newIndex];
      sim.SetGraph(entry.sim);
      ui.nodePositions := entry.nodePositions;
      historyIndex := newIndex;
    }

    /** `canUndo`. */
    predicate CanUndo()
      reads this
    {
      CanUndoHistory(Hist())
    }

    /** `canRedo`. */
    predicate CanRedo()
      reads this
    {
      CanRedoHistory(Hist())
    }

    /**
     * `loadProject` once the file is parsed: a version other than "1.0" is
     * rejected with nothing changed (`ok` is false where the source throws
     * and reports); otherwise the name, the circuit and the positions are
     * taken from the project, the selection, the draft and the wire being
     * edited are cleared, and the history restarts with that one snapshot.
     */
    method LoadProject(data: ProjectState, sim: SimStore, ui: UIStore) returns (ok: bool)
      modifies this, sim, ui
      ensures ok <==> data.version == "1.0"
      ensures !ok ==> (projectName == old(projectName) && Hist() == old(Hist()) &&
        sim.Graph() == old(sim.Graph()) && ui.State() == old(ui.State()))
      ensures ok ==>
        projectName == data.projectName && sim.Graph() == ProjectGraph(data) &&
        ui.State() == old(ui.State()).(nodePositions := data.nodePositions, selectedNodesIds := [],
          selectedWireId := None, editingWireId := None, wireDraft := None) &&
        Hist() == History([HistoryEntry(ProjectGraph(data), data.nodePositions)], 0) && Valid()
      ensures sim.currentTick == old(sim.currentTick)
    {
      if data.version != "1.0" {
        return false;
      }
      projectName := data.projectName;
      history := [];
      historyIndex := -1;
      sim.SetGraph(ProjectGraph(data));
      ui.nodePositions := data.nodePositions;
      ui.selectedNodesIds := [];
      ui.selectedWireId := None;
      ui.editingWireId := None;
      ui.wireDraft := None;
      PushHistory(sim, ui);
      ok := true;
    }
  }
}
