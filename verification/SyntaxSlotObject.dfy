/** The syntax slot as the object the source updates field by field.  Each
method is proved to take the slot's value to the value that the function of
the same name in `SyntaxSlots` gives, and to keep the slot aligned with the
versions of its document. */
module SyntaxSlotObject {
  import opened Prelude
  import opened ChangeSets
  import S = SyntaxSlots

  class SyntaxSlot {
    var full: Option<S.InstalledTree>
    var memory: seq<S.Snapshot>
    var cache: S.ViewportCache
    var dirty: bool
    var changeId: nat
    var nextTreeId: nat
    var pending: Option<S.Pending>
    var bootstrapAttempted: bool
    ghost var history: seq<S.Text>

    ghost predicate Valid()
      reads this
    {
      S.SlotAligned(history, Value())
    }

    function Value(): S.Slot
      reads this
    {
      S.Slot(full, memory, cache, dirty, changeId, nextTreeId, pending, bootstrapAttempted)
    }

    constructor (ghost text: S.Text)
      ensures Value() == S.EMPTY_SLOT && history == [text] && Valid()
    {
      history := [text];
      full, memory, cache, dirty := None, [], S.EMPTY_CACHE, false;
      changeId, nextTreeId, pending, bootstrapAttempted := 0, 0, None, false;
    }

    method AllocTreeId() returns (id: nat)
      modifies this`nextTreeId
      ensures id == old(nextTreeId) && Value() == S.BumpTreeId(old(Value()))
      ensures old(Valid()) ==> Valid()
    {
      id := nextTreeId;
      nextTreeId := (nextTreeId + 1) % U64;
    }

    method MarkUpdated()
      modifies this`changeId
      ensures Value() == S.MarkUpdated(old(Value()))
      ensures old(Valid()) ==> Valid()
    {
      changeId := (changeId + 1) % U64;
    }

    method DropFull()
      modifies this`full, this`memory
      ensures Value() == S.DropFull(old(Value()))
      ensures old(Valid()) ==> Valid()
    {
      full := None;
      memory := [];
    }

    method DropTree()
      requires Valid()
      modifies this
      ensures Value() == S.DropTree(old(Value())) && Valid() && history == old(history)
    {
      DropFull();
      cache := S.EMPTY_CACHE;
      pending := None;
      bootstrapAttempted := false;
    }

    /** Records the full tree as the tree of `content`. */
    method RememberFullTree(content: S.Text)
      modifies this`memory
      ensures Value() == if full.None? then old(Value())
                         else old(Value()).(memory := S.Remembered(old(memory), content, full.value.tree))
    {
      if full.None? { return; }
      if memory != [] && memory[0].content == content { return; }
      var pos := S.FindSnapshot(memory, content);
      if pos.Some? {
        memory := memory[..pos.value] + memory[pos.value + 1..];
      }
      if |memory| >= S.FULL_TREE_MEMORY_CAP {
        memory := memory[..|memory| - 1];
      }
      memory := [S.Snapshot(content, full.value.tree)] + memory;
    }

    /** Brings back the snapshot of `content`, if there is one. */
    method RestoreFullTree(content: S.Text, version: nat) returns (found: bool)
      modifies this
      ensures found == S.FindSnapshot(old(memory), content).Some?
      ensures Value() == if found then S.Restored(old(Value()), content, version) else old(Value())
      ensures history == old(history)
    {
      var pos := S.FindSnapshot(memory, content);
      if pos.None? { return false; }
      var i := pos.value;
      var remembered := memory[i];
      memory := memory[..i] + memory[i + 1..];
      var id := AllocTreeId();
      full := Some(S.InstalledTree(remembered.tree, version, id));
      memory := [remembered] + memory;
      assert memory == [remembered] + old(memory)[..i] + old(memory)[i + 1..];
      return true;
    }

    /** Extends, opens or abandons the pending window. */
    method ManagePending(anchor: nat, before: nat, oldText: S.Text, edit: ChangeSet)
      requires S.Composable(pending, edit)
      modifies this`pending
      ensures pending == S.NextPending(old(pending), anchor, before, oldText, edit)
    {
      match pending {
        case Some(p) =>
          if anchor != p.base {
            pending := None;
          } else {
            var c := Compose(p.composed, edit);
            pending := Some(p.(composed := c));
          }
        case None =>
          if anchor == before {
            pending := Some(S.Pending(anchor, oldText, edit));
          }
      }
    }

    /** Attempts the synchronous update of the full tree. */
    method TrySync(version: nat, newText: S.Text, outcome: S.SyncOutcome)
      modifies this
      ensures Value() == S.SyncUpdate(old(Value()), version, newText, outcome)
      ensures history == old(history)
    {
      if full.None? || pending.None? { return; }
      var p := pending.value;
      if full.value.version != p.base { return; }
      match outcome {
        case Updated =>
          var tree := S.EngineUpdate(full.value.tree, p.oldText, newText, p.composed);
          pending := None;
          dirty := false;
          var id := AllocTreeId();
          full := Some(S.InstalledTree(tree, version, id));
          MarkUpdated();
        case Failed =>
        case FailedAfterEdit =>
          full := Some(S.HalfEdited(full.value));
      }
    }

    /** Brings back a remembered tree of the text an undo or redo leads to. */
    method TryRestore(newText: S.Text, version: nat)
      modifies this
      ensures Value() == S.HistoryUpdate(old(Value()), version, newText)
      ensures history == old(history)
    {
      var restored := RestoreFullTree(newText, version);
      if restored {
        pending := None;
        dirty := false;
        MarkUpdated();
      }
    }

    /** Versions are consecutive, and the edit leads from the current text to
        the new one. */
    method NoteEditIncremental(version: nat, oldText: S.Text, newText: S.Text, edit: ChangeSet,
                               source: S.EditSource, outcome: S.SyncOutcome)
      requires Valid() && version == |history| && oldText == history[version - 1]
      requires S.Leads(edit, oldText, newText)
      modifies this
      ensures S.Composable(old(pending), edit)
      ensures Value() == S.NoteEdit(old(Value()), version, oldText, newText, edit, source, outcome)
      ensures Valid() && history == old(history) + [newText]
    {
      S.NoteEditAligned(history, Value(), edit, source, outcome);
      FollowEdit(version, oldText, newText, edit, source, outcome);
      history := history + [newText];
    }

    /** The statements of `note_edit_incremental`. */
    method FollowEdit(version: nat, oldText: S.Text, newText: S.Text, edit: ChangeSet,
                      source: S.EditSource, outcome: S.SyncOutcome)
      requires S.Composable(pending, edit)
      modifies this
      ensures Value() == S.NoteEdit(old(Value()), version, oldText, newText, edit, source, outcome)
      ensures history == old(history)
    {
      dirty := true;
      var anchor := S.Anchor(Value());
      if anchor.None? || version == 0 {
        pending := None;
        return;
      }
      NoteWindow(version - 1, anchor.value, oldText, edit);
      if source.History? {
        if !S.Identity(edit) { TryRestore(newText, version); }
        return;
      }
      TrySync(version, newText, outcome);
    }

    /** Remembers the tree of the text before the edit and moves the window. */
    method NoteWindow(before: nat, anchor: nat, oldText: S.Text, edit: ChangeSet)
      requires S.Composable(pending, edit) && S.Anchor(Value()) == Some(anchor) && dirty
      modifies this
      ensures Value() == S.Noted(old(Value()), before, oldText, edit) && history == old(history)
    {
      if full.Some? && full.value.version == before {
        RememberFullTree(oldText);
      }
      ManagePending(anchor, before, oldText, edit);
    }

    /** `content` is the replaced text, if the document was replaced. */
    method ResetSyntax(ghost content: Option<S.Text>)
      requires Valid()
      modifies this
      ensures Value() == S.Reset(old(Value())) && Valid()
      ensures history == if content.Some? then old(history) + [content.value] else old(history)
    {
      if S.HasAnyTree(Value()) {
        DropTree();
        MarkUpdated();
      }
      dirty := true;
      pending := None;
      if content.Some? {
        S.GrowHistory(history, content.value, Value());
        history := history + [content.value];
      }
    }

    method ApplyRetention(fullPolicy: S.RetentionPolicy, viewportPolicy: S.RetentionPolicy,
                          hotness: S.Hotness, age: nat)
      returns (dropped: bool)
      requires Valid()
      modifies this
      ensures Value() == S.ApplyRetention(old(Value()), fullPolicy, viewportPolicy, hotness, age)
      ensures Valid() && history == old(history)
      ensures dropped == (hotness.Cold? && (S.DropsFull(old(Value()), fullPolicy, age) ||
                                            S.DropsViewport(old(Value()), viewportPolicy, age)))
      ensures !dropped ==> Value() == old(Value())
    {
      S.RetentionAligned(history, Value(), fullPolicy, viewportPolicy, hotness, age);
      dropped := DropCold(fullPolicy, viewportPolicy, hotness, age);
    }

    method DropCold(fullPolicy: S.RetentionPolicy, viewportPolicy: S.RetentionPolicy,
                    hotness: S.Hotness, age: nat)
      returns (dropped: bool)
      modifies this
      ensures Value() == S.ApplyRetention(old(Value()), fullPolicy, viewportPolicy, hotness, age)
      ensures history == old(history)
      ensures dropped == (hotness.Cold? && (S.DropsFull(old(Value()), fullPolicy, age) ||
                                            S.DropsViewport(old(Value()), viewportPolicy, age)))
      ensures !dropped ==> Value() == old(Value())
    {
      if !hotness.Cold? { return false; }
      var droppedFull := DropColdFull(fullPolicy, age);
      var droppedViewport := false;
      if S.DropsViewport(Value(), viewportPolicy, age) {
        cache := S.EMPTY_CACHE;
        MarkUpdated();
        droppedViewport := true;
      }
      dropped := droppedFull || droppedViewport;
    }

    method DropColdFull(policy: S.RetentionPolicy, age: nat) returns (dropped: bool)
      modifies this
      ensures dropped == S.DropsFull(old(Value()), policy, age)
      ensures Value() == if dropped then S.MarkUpdated(S.DropFull(old(Value())).(dirty := false, pending := None))
                         else old(Value())
      ensures history == old(history)
    {
      dropped := S.Expired(policy, age) && (full.Some? || dirty);
      if dropped {
        DropFull();
        dirty := false;
        pending := None;
        MarkUpdated();
      }
    }

    method InstallFull(done: nat, tree: S.Tree, target: nat)
      requires Valid() && target == |history| - 1 && S.TreeAt(history, tree, done)
      modifies this
      ensures Value() == S.InstallFull(old(Value()), done, tree, target)
      ensures Valid() && history == old(history)
    {
      var id := AllocTreeId();
      full := Some(S.InstalledTree(tree, done, id));
      var keep := done < target && pending.Some? && pending.value.base == done;
      if !keep {
        pending := None;
      }
      dirty := done != target;
      MarkUpdated();
    }
  }
}
