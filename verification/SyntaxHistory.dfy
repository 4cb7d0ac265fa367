/** Undo and redo on the syntax slot (crates/syntax/src/edits.rs, the snapshot
memory of crates/syntax/src/types.rs).

An edit remembers the tree of the text it leaves, and an undo or redo that leads
back to a remembered text brings its tree back.  The laws here are about whole
edits and runs of them; they mention snapshots and trees, not the steps that
handle them.
 */
module SyntaxHistory {
  import opened Prelude
  import opened ChangeSets
  import opened SyntaxSlots

  // ---------------------------------------------------------------------
  // The snapshot memory
  // ---------------------------------------------------------------------

  /** The memory holds `tree` for `content`, `i` places from the front. */
  predicate Holds(memory: seq<Snapshot>, i: nat, content: Text, tree: Tree) {
    i < |memory| && memory[i] == Snapshot(content, tree)
  }

  predicate Forgets(memory: seq<Snapshot>, content: Text) {
    forall i :: 0 <= i < |memory| ==> memory[i].content != content
  }

  /** Remembering another text pushes a snapshot back by at most one place, and
      loses it exactly from the last of eight places, to a text that is new. */
  lemma RememberedKeeps(memory: seq<Snapshot>, i: nat, content: Text, tree: Tree, other: Text, t: Tree)
    requires MemoryOk(memory) && Holds(memory, i, content, tree) && other != content
    ensures var m := Remembered(memory, other, t);
      if i == FULL_TREE_MEMORY_CAP - 1 && Forgets(memory, other) then Forgets(m, content)
      else Holds(m, i, content, tree) || Holds(m, i + 1, content, tree)
  {
    var m, pos := Remembered(memory, other, t), FindSnapshot(memory, other);
    if pos.None? && i < FULL_TREE_MEMORY_CAP - 1 {
      assert m[i + 1] == memory[i];
    } else if pos.None? {
      forall j | 0 <= j < |m| ensures m[j].content != content {
        if j > 0 { assert m[j] == memory[j - 1] && memory[j - 1].content != memory[i].content; }
      }
    } else if pos.value > 0 {
      var rest := memory[..pos.value] + memory[pos.value + 1..];
      assert m == [Snapshot(other, t)] + rest;
      assert m[if i < pos.value then i + 1 else i] == memory[i];
    }
  }

  /** Nothing but the remembered text is added. */
  lemma RememberedAdds(memory: seq<Snapshot>, content: Text, other: Text, t: Tree)
    requires MemoryOk(memory) && Forgets(memory, content) && other != content
    ensures Forgets(Remembered(memory, other, t), content)
  {
  }

  /** The remembered text itself ends up in front; a tree already there stays. */
  lemma RememberedFront(memory: seq<Snapshot>, content: Text, t: Tree)
    requires MemoryOk(memory)
    ensures Holds(Remembered(memory, content, t), 0, content,
                  if memory != [] && memory[0].content == content then memory[0].tree else t)
  {
  }

  // ---------------------------------------------------------------------
  // One edit
  // ---------------------------------------------------------------------

  /** The resident tree is of the text that the edit leaves. */
  predicate Leaves(s: Slot, before: nat) { s.full.Some? && s.full.value.version == before }

  /** `tree` is remembered for `newText` once the tree of `oldText` has been
      remembered in its turn. */
  predicate Recalls(s: Slot, before: nat, oldText: Text, newText: Text, tree: Tree) {
    if Leaves(s, before) && newText == oldText then
      tree == if s.memory != [] && s.memory[0].content == oldText then s.memory[0].tree else s.full.value.tree
    else
      exists i :: 0 <= i < |s.memory| && Holds(s.memory, i, newText, tree)
        && !(i == FULL_TREE_MEMORY_CAP - 1 && Leaves(s, before) && Forgets(s.memory, oldText))
  }

  /** `tree` is now the resident tree of `version`, and nothing is left to do. */
  predicate Restores(s: Slot, s': Slot, tree: Tree, version: nat) {
    && s'.full == Some(InstalledTree(tree, version, s.nextTreeId))
    && !s'.dirty && s'.pending.None? && s'.changeId == Tick(s.changeId)
  }

  /** No tree is. */
  predicate RecallsNothing(s: Slot, before: nat, oldText: Text, newText: Text) {
    && !(Leaves(s, before) && newText == oldText)
    && forall i :: 0 <= i < |s.memory| && s.memory[i].content == newText ==>
         i == FULL_TREE_MEMORY_CAP - 1 && Leaves(s, before) && Forgets(s.memory, oldText)
  }

  lemma RecallsSomething(s: Slot, before: nat, oldText: Text, newText: Text) returns (tree: Tree)
    requires !RecallsNothing(s, before, oldText, newText)
    ensures Recalls(s, before, oldText, newText, tree)
  {
    if Leaves(s, before) && newText == oldText {
      tree := if s.memory != [] && s.memory[0].content == oldText then s.memory[0].tree else s.full.value.tree;
    } else {
      var i :| 0 <= i < |s.memory| && s.memory[i].content == newText
        && !(i == FULL_TREE_MEMORY_CAP - 1 && Leaves(s, before) && Forgets(s.memory, oldText));
      tree := s.memory[i].tree;
      assert Holds(s.memory, i, newText, tree);
    }
  }

  predicate Found(memory: seq<Snapshot>, content: Text, tree: Tree) {
    FindSnapshot(memory, content).Some? && memory[FindSnapshot(memory, content).value].tree == tree
  }

  lemma FoundIs(memory: seq<Snapshot>, i: nat, content: Text, tree: Tree)
    requires MemoryOk(memory) && Holds(memory, i, content, tree)
    ensures Found(memory, content, tree)
  {
  }

  /** The memory once the tree of the old text is in it. */
  lemma NotedRecalls(s: Slot, before: nat, oldText: Text, newText: Text, tree: Tree)
    requires MemoryOk(s.memory) && MemoryOk(NotedMemory(s, before, oldText))
    requires Recalls(s, before, oldText, newText, tree)
    ensures Found(NotedMemory(s, before, oldText), newText, tree)
  {
    var m := NotedMemory(s, before, oldText);
    if Leaves(s, before) && newText == oldText {
      RememberedFront(s.memory, oldText, s.full.value.tree);
      FoundIs(m, 0, oldText, tree);
    } else {
      var i :| 0 <= i < |s.memory| && Holds(s.memory, i, newText, tree)
        && !(i == FULL_TREE_MEMORY_CAP - 1 && Leaves(s, before) && Forgets(s.memory, oldText));
      if Leaves(s, before) {
        RememberedKeeps(s.memory, i, newText, tree, oldText, s.full.value.tree);
        FoundIs(m, if Holds(m, i, newText, tree) then i else i + 1, newText, tree);
      } else {
        FoundIs(m, i, newText, tree);
      }
    }
  }

  lemma NotedForgets(s: Slot, before: nat, oldText: Text, newText: Text)
    requires MemoryOk(s.memory) && RecallsNothing(s, before, oldText, newText)
    ensures FindSnapshot(NotedMemory(s, before, oldText), newText).None?
  {
    if Leaves(s, before) {
      var t := s.full.value.tree;
      if Forgets(s.memory, newText) {
        RememberedAdds(s.memory, newText, oldText, t);
      } else {
        var i :| 0 <= i < |s.memory| && s.memory[i].content == newText;
        RememberedKeeps(s.memory, i, newText, s.memory[i].tree, oldText, t);
      }
    }
  }

  lemma HistoryFound(s: Slot, version: nat, oldText: Text, newText: Text, edit: ChangeSet,
                     outcome: SyncOutcome, tree: Tree)
    requires Composable(s.pending, edit) && Anchor(s).Some? && version > 0 && !Identity(edit)
    requires Found(NotedMemory(s, version - 1, oldText), newText, tree)
    ensures Restores(s, NoteEdit(s, version, oldText, newText, edit, History, outcome), tree, version)
  {
  }

  /** The edit leaves the resident tree alone, and work to be done. */
  predicate LeftDirty(s: Slot, s': Slot) {
    s'.full == s.full && s'.dirty && s'.nextTreeId == s.nextTreeId && s'.changeId == s.changeId
  }

  lemma HistoryLost(s: Slot, version: nat, oldText: Text, newText: Text, edit: ChangeSet, outcome: SyncOutcome)
    requires Composable(s.pending, edit)
    requires Anchor(s).None? || version == 0 || Identity(edit)
          || FindSnapshot(NotedMemory(s, version - 1, oldText), newText).None?
    ensures LeftDirty(s, NoteEdit(s, version, oldText, newText, edit, History, outcome))
  {
  }

  /** An undo or redo restores the remembered tree of the text it leads to, for
      the new version and with nothing left to parse.  When that text is not
      remembered, or the edit changes nothing, the resident tree stays and the
      slot is dirty. */
  lemma HistoryEdit(h: seq<Text>, s: Slot, oldText: Text, change: ChangeSet, newText: Text,
                    outcome: SyncOutcome, tree: Tree)
    requires SlotAligned(h, s) && oldText == h[|h| - 1] && Leads(change, oldText, newText)
    ensures Composable(s.pending, change)
    ensures var s' := NoteEdit(s, |h|, oldText, newText, change, History, outcome);
      && (!Identity(change) && Recalls(s, |h| - 1, oldText, newText, tree) ==> Restores(s, s', tree, |h|))
      && (Identity(change) || RecallsNothing(s, |h| - 1, oldText, newText) ==> LeftDirty(s, s'))
  {
    AlignedComposable(h, s, change);
    if !Identity(change) && Recalls(s, |h| - 1, oldText, newText, tree) {
      assert MemoryOk(NotedMemory(s, |h| - 1, oldText)) by { NotedMemoryOk(h, s, oldText); }
      NotedRecalls(s, |h| - 1, oldText, newText, tree);
      HistoryFound(s, |h|, oldText, newText, change, outcome, tree);
    } else if Identity(change) || RecallsNothing(s, |h| - 1, oldText, newText) {
      if !Identity(change) { NotedForgets(s, |h| - 1, oldText, newText); }
      HistoryLost(s, |h|, oldText, newText, change, outcome);
    }
  }

  lemma NotedMemoryOk(h: seq<Text>, s: Slot, text: Text)
    requires SlotAligned(h, s) && text == h[|h| - 1]
    ensures MemoryOk(NotedMemory(s, |h| - 1, text))
  {
    if Leaves(s, |h| - 1) { RememberedOk(s.memory, text, s.full.value.tree); }
  }

  // ---------------------------------------------------------------------
  // Typing and undoing
  // ---------------------------------------------------------------------

  /** A snapshot of `content` is among the first `k + 1`. */
  predicate HeldWithin(s: Slot, content: Text, k: nat) {
    exists i :: 0 <= i <= k && i < |s.memory| && s.memory[i].content == content
  }

  lemma TypedMemory(w: World, e: Event)
    requires Aligned(w) && Enabled(w, e) && e.Edit? && e.source.Typing?
    ensures w.slot.full.Some? ==> Step(w, e).slot.memory == NotedMemory(w.slot, Current(w), CurrentText(w))
    ensures w.slot.full.None? ==> Step(w, e).slot.memory == []
  {
    EditParts(w, e);
  }

  lemma TypedHolds(w: World, e: Event, content: Text, k: nat)
    requires Aligned(w) && Enabled(w, e) && e.Edit? && e.source.Typing?
    requires HeldWithin(w.slot, content, k) && k + 1 < FULL_TREE_MEMORY_CAP
    ensures HeldWithin(Step(w, e).slot, content, k + 1)
  {
    TypedMemory(w, e);
    var s, text, m := w.slot, CurrentText(w), Step(w, e).slot.memory;
    var i :| 0 <= i <= k && i < |s.memory| && s.memory[i].content == content;
    if Leaves(s, Current(w)) {
      if text == content {
        RememberedFront(s.memory, text, s.full.value.tree);
      } else {
        RememberedKeeps(s.memory, i, content, s.memory[i].tree, text, s.full.value.tree);
        assert Holds(m, i, content, s.memory[i].tree) || Holds(m, i + 1, content, s.memory[i].tree);
      }
    }
  }

  predicate Typed(es: seq<Event>) {
    forall i :: 0 <= i < |es| ==> es[i].Edit? && es[i].source.Typing?
  }

  lemma {:induction false} TypedRunHolds(w: World, es: seq<Event>, content: Text, k: nat)
    requires Aligned(w) && Possible(w, es) && Typed(es)
    requires HeldWithin(w.slot, content, k) && k + |es| < FULL_TREE_MEMORY_CAP
    ensures HeldWithin(Run(w, es).slot, content, k + |es|)
    decreases |es|
  {
    if es != [] {
      StepAligned(w, es[0]);
      TypedHolds(w, es[0], content, k);
      assert Typed(es[1..]);
      TypedRunHolds(Step(w, es[0]), es[1..], content, k + 1);
    }
  }

  /** The event is an undo or redo that leads back to `text`. */
  predicate LeadsBack(w: World, e: Event, text: Text)
    requires w.history != []
  {
    e.Edit? && e.source.History? && !Identity(e.change) && Leads(e.change, CurrentText(w), text)
  }

  /** The resident tree is of the current text, with nothing left to parse. */
  predicate UpToDate(w: World)
    requires w.history != []
  {
    && w.slot.full.Some? && w.slot.full.value.version == Current(w) && !w.slot.dirty && w.slot.pending.None?
    && (!w.slot.full.value.tree.spoiled ==> w.slot.full.value.tree.text == CurrentText(w))
  }

  lemma UndoStep(w: World, e: Event, text: Text, tree: Tree)
    requires Aligned(w) && Enabled(w, e) && LeadsBack(w, e, text)
    ensures Step(w, e).history == w.history + [text]
    ensures Recalls(w.slot, Current(w), CurrentText(w), text, tree) ==>
      Restores(w.slot, Step(w, e).slot, tree, |w.history|)
    ensures RecallsNothing(w.slot, Current(w), CurrentText(w), text) ==> LeftDirty(w.slot, Step(w, e).slot)
  {
    UndoParts(w, e, text);
    HistoryEdit(w.history, w.slot, CurrentText(w), e.change, text, e.outcome, tree);
  }

  lemma UndoParts(w: World, e: Event, text: Text)
    requires Aligned(w) && Enabled(w, e) && LeadsBack(w, e, text)
    ensures Composable(w.slot.pending, e.change) && Step(w, e).history == w.history + [text]
    ensures Step(w, e).slot == NoteEdit(w.slot, |w.history|, CurrentText(w), text, e.change, History, e.outcome)
  {
    EditParts(w, e);
  }

  lemma UndoRestores(w: World, e: Event, text: Text)
    requires Aligned(w) && Enabled(w, e) && LeadsBack(w, e, text)
    requires !RecallsNothing(w.slot, Current(w), CurrentText(w), text)
    ensures CurrentText(Step(w, e)) == text && UpToDate(Step(w, e))
  {
    var tree := RecallsSomething(w.slot, Current(w), CurrentText(w), text);
    UndoStep(w, e, text, tree);
    StepAligned(w, e);
    RestoredUpToDate(w, Step(w, e), tree);
  }

  lemma RestoredUpToDate(w: World, w': World, tree: Tree)
    requires w.history != [] && Aligned(w') && |w'.history| == |w.history| + 1
    requires Restores(w.slot, w'.slot, tree, |w.history|)
    ensures UpToDate(w')
  {
  }

  /** From a document whose tree is current: after at most seven typing edits,
      whether their updates succeed or not, an undo back to its text leaves a
      clean tree of that text for the newest version. */
  lemma TypingThenUndo(w: World, es: seq<Event>, e: Event)
    requires Aligned(w) && Leaves(w.slot, Current(w)) && Possible(w, es) && Typed(es)
    requires 1 <= |es| < FULL_TREE_MEMORY_CAP
    requires Enabled(Run(w, es), e) && LeadsBack(Run(w, es), e, CurrentText(w))
    ensures var w' := Step(Run(w, es), e);
      CurrentText(w') == CurrentText(w) && UpToDate(w')
  {
    var text := CurrentText(w);
    FirstTyped(w, es[0]);
    TypedRunHolds(Step(w, es[0]), es[1..], text, 0);
    HeldIsRecalled(Run(w, es).slot, Current(Run(w, es)), CurrentText(Run(w, es)), text, |es| - 1);
    UndoRestores(Run(w, es), e, text);
  }

  /** If no update failed halfway, the tree is exactly of that text. */
  lemma TypingThenUndoIsExact(w: World, es: seq<Event>, e: Event)
    requires Aligned(w) && Sound(w) && Leaves(w.slot, Current(w))
    requires Possible(w, es) && Typed(es) && NeverSpoils(w, es) && 1 <= |es| < FULL_TREE_MEMORY_CAP
    requires Enabled(Run(w, es), e) && LeadsBack(Run(w, es), e, CurrentText(w))
    ensures var w' := Step(Run(w, es), e);
      UpToDate(w') && !w'.slot.full.value.tree.spoiled && w'.slot.full.value.tree.text == CurrentText(w)
  {
    TypingThenUndo(w, es, e);
    RunsAreExact(w, es);
    SoundStep(Run(w, es), e);
  }

  lemma FirstTyped(w: World, e: Event)
    requires Aligned(w) && Leaves(w.slot, Current(w)) && Enabled(w, e) && e.Edit? && e.source.Typing?
    ensures Aligned(Step(w, e)) && HeldWithin(Step(w, e).slot, CurrentText(w), 0)
  {
    StepAligned(w, e);
    TypedMemory(w, e);
    RememberedFront(w.slot.memory, CurrentText(w), w.slot.full.value.tree);
  }

  lemma HeldIsRecalled(s: Slot, before: nat, oldText: Text, content: Text, k: nat)
    requires HeldWithin(s, content, k) && k < FULL_TREE_MEMORY_CAP - 1
    ensures !RecallsNothing(s, before, oldText, content)
  {
  }

  /** No version from `base` on has the text of another. */
  predicate AllDiffer(h: seq<Text>, base: nat) {
    forall i, j :: base <= i < j < |h| ==> h[i] != h[j]
  }

  /** The memory holds the versions before the current one, newest first, back to
      `base` or as many as fit. */
  predicate Filled(w: World, base: nat)
    requires w.history != []
  {
    && base <= Current(w) && Leaves(w.slot, Current(w))
    && |w.slot.memory| == (if Current(w) - base < FULL_TREE_MEMORY_CAP then Current(w) - base else FULL_TREE_MEMORY_CAP)
    && forall i :: 0 <= i < |w.slot.memory| ==> w.slot.memory[i].content == w.history[Current(w) - 1 - i]
  }

  /** Typing edits whose updates succeed, each to a text unlike all before. */
  ghost predicate TypedFresh(w: World, es: seq<Event>, base: nat)
    requires Aligned(w) && Possible(w, es)
    decreases |es|
  {
    && AllDiffer(w.history, base)
    && (es != [] ==>
          && es[0].Edit? && es[0].source.Typing? && es[0].outcome.Updated?
          && (StepAligned(w, es[0]); TypedFresh(Step(w, es[0]), es[1..], base)))
  }

  lemma FreshRemembered(memory: seq<Snapshot>, content: Text, tree: Tree)
    requires Forgets(memory, content) && |memory| <= FULL_TREE_MEMORY_CAP
    ensures var m := Remembered(memory, content, tree);
      && |m| == (if |memory| < FULL_TREE_MEMORY_CAP then |memory| + 1 else |memory|)
      && m[0].content == content && forall i :: 0 < i < |m| ==> m[i] == memory[i - 1]
  {
  }

  lemma FilledStep(w: World, e: Event, base: nat)
    requires Aligned(w) && Enabled(w, e) && e.Edit? && e.source.Typing? && e.outcome.Updated?
    requires Filled(w, base) && AllDiffer(w.history, base)
    ensures Filled(Step(w, e), base)
  {
    TypedMemory(w, e);
    TypingStep(w, e.change, Updated);
    EditParts(w, e);
    FilledNext(w, Step(w, e), Applied(e.change, CurrentText(w)), base);
  }

  lemma FilledNext(w: World, w': World, text': Text, base: nat)
    requires w.history != [] && Filled(w, base) && AllDiffer(w.history, base)
    requires w'.history == w.history + [text'] && Leaves(w'.slot, |w.history|)
    requires w'.slot.memory == Remembered(w.slot.memory, CurrentText(w), w.slot.full.value.tree)
    ensures Filled(w', base)
  {
    assert Forgets(w.slot.memory, CurrentText(w));
    FreshRemembered(w.slot.memory, CurrentText(w), w.slot.full.value.tree);
  }

  lemma {:induction false} FilledRun(w: World, es: seq<Event>, base: nat)
    requires Aligned(w) && Possible(w, es) && TypedFresh(w, es, base) && Filled(w, base)
    ensures Filled(Run(w, es), base) && AllDiffer(Run(w, es).history, base)
    ensures |Run(w, es).history| == |w.history| + |es| && w.history <= Run(w, es).history
    decreases |es|
  {
    if es != [] {
      StepAligned(w, es[0]);
      FilledStep(w, es[0], base);
      EditParts(w, es[0]);
      FilledRun(Step(w, es[0]), es[1..], base);
    }
  }

  /** How far back an undo reaches.  With an empty memory, and after any number
      of typing edits through different texts, an undo back to the first text
      leaves a clean tree of it if and only if there were at most seven edits;
      after more the resident tree stays behind. */
  lemma UndoReachesExactly(w: World, es: seq<Event>, e: Event)
    requires Aligned(w) && Leaves(w.slot, Current(w)) && w.slot.memory == []
    requires Possible(w, es) && es != [] && TypedFresh(w, es, Current(w))
    requires Enabled(Run(w, es), e) && LeadsBack(Run(w, es), e, CurrentText(w))
    ensures var w' := Step(Run(w, es), e);
      && CurrentText(w') == CurrentText(w)
      && (UpToDate(w') <==> |es| < FULL_TREE_MEMORY_CAP)
      && (|es| >= FULL_TREE_MEMORY_CAP ==> LeftDirty(Run(w, es).slot, w'.slot))
  {
    var base, text := Current(w), CurrentText(w);
    FilledRun(w, es, base);
    FilledUndo(Run(w, es), e, base);
  }

  lemma FilledUndo(w: World, e: Event, base: nat)
    requires Aligned(w) && Filled(w, base) && base < Current(w) && AllDiffer(w.history, base)
    requires Enabled(w, e) && LeadsBack(w, e, w.history[base])
    ensures var w' := Step(w, e);
      && CurrentText(w') == w.history[base]
      && (UpToDate(w') <==> Current(w) - base < FULL_TREE_MEMORY_CAP)
      && (Current(w) - base >= FULL_TREE_MEMORY_CAP ==> LeftDirty(w.slot, w'.slot))
  {
    var s, text, n := w.slot, w.history[base], Current(w) - base;
    if n < FULL_TREE_MEMORY_CAP {
      assert s.memory[n - 1].content == text;
      UndoRestores(w, e, text);
    } else {
      assert Forgets(s.memory, CurrentText(w));
      assert forall i :: 0 <= i < |s.memory| && s.memory[i].content == text ==> i == FULL_TREE_MEMORY_CAP - 1;
      UndoStep(w, e, text, s.full.value.tree);
    }
  }

  // ---------------------------------------------------------------------
  // Undoing and redoing
  // ---------------------------------------------------------------------

  lemma MovedKeeps(memory: seq<Snapshot>, i: nat, j: nat, content: Text, tree: Tree)
    requires i < |memory| && Holds(memory, j, content, tree)
    ensures var m := Moved(memory, i);
      && m[0] == memory[i]
      && (Holds(m, j, content, tree) || Holds(m, j + 1, content, tree) || (i == j && Holds(m, 0, content, tree)))
  {
    var m := Moved(memory, i);
    if j < i { assert m[j + 1] == memory[j]; } else if j > i { assert m[j] == memory[j]; }
  }

  /** An undo remembers the tree it leaves, right behind the one it restores. */
  lemma UndoRemembers(w: World, e: Event, text: Text)
    requires Aligned(w) && Enabled(w, e) && LeadsBack(w, e, text) && text != CurrentText(w)
    requires Leaves(w.slot, Current(w)) && w.slot.memory != [] && w.slot.memory[0].content == text
    ensures var m := Step(w, e).slot.memory;
      |m| > 0 && m[0].content == text && Holds(m, 1, CurrentText(w), w.slot.full.value.tree)
  {
    UndoParts(w, e, text);
    var s := w.slot;
    var m := Remembered(s.memory, CurrentText(w), s.full.value.tree);
    RememberedFront(s.memory, CurrentText(w), s.full.value.tree);
    RememberedKeeps(s.memory, 0, text, s.memory[0].tree, CurrentText(w), s.full.value.tree);
    assert Holds(m, 1, text, s.memory[0].tree);
    assert FindSnapshot(m, text) == Some(1);
    MovedKeeps(m, 1, 0, CurrentText(w), s.full.value.tree);
  }

  /** A typing edit whose update succeeds, an undo and a redo bring back the very
      tree the typing edit left. */
  lemma UndoThenRedo(w: World, typed: Event, undo: Event, redo: Event)
    requires Aligned(w) && Leaves(w.slot, Current(w)) && Enabled(w, typed)
    requires typed.Edit? && typed.source.Typing? && typed.outcome.Updated?
    requires var w1 := Step(w, typed);
      && Aligned(w1) && CurrentText(w1) != CurrentText(w)
      && Enabled(w1, undo) && LeadsBack(w1, undo, CurrentText(w))
      && var w2 := Step(w1, undo); Aligned(w2) && Enabled(w2, redo) && LeadsBack(w2, redo, CurrentText(w1))
    ensures var w1 := Step(w, typed);
      var w3 := Step(Step(w1, undo), redo);
      && w1.slot.full.Some? && CurrentText(w3) == CurrentText(w1) && UpToDate(w3)
      && w3.slot.full.value.tree == w1.slot.full.value.tree
  {
    var w1 := Step(w, typed);
    var w2 := Step(w1, undo);
    TypingStep(w, typed.change, Updated);
    FirstTypedFront(w, typed);
    UndoRemembers(w1, undo, CurrentText(w));
    UndoParts(w1, undo, CurrentText(w));
    RedoRestores(w2, redo, CurrentText(w1), w1.slot.full.value.tree);
  }

  lemma FirstTypedFront(w: World, e: Event)
    requires Aligned(w) && Leaves(w.slot, Current(w)) && Enabled(w, e) && e.Edit? && e.source.Typing?
    ensures Step(w, e).slot.memory != [] && Step(w, e).slot.memory[0].content == CurrentText(w)
  {
    TypedMemory(w, e);
    RememberedFront(w.slot.memory, CurrentText(w), w.slot.full.value.tree);
  }

  lemma RedoRestores(w: World, e: Event, text: Text, tree: Tree)
    requires Aligned(w) && Enabled(w, e) && LeadsBack(w, e, text) && text != CurrentText(w)
    requires Holds(w.slot.memory, 1, text, tree)
    ensures CurrentText(Step(w, e)) == text && UpToDate(Step(w, e))
    ensures Step(w, e).slot.full.value.tree == tree
  {
    assert Recalls(w.slot, Current(w), CurrentText(w), text, tree);
    UndoStep(w, e, text, tree);
    StepAligned(w, e);
    RestoredUpToDate(w, Step(w, e), tree);
  }
}
