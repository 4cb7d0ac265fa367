/** Catching up (crates/syntax/src/ensure and crates/syntax/src/edits.rs).

Wherever a document stands, polling it and letting its parses finish brings the
resident tree up to date; and what each of the other steps leaves behind.
 */
module SyntaxCatchUp {
  import opened Prelude
  import opened SyntaxSlots
  import opened ChangeSets
  import opened SyntaxHistory
  import opened SyntaxVersions

  // ---------------------------------------------------------------------
  // Catching up
  // ---------------------------------------------------------------------

  /** Polls, and parses that finish. */
  predicate Background(es: seq<Event>) {
    forall i :: 0 <= i < |es| ==> es[i].Ensure? || es[i].Finish? || es[i].InstallNext? || es[i].SpawnBackground?
  }

  /** What such steps leave alone. */
  predicate SameDocument(w: World, w': World) {
    w'.policy == w.policy && w'.history == w.history && w'.language == w.language
  }

  const GIVE_UP := Finish(0, false)

  lemma GaveUp(w: World)
    requires Aligned(w) && w.tasks != []
    ensures Enabled(w, GIVE_UP) && Step(w, GIVE_UP) == w.(tasks := w.tasks[1..])
  {
    assert [] + w.tasks[1..] == w.tasks[1..];
  }

  lemma {:induction false} AllFinish(w: World) returns (es: seq<Event>, w': World)
    requires Aligned(w) && Polled(w)
    ensures Reaches(w, es, w') && Background(es) && Aligned(w') && SameDocument(w, w')
    ensures Polled(w') && w'.tasks == []
    decreases |w.tasks|
  {
    if w.tasks == [] {
      es, w' := [], w;
    } else {
      GaveUp(w);
      ReachesOne(w, GIVE_UP);
      var more;
      more, w' := AllFinish(Step(w, GIVE_UP));
      es := [GIVE_UP] + more;
      ReachesThen(w, [GIVE_UP], Step(w, GIVE_UP), more, w');
    }
  }

  const INSTALL := InstallNext(Visible, 0, true)

  lemma Took(w: World)
    requires Aligned(w) && Polled(w) && w.done != []
    ensures Enabled(w, INSTALL)
    ensures var w' := Step(w, INSTALL);
      SameDocument(w, w') && Polled(w') && w'.tasks == w.tasks && w'.done == w.done[1..]
  {
  }

  lemma {:induction false} AllInstall(w: World) returns (es: seq<Event>, w': World)
    requires Aligned(w) && Polled(w) && w.tasks == []
    ensures Reaches(w, es, w') && Background(es) && Aligned(w') && SameDocument(w, w')
    ensures Polled(w') && w'.tasks == [] && w'.done == []
    decreases |w.done|
  {
    if w.done == [] {
      es, w' := [], w;
    } else {
      Took(w);
      ReachesOne(w, INSTALL);
      var more;
      more, w' := AllInstall(Step(w, INSTALL));
      es := [INSTALL] + more;
      ReachesThen(w, [INSTALL], Step(w, INSTALL), more, w');
    }
  }

  /** A parse of the current text, asked for last, is installed whatever tree is
      resident, and leaves nothing to do. */
  lemma CurrentInstalled(w: World)
    requires Aligned(w) && Polled(w) && w.done != [] && w.done[0].version == Current(w) == w.requested
    ensures Enabled(w, INSTALL)
    ensures var s, s' := w.slot, Step(w, INSTALL).slot;
      && s'.full == Some(InstalledTree(w.done[0].tree, Current(w), s.nextTreeId))
      && !s'.dirty && s'.pending.None? && s'.changeId == Tick(s.changeId) && s'.cache == s.cache
      && s'.memory == s.memory && s'.bootstrapAttempted == s.bootstrapAttempted
  {
    assert w.slot.full.Some? ==> w.slot.full.value.version <= Current(w);
  }

  lemma QuietIsUpToDate(w: World)
    requires Aligned(w) && w.slot.full.Some? && !w.slot.dirty
    ensures UpToDate(w)
  {
  }

  /** With nothing in flight, one more parse does it. */
  lemma LastParse(w: World) returns (es: seq<Event>, w': World)
    requires Aligned(w) && Polled(w) && w.tasks == [] && w.done == [] && Parsable(CurrentText(w))
    ensures Reaches(w, es, w') && Background(es) && Aligned(w') && SameDocument(w, w') && UpToDate(w')
  {
    if w.slot.full.Some? && !w.slot.dirty {
      es, w' := [], w;
      QuietIsUpToDate(w);
    } else {
      var w1 := FirstParsed(w);
      CurrentInstalled(w1);
      ReachesOne(w1, INSTALL);
      es, w' := FIRST_PARSE + [INSTALL], Step(w1, INSTALL);
      ReachesThen(w, FIRST_PARSE, w1, [INSTALL], w');
      QuietIsUpToDate(w');
    }
  }

  /** From every state a run can reach, with a language and a text that can be
      parsed, polls and finishing parses alone lead to a clean tree of the
      current text. */
  lemma CatchesUp(w: World) returns (es: seq<Event>)
    requires Aligned(w) && w.language.Some? && Parsable(CurrentText(w))
    ensures Background(es) && Possible(w, es) && UpToDate(Run(w, es)) && Run(w, es).history == w.history
  {
    EnsurePolls(w);
    var w1 := Step(w, Ensure);
    SameText(w, w1);
    var more, w2 := PolledCatchesUp(w1);
    es := [Ensure] + more;
    ReachesThen(w, [Ensure], w1, more, w2);
  }

  lemma PolledCatchesUp(w: World) returns (es: seq<Event>, w': World)
    requires Aligned(w) && Polled(w) && Parsable(CurrentText(w))
    ensures Reaches(w, es, w') && Background(es) && Aligned(w') && SameDocument(w, w') && UpToDate(w')
  {
    var settle, w1 := Settles(w);
    SameText(w, w1);
    var last, w2 := LastParse(w1);
    es, w' := settle + last, w2;
    ReachesThen(w, settle, w1, last, w2);
  }

  /** Nothing is in flight or queued any more. */
  lemma Settles(w: World) returns (es: seq<Event>, w': World)
    requires Aligned(w) && Polled(w)
    ensures Reaches(w, es, w') && Background(es) && Aligned(w') && SameDocument(w, w')
    ensures Polled(w') && w'.tasks == [] && w'.done == []
  {
    var finish, w1 := AllFinish(w);
    var install, w2 := AllInstall(w1);
    es, w' := finish + install, w2;
    ReachesThen(w, finish, w1, install, w2);
  }

  // ---------------------------------------------------------------------
  // What the other steps leave
  // ---------------------------------------------------------------------

  /** No tree, no result and no task of this epoch. */
  ghost predicate NothingLeft(w: World) { !HasAnyTree(w.slot) && w.done == [] && !Live(w) && w.requested == 0 }

  lemma InvalidateForgets(w: World)
    requires EpochsAligned(w.tasks, w.epoch)
    ensures !Live(Invalidate(w))
  {
  }

  /** A reset leaves nothing but the wish for a parse, and is announced when
      there was something to lose. */
  lemma ResetLeaves(w: World, e: Event)
    requires Aligned(w) && Enabled(w, e) && e.ResetSyntax?
    ensures var w' := Step(w, e);
      && NothingLeft(w') && w'.slot.dirty && w'.slot.pending.None?
      && w'.slot.changeId == (if HasAnyTree(w.slot) then Tick(w.slot.changeId) else w.slot.changeId)
      && w'.history == w.history + (if e.content.Some? then [e.content.value] else [])
  {
    InvalidateForgets(w);
  }

  /** So does a change of options; a change of language leaves no wish of its own;
      without a language nothing is wanted; and a poll that may not work leaves
      the trees alone and nothing in flight. */
  lemma GatesLeave(w: World, e: Event)
    requires Aligned(w) && Enabled(w, e) && Gates(e)
    ensures var w' := Step(w, e);
      && w'.history == w.history && w'.language == (if e.NewLanguage? then e.id else w.language)
      && (e.NewOptions? ==> NothingLeft(w') && w'.slot.dirty)
      && (e.NewLanguage? ==> NothingLeft(w') && w'.slot.dirty == w.slot.dirty)
      && (e.NoLanguage? ==> !HasAnyTree(w'.slot) && w'.done == [] && !w'.slot.dirty)
      && (e.Disabled? ==> w'.slot == w.slot && w'.done == [] && !Live(w'))
      && (e.Ensure? ==> w' == w.(tier := Some(CurrentTier(w))))
      && (!e.Ensure? ==> w'.tier == w.tier)
  {
    InvalidateForgets(w);
  }

  /** The synchronous parse of a document without a tree is kept exactly when it
      succeeds and nothing is in flight, and is tried once. */
  lemma BootstrapExactly(w: World, e: Event)
    requires Aligned(w) && Enabled(w, e) && e.BootstrapParse?
    ensures var w' := Step(w, e);
      && (e.ok && !e.lane && !Live(w) ==>
            && UpToDate(w') && w'.slot.full.value.tree == Parsed(CurrentText(w))
            && w'.slot.changeId == Tick(w.slot.changeId))
      && (!e.ok || e.lane || Live(w) ==> w'.slot == w.slot.(bootstrapAttempted := true))
      && !Enabled(w', e)
  {
  }

  /** A background parse is incremental exactly when the resident tree lags behind
      and its highlights can be projected onto the text. */
  lemma IncrementalExactly(w: World, e: Event)
    requires Aligned(w) && Enabled(w, e) && e.SpawnBackground?
    ensures var w' := Step(w, e);
      && |w'.tasks| == |w.tasks| + 1 && w'.tasks[..|w.tasks|] == w.tasks && w'.slot == w.slot
      && var t := w'.tasks[|w.tasks|];
         && t.version == Current(w) == w'.requested && t.epoch == w.epoch && TaskText(t) == CurrentText(w)
         && (t.kind.Incremental? <==>
               w.slot.full.Some? && ProjectionFor(w.slot, w.slot.full.value.version, Current(w)).Some?)
         && (t.kind.Incremental? ==>
               var ctx := ProjectionFor(w.slot, w.slot.full.value.version, Current(w)).value;
               t.kind == Incremental(w.slot.full.value.tree, ctx.base, CurrentText(w), ctx.composed))
  {
  }

  // ---------------------------------------------------------------------
  // Viewport trees
  // ---------------------------------------------------------------------

  predicate EntryIs(c: ViewportCache, key: nat, e: ViewportEntry) { key in c.entries && c.entries[key] == e }

  /** A wanted viewport result lands in its stage of its entry, which is now the
      most recent one; the other stage, the other entries that stay, the full
      tree and the window are as before. */
  lemma ViewportLands(w: World, e: Event)
    requires Aligned(w) && Enabled(w, e) && e.ViewportDone? && e.wanted
    requires !WorkDisabled(CurrentCfg(w), e.hotness) && Retains(CurrentCfg(w).viewport, e.hotness, e.age)
    ensures var s, s' := w.slot, Step(w, e).slot;
      var t := Some(InstalledTree(Parsed(w.history[e.at]), e.at, s.nextTreeId));
      var before := if e.key in s.cache.entries then s.cache.entries[e.key] else ViewportEntry(None, None);
      && EntryIs(s'.cache, e.key, if e.urgent then before.(stageA := t) else before.(stageB := t))
      && s'.cache.order[..1] == [e.key]
      && (forall k :: k in s'.cache.entries && k != e.key ==> EntryIs(s.cache, k, s'.cache.entries[k]))
      && s'.full == s.full && s'.memory == s.memory && s'.pending == s.pending
      && s'.dirty == (s.dirty || e.urgent) && s'.changeId == Tick(s.changeId)
  {
    TouchOrInsertOk(w.slot.cache, e.key);
  }

  /** One that may not be kept takes every tree with it if it is current; any
      other changes nothing. */
  lemma ViewportRefused(w: World, e: Event)
    requires Aligned(w) && Enabled(w, e) && e.ViewportDone?
    requires WorkDisabled(CurrentCfg(w), e.hotness) || !Retains(CurrentCfg(w).viewport, e.hotness, e.age) || !e.wanted
    ensures var w' := Step(w, e);
      if !WorkDisabled(CurrentCfg(w), e.hotness) && !Retains(CurrentCfg(w).viewport, e.hotness, e.age)
         && e.at == Current(w)
      then !HasAnyTree(w'.slot) && !w'.slot.dirty && w'.slot.pending.None? && w'.slot.changeId == Tick(w.slot.changeId)
      else w' == w
  {
  }

  // ---------------------------------------------------------------------
  // The window
  // ---------------------------------------------------------------------

  /** Some cached viewport tree is of this version. */
  predicate CachedAt(c: ViewportCache, version: nat) {
    exists k :: k in c.entries && StagedAt(c.entries[k], version)
  }

  predicate StagedAt(e: ViewportEntry, version: nat) {
    VersionOf(e.stageA) == Some(version) || VersionOf(e.stageB) == Some(version)
  }

  lemma {:induction false} BestIsHighest(order: seq<nat>, entries: map<nat, ViewportEntry>)
    ensures var best := BestVersion(order, entries);
      && (best.Some? ==> exists k :: k in order && k in entries && StagedAt(entries[k], best.value))
      && (forall k, v: nat :: k in order && k in entries && StagedAt(entries[k], v) ==> best.Some? && v <= best.value)
    decreases |order|
  {
    if order != [] {
      BestIsHighest(order[1..], entries);
      assert order == [order[0]] + order[1..];
    }
  }

  /** Without a full tree an edit is followed from the newest viewport tree. */
  lemma AnchorIsNewest(s: Slot, version: nat)
    requires CacheOk(s.cache)
    ensures s.full.Some? ==> Anchor(s) == Some(s.full.value.version)
    ensures s.full.None? ==>
      (Anchor(s) == Some(version) <==>
         CachedAt(s.cache, version) && forall v: nat :: CachedAt(s.cache, v) ==> v <= version)
  {
    BestIsHighest(s.cache.order, s.cache.entries);
    if s.full.None? && Anchor(s).Some? {
      var k :| k in s.cache.order && k in s.cache.entries && StagedAt(s.cache.entries[k], Anchor(s).value);
      assert CachedAt(s.cache, Anchor(s).value);
    }
  }

  /** After an edit that leaves the slot dirty, there is a window exactly when
      there was one from the newest tree, or that tree was of the text the edit
      started from; it then reaches from that tree to the new text. */
  lemma WindowExactly(w: World, e: Event)
    requires Aligned(w) && Enabled(w, e) && e.Edit? && Step(w, e).slot.dirty
    ensures var s, s' := w.slot, Step(w, e).slot;
      && (s'.pending.Some? <==>
            Anchor(s).Some? && Anchor(s).value == if s.pending.Some? then s.pending.value.base else Current(w))
      && (s'.pending.Some? ==>
            && Anchor(s) == Some(s'.pending.value.base) && s'.pending.value.base < |w.history|
            && s'.pending.value.oldText == w.history[s'.pending.value.base])
  {
    EditParts(w, e);
    var text := CurrentText(w);
    DirtyWindow(w.history, w.slot, text, Applied(e.change, text), e.change, e.source, e.outcome);
  }

  lemma DirtyWindow(h: seq<Text>, s: Slot, oldText: Text, newText: Text, edit: ChangeSet,
                    source: EditSource, outcome: SyncOutcome)
    requires SlotAligned(h, s) && oldText == h[|h| - 1] && Composable(s.pending, edit)
    ensures var s' := NoteEdit(s, |h|, oldText, newText, edit, source, outcome);
      s'.dirty ==>
        && (s'.pending.Some? <==>
              Anchor(s).Some? && Anchor(s).value == if s.pending.Some? then s.pending.value.base else |h| - 1)
        && (s'.pending.Some? ==>
              && Anchor(s) == Some(s'.pending.value.base) && s'.pending.value.base < |h|
              && s'.pending.value.oldText == h[s'.pending.value.base])
  {
    DirtyPending(s, |h|, oldText, newText, edit, source, outcome);
  }

  lemma DirtyPending(s: Slot, version: nat, oldText: Text, newText: Text, edit: ChangeSet,
                     source: EditSource, outcome: SyncOutcome)
    requires Composable(s.pending, edit) && version > 0
    ensures var s' := NoteEdit(s, version, oldText, newText, edit, source, outcome);
      s'.dirty ==>
        s'.pending ==
          if Anchor(s).None? then None else NextPending(s.pending, Anchor(s).value, version - 1, oldText, edit)
  {
  }
}
