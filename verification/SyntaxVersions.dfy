/** The version of the resident full tree over whole runs
(crates/syntax/src/{retention,scheduling,completion,policy}.rs and the install
phase of crates/syntax/src/ensure).

A tree that is dropped can come back from a parse that was still waiting.
Whether an older one can come back is decided by the policy alone: exactly when
the tier of some text both parses while hidden and drops trees while hidden.
 */
module SyntaxVersions {
  import opened Prelude
  import opened ChangeSets
  import opened SyntaxSlots

  // ---------------------------------------------------------------------
  // While a tree stays resident
  // ---------------------------------------------------------------------

  /** A step that leaves a full tree resident never moves it back. */
  lemma VersionStep(w: World, e: Event)
    requires Aligned(w) && Enabled(w, e)
    ensures w.slot.full.Some? && Step(w, e).slot.full.Some? ==>
      w.slot.full.value.version <= Step(w, e).slot.full.value.version
  {
    if e.Edit? {
      EditFull(w, e);
    }
  }

  /** A full tree is resident all along the run. */
  ghost predicate KeepsTree(w: World, es: seq<Event>)
    requires Aligned(w) && Possible(w, es)
    decreases |es|
  {
    w.slot.full.Some? && (es == [] || (StepAligned(w, es[0]); KeepsTree(Step(w, es[0]), es[1..])))
  }

  /** Under any policy, in every run that never loses its full tree the resident
      version climbs. */
  lemma {:induction false} ClimbsWhileResident(w: World, es: seq<Event>)
    requires Aligned(w) && Possible(w, es) && KeepsTree(w, es)
    ensures Run(w, es).slot.full.Some?
    ensures w.slot.full.value.version <= Run(w, es).slot.full.value.version
    decreases |es|
  {
    if es != [] {
      VersionStep(w, es[0]);
      StepAligned(w, es[0]);
      ClimbsWhileResident(Step(w, es[0]), es[1..]);
    }
  }

  // ---------------------------------------------------------------------
  // Which step brings an older version back
  // ---------------------------------------------------------------------

  function ResidentVersion(s: Slot): nat { if s.full.Some? then s.full.value.version else 0 }

  function Max(a: nat, b: nat): nat { if a < b then b else a }

  /** The highest version that was resident anywhere along the run. */
  ghost function HighestIn(w: World, es: seq<Event>): nat
    requires Aligned(w) && Possible(w, es)
    decreases |es|
  {
    if es == [] then ResidentVersion(w.slot)
    else
      StepAligned(w, es[0]);
      Max(ResidentVersion(w.slot), HighestIn(Step(w, es[0]), es[1..]))
  }

  lemma HistoryGrows(w: World, e: Event)
    requires Aligned(w) && Enabled(w, e)
    ensures |w.history| <= |Step(w, e).history|
  {
  }

  lemma {:induction false} HistoryOfRun(w: World, es: seq<Event>)
    requires Aligned(w) && Possible(w, es)
    ensures |w.history| <= |Run(w, es).history|
    decreases |es|
  {
    if es != [] {
      HistoryGrows(w, es[0]);
      StepAligned(w, es[0]);
      HistoryOfRun(Step(w, es[0]), es[1..]);
    }
  }

  lemma {:induction false} HighestIsPast(w: World, es: seq<Event>)
    requires Aligned(w) && Possible(w, es)
    ensures ResidentVersion(Run(w, es).slot) <= HighestIn(w, es) <= Current(Run(w, es))
    decreases |es|
  {
    HistoryOfRun(w, es);
    if es != [] {
      StepAligned(w, es[0]);
      HighestIsPast(Step(w, es[0]), es[1..]);
    }
  }

  /** The step makes `version` the resident version. */
  predicate Brings(s: Slot, s': Slot, version: nat) {
    s'.full.Some? && s'.full.value.version == version && (s.full.Some? ==> s.full.value.version != version)
  }

  predicate InstallsLate(w: World, e: Event, version: nat)
    requires w.history != []
  {
    && e.InstallNext? && w.slot.full.None?
    && Admitted(w, e.hotness, e.sameOptions) && Retains(CurrentCfg(w).full, e.hotness, e.age)
    && w.done != [] && w.requested <= w.done[0].version == version
  }

  /** With a tree resident, only a parse of the current version is installed:
      the window starts at the resident tree, so it cannot start at another. */
  lemma InstallsCurrent(w: World, e: Event)
    requires Aligned(w) && Enabled(w, e) && e.InstallNext? && w.slot.full.Some?
    requires AllowsFull(w.slot, w.done[0].version, w.requested, Current(w))
    ensures w.done[0].version == Current(w)
  {
  }

  /** A version becomes resident when it is current, or by a late install. */
  lemma BroughtExactly(w: World, e: Event, version: nat)
    requires Aligned(w) && Enabled(w, e) && version < Current(w)
    ensures Brings(w.slot, Step(w, e).slot, version) <==> InstallsLate(w, e, version)
  {
    match e
    case Edit(_, _, _) => EditFull(w, e);
    case InstallNext(_, _, _) =>
      assert w.done[0].version < |w.history| by { assert TreeAt(w.history, w.done[0].tree, w.done[0].version); }
    case _ => OtherBrings(w, e, version);
  }

  lemma OtherBrings(w: World, e: Event, version: nat)
    requires Aligned(w) && Enabled(w, e) && !e.Edit? && !e.InstallNext? && version < Current(w)
    ensures !Brings(w.slot, Step(w, e).slot, version)
  {
  }

  /** After any run: a step makes a version resident that is below one that was
      resident before if and only if it installs a waiting parse, of a version
      not below the last request, while no tree is resident. */
  lemma RegressesExactly(w: World, es: seq<Event>, e: Event, version: nat)
    requires Aligned(w) && Possible(w, es) && Enabled(Run(w, es), e) && version < HighestIn(w, es)
    ensures Brings(Run(w, es).slot, Step(Run(w, es), e).slot, version) <==> InstallsLate(Run(w, es), e, version)
  {
    HighestIsPast(w, es);
    BroughtExactly(Run(w, es), e, version);
  }

  // ---------------------------------------------------------------------
  // Policies under which that never happens
  // ---------------------------------------------------------------------

  /** The tier works on hidden documents and drops their trees too.  Viewport
      parses exist in the large tier only. */
  predicate Mixes(p: Policy, tier: Tier) {
    var cfg := Cfg(p, tier);
    cfg.parseWhenHidden && (!cfg.full.Keep? || (tier.L? && !cfg.viewport.Keep?))
  }

  ghost predicate NeverMixes(p: Policy) {
    forall text: Text :: !Mixes(p, TierOf(p, text))
  }

  predicate TierSafe(w: World) {
    w.tier.Some? ==> !Mixes(w.policy, w.tier.value)
  }

  ghost predicate TasksAbove(tasks: seq<Task>, epoch: nat, v: nat) {
    forall i :: 0 <= i < |tasks| && tasks[i].epoch == epoch ==> v <= tasks[i].version
  }

  ghost predicate DoneAbove(done: seq<Done>, v: nat) {
    forall i :: 0 <= i < |done| ==> v <= done[i].version
  }

  ghost predicate QueuesAbove(w: World, v: nat) {
    TasksAbove(w.tasks, w.epoch, v) && DoneAbove(w.done, v)
  }

  /** Nothing below `v` is resident or can become so: without a tree, every
      parse that could still be installed is of `v` or later. */
  ghost predicate Floor(w: World, v: nat) {
    && v < |w.history|
    && (if w.slot.full.Some? then v <= w.slot.full.value.version else QueuesAbove(w, v))
  }

  lemma InvalidatedAbove(w: World, v: nat)
    requires EpochsAligned(w.tasks, w.epoch)
    ensures QueuesAbove(Invalidate(w), v)
  {
  }

  lemma EditFloor(w: World, e: Event, v: nat)
    requires Aligned(w) && Enabled(w, e) && Floor(w, v) && e.Edit?
    ensures Floor(Step(w, e), v)
  {
    EditFull(w, e);
  }

  /** A sweep that drops the full tree leaves nothing to come back. */
  lemma SweepFloor(w: World, e: Event, v: nat)
    requires Aligned(w) && Enabled(w, e) && Floor(w, v) && TierSafe(w) && e.Sweep?
    ensures Floor(Step(w, e), v)
  {
    if w.tier.Some? {
      var cfg := Cfg(w.policy, w.tier.value);
      InvalidatedAbove(w, v);
      SweptFull(w.slot, cfg.full, cfg.viewport, e.hotness, e.age);
    }
  }

  lemma SweptFull(s: Slot, full: RetentionPolicy, viewport: RetentionPolicy, h: Hotness, age: nat)
    ensures ApplyRetention(s, full, viewport, h, age).full ==
      if h.Cold? && DropsFull(s, full, age) then None else s.full
  {
  }

  lemma InstallFloor(w: World, e: Event, v: nat)
    requires Aligned(w) && Enabled(w, e) && Floor(w, v) && TierSafe(w) && e.InstallNext?
    ensures Floor(Step(w, e), v)
  {
    var d := w.done[0];
    assert d.version < |w.history| by { assert TreeAt(w.history, d.tree, d.version); }
  }

  lemma ViewportFloor(w: World, e: Event, v: nat)
    requires Aligned(w) && Enabled(w, e) && Floor(w, v) && TierSafe(w) && e.ViewportDone?
    ensures Floor(Step(w, e), v)
  {
  }

  lemma SpawnFloor(w: World, e: Event, v: nat)
    requires Aligned(w) && Enabled(w, e) && Floor(w, v) && e.SpawnBackground?
    ensures Floor(Step(w, e), v)
  {
  }

  lemma TasksWithout(tasks: seq<Task>, epoch: nat, v: nat, i: nat)
    requires TasksAbove(tasks, epoch, v) && i < |tasks|
    ensures TasksAbove(tasks[..i] + tasks[i + 1..], epoch, v)
  {
    var rest := tasks[..i] + tasks[i + 1..];
    forall j | 0 <= j < |rest| && rest[j].epoch == epoch ensures v <= rest[j].version {
      assert rest[j] == tasks[if j < i then j else j + 1];
    }
  }

  lemma FinishFloor(w: World, e: Event, v: nat)
    requires Aligned(w) && Enabled(w, e) && Floor(w, v) && e.Finish?
    ensures Floor(Step(w, e), v)
  {
    if w.slot.full.None? { TasksWithout(w.tasks, w.epoch, v, e.task); }
  }

  lemma OtherFloor(w: World, e: Event, v: nat)
    requires Aligned(w) && Enabled(w, e) && Floor(w, v)
    requires Gates(e) || e.ResetSyntax? || e.ViewportTouched? || e.BootstrapParse?
    ensures Floor(Step(w, e), v)
  {
    InvalidatedAbove(w, v);
  }

  lemma StepFloor(w: World, e: Event, v: nat)
    requires Aligned(w) && Enabled(w, e) && Floor(w, v) && TierSafe(w)
    ensures Floor(Step(w, e), v)
  {
    match e
    case Edit(_, _, _) => EditFloor(w, e, v);
    case Sweep(_, _, _, _) => SweepFloor(w, e, v);
    case InstallNext(_, _, _) => InstallFloor(w, e, v);
    case ViewportDone(_, _, _, _, _, _) => ViewportFloor(w, e, v);
    case SpawnBackground(_) => SpawnFloor(w, e, v);
    case Finish(_, _) => FinishFloor(w, e, v);
    case _ => OtherFloor(w, e, v);
  }

  lemma TierStep(w: World, e: Event)
    requires Aligned(w) && Enabled(w, e) && NeverMixes(w.policy) && TierSafe(w)
    ensures Step(w, e).policy == w.policy && TierSafe(Step(w, e))
  {
  }

  lemma {:induction false} TierOfRun(w: World, es: seq<Event>)
    requires Aligned(w) && Possible(w, es) && NeverMixes(w.policy) && TierSafe(w)
    ensures Run(w, es).policy == w.policy && TierSafe(Run(w, es))
    decreases |es|
  {
    if es != [] {
      TierStep(w, es[0]);
      StepAligned(w, es[0]);
      TierOfRun(Step(w, es[0]), es[1..]);
    }
  }

  lemma {:induction false} FloorOfRun(w: World, es: seq<Event>, v: nat)
    requires Aligned(w) && Possible(w, es) && NeverMixes(w.policy) && TierSafe(w) && Floor(w, v)
    ensures Floor(Run(w, es), v)
    decreases |es|
  {
    if es != [] {
      StepFloor(w, es[0], v);
      TierStep(w, es[0]);
      StepAligned(w, es[0]);
      FloorOfRun(Step(w, es[0]), es[1..], v);
    }
  }

  /** The version resident after `es` and `more` is not below the one resident
      after `es`. */
  ghost predicate Climbs(policy: Policy, text: Text, es: seq<Event>, more: seq<Event>) {
    Possible(Opened(policy, text), es) ==>
      var w := Run(Opened(policy, text), es);
      Possible(w, more) ==>
        var w' := Run(w, more);
        w.slot.full.Some? && w'.slot.full.Some? ==> w.slot.full.value.version <= w'.slot.full.value.version
  }

  /** In no run of any document does the resident version go down, however
      often the tree is dropped and comes back. */
  ghost predicate VersionSafe(policy: Policy) {
    forall text, es, more :: Climbs(policy, text, es, more)
  }

  /** A run of a document under a policy that never mixes. */
  lemma VersionNeverDrops(policy: Policy, text: Text, es: seq<Event>, more: seq<Event>)
    requires NeverMixes(policy)
    ensures Climbs(policy, text, es, more)
  {
    var w0 := Opened(policy, text);
    if Possible(w0, es) && Possible(Run(w0, es), more) && Run(w0, es).slot.full.Some? {
      var w := Run(w0, es);
      TierOfRun(w0, es);
      FloorOfRun(w, more, w.slot.full.value.version);
    }
  }

  lemma NeverMixingIsSafe(policy: Policy)
    requires NeverMixes(policy)
    ensures VersionSafe(policy)
  {
    forall text, es, more ensures Climbs(policy, text, es, more) {
      VersionNeverDrops(policy, text, es, more);
    }
  }

  /** With hidden parsing off, whatever is dropped and when. */
  lemma HiddenParsingOffIsSafe(policy: Policy)
    requires !policy.s.parseWhenHidden && !policy.m.parseWhenHidden && !policy.l.parseWhenHidden
    ensures VersionSafe(policy)
  {
    NeverMixingIsSafe(policy);
  }

  /** So under the policy the editor ships. */
  lemma DefaultPolicyIsSafe()
    ensures VersionSafe(DEFAULT_POLICY)
  {
    HiddenParsingOffIsSafe(DEFAULT_POLICY);
  }

  // ---------------------------------------------------------------------
  // Policies under which it does
  // ---------------------------------------------------------------------

  ghost predicate Reaches(w: World, es: seq<Event>, w': World) {
    Aligned(w) && Possible(w, es) && Run(w, es) == w'
  }

  lemma {:induction false} ReachesThen(w: World, es: seq<Event>, w1: World, fs: seq<Event>, w2: World)
    requires Reaches(w, es, w1) && Reaches(w1, fs, w2)
    ensures Reaches(w, es + fs, w2)
    decreases |es|
  {
    if es == [] {
      assert es + fs == fs;
    } else {
      var e, tail := es[0], es[1..];
      assert es == [e] + tail;
      ReachesCons(w, e, tail, w1);
      ReachesThen(Step(w, e), tail, w1, fs, w2);
      ReachesCons(w, e, tail + fs, w2);
      Assoc([e], tail, fs);
    }
  }

  lemma ReachesCons(w: World, e: Event, es: seq<Event>, w': World)
    requires Aligned(w) && Enabled(w, e)
    ensures Aligned(Step(w, e))
    ensures Reaches(w, [e] + es, w') <==> Reaches(Step(w, e), es, w')
  {
    StepAligned(w, e);
    assert ([e] + es)[0] == e && ([e] + es)[1..] == es;
  }

  lemma ReachesOne(w: World, e: Event)
    requires Aligned(w) && Enabled(w, e)
    ensures Aligned(Step(w, e)) && Reaches(w, [e], Step(w, e))
  {
    StepAligned(w, e);
    assert [e][1..] == [];
  }

  lemma ReachesTwo(w: World, d: Event, e: Event)
    requires Aligned(w) && Enabled(w, d)
    requires Aligned(Step(w, d)) ==> Enabled(Step(w, d), e)
    ensures Aligned(Step(w, d)) && Reaches(w, [d] + [e], Step(Step(w, d), e))
  {
    ReachesOne(w, d);
    ReachesOne(Step(w, d), e);
    ReachesThen(w, [d], Step(w, d), [e], Step(Step(w, d), e));
  }

  /** A tree is resident, and an older parse, not below the last request, waits
      while a poll is due. */
  ghost predicate Overdue(w: World) {
    && Aligned(w) && Polled(w) && !Live(w) && w.slot.full.Some? && w.done != []
    && w.requested <= w.done[0].version < w.slot.full.value.version
  }

  /** A time at which the policy has expired, if it ever does. */
  function Past(policy: RetentionPolicy): nat { if policy.DropAfter? then policy.ttl + 1 else 0 }

  /** The tree is swept away while the document is hidden, and the waiting parse
      is installed when it is shown. */
  function SweptAway(cfg: TierCfg): seq<Event> {
    [Sweep(Cold, Past(cfg.full), false, false)] + [InstallNext(Visible, 0, true)]
  }

  /** A poll while hidden takes a viewport result that may not be kept, and then
      the waiting parse. */
  function TakenAway(cfg: TierCfg, version: nat): seq<Event> {
    [ViewportDone(0, false, version, true, Cold, Past(cfg.viewport))] + [InstallNext(Cold, Past(cfg.viewport), true)]
  }

  lemma LateInstall(w: World, h: Hotness, age: nat)
    requires Aligned(w) && Polled(w) && w.slot.full.None? && w.done != [] && w.requested <= w.done[0].version
    requires !WorkDisabled(CurrentCfg(w), h) && Retains(CurrentCfg(w).full, h, age)
    ensures var e := InstallNext(h, age, true);
      && Enabled(w, e) && Step(w, e).slot.full.Some?
      && Step(w, e).slot.full.value.version == w.done[0].version
  {
  }

  lemma SweptThenInstalled(w: World)
    requires Overdue(w) && CurrentCfg(w).parseWhenHidden && !CurrentCfg(w).full.Keep?
    ensures var es := SweptAway(CurrentCfg(w));
      && Possible(w, es) && Run(w, es).slot.full.Some?
      && Run(w, es).slot.full.value.version == w.done[0].version
  {
    var cfg := CurrentCfg(w);
    var sweep := Sweep(Cold, Past(cfg.full), false, false);
    SweptFull(w.slot, cfg.full, cfg.viewport, Cold, Past(cfg.full));
    ReachesOne(w, sweep);
    LateInstall(Step(w, sweep), Visible, 0);
    ReachesTwo(w, sweep, InstallNext(Visible, 0, true));
  }

  lemma TakenThenInstalled(w: World)
    requires Overdue(w) && CurrentTier(w).L?
    requires CurrentCfg(w).parseWhenHidden && CurrentCfg(w).full.Keep? && !CurrentCfg(w).viewport.Keep?
    ensures var es := TakenAway(CurrentCfg(w), Current(w));
      && Possible(w, es) && Run(w, es).slot.full.Some?
      && Run(w, es).slot.full.value.version == w.done[0].version
  {
    var age := Past(CurrentCfg(w).viewport);
    var taken := ViewportDone(0, false, Current(w), true, Cold, age);
    assert Step(w, taken) == w.(slot := RetentionDrop(w.slot));
    ReachesOne(w, taken);
    LateInstall(Step(w, taken), Cold, age);
    ReachesTwo(w, taken, InstallNext(Cold, age, true));
  }

  /** How the older version comes back in a tier that mixes. */
  function Regression(cfg: TierCfg, version: nat): seq<Event> {
    if cfg.full.Keep? then TakenAway(cfg, version) else SweptAway(cfg)
  }

  /** From every overdue state in a tier that mixes the older version does come
      back. */
  lemma OverdueRegresses(w: World)
    requires Overdue(w) && Mixes(w.policy, CurrentTier(w))
    ensures var es := Regression(CurrentCfg(w), Current(w));
      && Possible(w, es) && Run(w, es).slot.full.Some?
      && Run(w, es).slot.full.value.version == w.done[0].version < w.slot.full.value.version
  {
    if CurrentCfg(w).full.Keep? { TakenThenInstalled(w); } else { SweptThenInstalled(w); }
  }

  const SPAWN := SpawnBackground(Visible)
  const FINISH := Finish(0, true)
  const FIRST_POLL := [Ensure] + [NewLanguage(Some(0))]
  const FIRST_PARSE := [SPAWN] + [FINISH]
  const SHOWN := [InstallNext(Visible, 0, true)]

  /** The document is opened, parsed in the background and shown. */
  const START := FIRST_POLL + FIRST_PARSE + SHOWN

  lemma Spawned(w: World)
    requires Aligned(w) && Polled(w) && w.tasks == [] && (w.slot.dirty || w.slot.full.None?)
    ensures Enabled(w, SPAWN)
    ensures var w' := Step(w, SPAWN);
      && w' == w.(tasks := w'.tasks, requested := Current(w)) && |w'.tasks| == 1
      && w'.tasks[0].version == Current(w) && w'.tasks[0].epoch == w.epoch
      && TaskText(w'.tasks[0]) == CurrentText(w)
  {
  }

  lemma Finished(w: World)
    requires Aligned(w) && |w.tasks| == 1 && w.tasks[0].epoch == w.epoch && w.done == []
    requires Parsable(TaskText(w.tasks[0]))
    ensures Enabled(w, FINISH)
    ensures Step(w, FINISH) == w.(tasks := [], done := [Done(w.tasks[0].version, RunTask(w.tasks[0]))])
  {
  }

  lemma FirstPolled(policy: Policy, text: Text) returns (w: World)
    ensures Reaches(Opened(policy, text), FIRST_POLL, w) && Aligned(w)
    ensures Polled(w) && w.policy == policy && w.slot == EMPTY_SLOT && w.history == [text]
    ensures w.tasks == [] && w.done == [] && w.requested == 0
  {
    var w0 := Opened(policy, text);
    ReachesTwo(w0, Ensure, NewLanguage(Some(0)));
    w := Step(Step(w0, Ensure), NewLanguage(Some(0)));
  }

  lemma FirstParsed(w: World) returns (w': World)
    requires Aligned(w) && Polled(w) && w.tasks == [] && w.done == [] && (w.slot.dirty || w.slot.full.None?)
    requires Parsable(CurrentText(w))
    ensures Reaches(w, FIRST_PARSE, w') && Aligned(w')
    ensures w' == w.(requested := Current(w), done := w'.done)
    ensures |w'.done| == 1 && w'.done[0].version == Current(w)
  {
    Spawned(w);
    ReachesOne(w, SPAWN);
    var w1 := Step(w, SPAWN);
    Finished(w1);
    ReachesTwo(w, SPAWN, FINISH);
    w' := Step(w1, FINISH);
  }

  lemma Shown(w: World) returns (w': World)
    requires Aligned(w) && Polled(w) && w.slot.full.None? && w.tasks == []
    requires |w.done| == 1 && w.done[0].version == Current(w) == w.requested
    ensures Reaches(w, SHOWN, w') && Aligned(w') && Polled(w')
    ensures w' == w.(slot := w'.slot, log := w'.log, done := [])
    ensures w'.slot.full.Some? && w'.slot.full.value.version == Current(w) && w'.slot.pending.None?
  {
    ReachesOne(w, SHOWN[0]);
    w' := Step(w, SHOWN[0]);
  }

  /** A freshly parsed document. */
  ghost predicate Fresh(w: World, policy: Policy, text: Text) {
    && Aligned(w) && w.policy == policy && w.history == [text] && w.language.Some?
    && w.tasks == [] && w.done == [] && SyncAttempted(w.slot, 0)
  }

  lemma Started(policy: Policy, text: Text) returns (w: World)
    requires Parsable(text)
    ensures Reaches(Opened(policy, text), START, w) && Fresh(w, policy, text)
  {
    var w0 := Opened(policy, text);
    var w1 := FirstPolled(policy, text);
    var w2 := FirstParsed(w1);
    w := Shown(w2);
    ReachesThen(w0, FIRST_POLL, w1, FIRST_PARSE, w2);
    ReachesThen(w0, FIRST_POLL + FIRST_PARSE, w2, SHOWN, w);
  }

  const ASK := [Ensure] + [SPAWN]

  /** An update times out, and the background is asked to catch up. */
  function Missed(one: ChangeSet): seq<Event> {
    [Edit(one, Typing, FailedAfterEdit)] + ASK
  }

  function LastOutcome(text: Text): SyncOutcome { if Parsable(text) then Updated else Failed }

  /** The next updates succeed, the last one unless the text is too long. */
  function Caught(two: ChangeSet, three: ChangeSet, last: SyncOutcome): seq<Event> {
    [Edit(two, Typing, Updated)] + [Edit(three, Typing, last)]
  }

  /** Only then, after another poll, does the background parse finish. */
  const LATE := [Ensure] + [FINISH]

  lemma MissedUpdate(w: World, one: ChangeSet, text: Text) returns (w': World)
    requires Aligned(w) && w.language.Some? && w.tasks == [] && SyncAttempted(w.slot, Current(w))
    requires Leads(one, CurrentText(w), text) && Parsable(text)
    ensures Reaches(w, Missed(one), w') && Aligned(w')
    ensures w'.policy == w.policy && w'.language == w.language && w'.done == w.done && w'.requested == |w.history|
    ensures |w'.history| == |w.history| + 1 && CurrentText(w') == text
    ensures |w'.tasks| == 1 && w'.tasks[0].version == |w.history| && w'.tasks[0].epoch == w'.epoch
    ensures TaskText(w'.tasks[0]) == CurrentText(w') && SyncAttempted(w'.slot, Current(w'))
  {
    var edit := Edit(one, Typing, FailedAfterEdit);
    TypingStep(w, one, FailedAfterEdit);
    ReachesOne(w, edit);
    var w1 := Step(w, edit);
    w' := Asked(w1);
    ReachesThen(w, [edit], w1, ASK, w');
  }

  /** A poll that finds the tree behind asks for a background parse. */
  lemma Asked(w: World) returns (w': World)
    requires Aligned(w) && w.language.Some? && w.tasks == [] && w.slot.dirty
    ensures Reaches(w, ASK, w') && Aligned(w')
    ensures w' == w.(tier := Some(CurrentTier(w)), tasks := w'.tasks, requested := Current(w))
    ensures |w'.tasks| == 1 && w'.tasks[0].version == Current(w) && w'.tasks[0].epoch == w.epoch
    ensures TaskText(w'.tasks[0]) == CurrentText(w)
  {
    EnsurePolls(w);
    var w1 := Step(w, Ensure);
    Spawned(w1);
    ReachesOne(w1, SPAWN);
    w' := Step(w1, SPAWN);
    ReachesThen(w, [Ensure], w1, [SPAWN], w');
  }

  lemma EnsurePolls(w: World)
    requires Aligned(w) && w.language.Some?
    ensures Step(w, Ensure) == w.(tier := Some(CurrentTier(w)))
    ensures Aligned(Step(w, Ensure)) && Polled(Step(w, Ensure)) && Reaches(w, [Ensure], Step(w, Ensure))
  {
    ReachesOne(w, Ensure);
  }

  lemma CaughtUp(w: World, two: ChangeSet, text: Text, three: ChangeSet, end: Text) returns (w': World)
    requires Aligned(w) && SyncAttempted(w.slot, Current(w))
    requires Leads(two, CurrentText(w), text) && Parsable(text) && Leads(three, text, end)
    ensures Reaches(w, Caught(two, three, LastOutcome(end)), w') && Aligned(w')
    ensures w' == w.(slot := w'.slot, history := w'.history, log := w'.log)
    ensures |w'.history| == |w.history| + 2 && CurrentText(w') == end
    ensures w'.slot.full.Some? && w'.slot.full.value.version > Current(w)
  {
    var edit, edit' := Edit(two, Typing, Updated), Edit(three, Typing, LastOutcome(end));
    TypingStep(w, two, Updated);
    ReachesOne(w, edit);
    var w1 := Step(w, edit);
    TypingStep(w1, three, LastOutcome(end));
    ReachesTwo(w, edit, edit');
    w' := Step(w1, edit');
  }

  lemma FinishedLate(w: World) returns (w': World)
    requires Aligned(w) && w.language.Some? && w.slot.full.Some?
    requires |w.tasks| == 1 && w.tasks[0].epoch == w.epoch && Parsable(TaskText(w.tasks[0])) && w.done == []
    requires w.requested == w.tasks[0].version < w.slot.full.value.version
    ensures Reaches(w, LATE, w') && Overdue(w')
    ensures w'.policy == w.policy && w'.history == w.history && w'.slot == w.slot
    ensures w'.done[0].version == w.tasks[0].version
  {
    EnsurePolls(w);
    var w1 := Step(w, Ensure);
    Finished(w1);
    ReachesOne(w1, FINISH);
    w' := Step(w1, FINISH);
    ReachesThen(w, [Ensure], w1, [FINISH], w');
    OverdueNow(w1, Done(w.tasks[0].version, RunTask(w.tasks[0])));
  }

  lemma LateAfter(w0: World, es: seq<Event>, w: World) returns (w': World)
    requires Reaches(w0, es, w) && Aligned(w) && w.language.Some? && w.slot.full.Some? && w.done == []
    requires |w.tasks| == 1 && w.tasks[0].epoch == w.epoch && Parsable(TaskText(w.tasks[0]))
    requires w.requested == w.tasks[0].version < w.slot.full.value.version
    ensures Reaches(w0, es + LATE, w') && Overdue(w')
    ensures w'.policy == w.policy && |w'.history| == |w.history| && w'.slot == w.slot
    ensures CurrentText(w') == CurrentText(w)
    ensures w'.done[0].version == w.tasks[0].version
  {
    w' := FinishedLate(w);
    SameText(w, w');
    ReachesThen(w0, es, w, LATE, w');
  }

  lemma SameText(w: World, w': World)
    requires w.history != [] && w'.history == w.history
    ensures CurrentText(w') == CurrentText(w)
  {
  }

  lemma OverdueNow(w: World, d: Done)
    requires w.history != [] && Aligned(w.(tasks := [], done := [d])) && Polled(w) && w.slot.full.Some?
    requires w.requested <= d.version < w.slot.full.value.version
    ensures Overdue(w.(tasks := [], done := [d]))
  {
  }

  function Behind(one: ChangeSet): seq<Event> { START + Missed(one) }

  function Ahead(two: ChangeSet, three: ChangeSet, last: SyncOutcome): seq<Event> { Caught(two, three, last) + LATE }

  /** Parse; miss an update; ask for a background parse; catch the next edits;
      and let the background parse finish. */
  function LateRun(one: ChangeSet, two: ChangeSet, three: ChangeSet, last: SyncOutcome): seq<Event> {
    Behind(one) + Ahead(two, three, last)
  }

  /** Three edits through four texts, the first three of which can be parsed.
      An update for a change that changes nothing cannot fail. */
  predicate Edits(t: seq<Text>, one: ChangeSet, two: ChangeSet, three: ChangeSet) {
    && |t| == 4 && Leads(one, t[0], t[1]) && Leads(two, t[1], t[2]) && Leads(three, t[2], t[3])
    && Parsable(t[0]) && Parsable(t[1]) && Parsable(t[2]) && !Identity(one)
  }

  /** A background parse of the current version is in flight, and the next update
      can be made on the resident tree. */
  ghost predicate IsBehind(w: World) {
    && Aligned(w) && w.language.Some? && w.done == [] && SyncAttempted(w.slot, Current(w))
    && |w.tasks| == 1 && w.tasks[0].version == Current(w) == w.requested && w.tasks[0].epoch == w.epoch
    && TaskText(w.tasks[0]) == CurrentText(w)
  }

  lemma FallsBehind(policy: Policy, start: Text, one: ChangeSet, text: Text) returns (w: World)
    requires Leads(one, start, text) && Parsable(start) && Parsable(text)
    ensures Reaches(Opened(policy, start), Behind(one), w) && IsBehind(w)
    ensures w.policy == policy && |w.history| == 2 && CurrentText(w) == text
  {
    var w1 := Started(policy, start);
    w := MissedUpdate(w1, one, text);
    ReachesThen(Opened(policy, start), START, w1, Missed(one), w);
  }

  lemma GetsAhead(w: World, two: ChangeSet, text: Text, three: ChangeSet, end: Text) returns (w': World)
    requires IsBehind(w) && Parsable(CurrentText(w))
    requires Leads(two, CurrentText(w), text) && Parsable(text) && Leads(three, text, end)
    ensures Reaches(w, Ahead(two, three, LastOutcome(end)), w') && Overdue(w')
    ensures w'.policy == w.policy && |w'.history| == |w.history| + 2 && CurrentText(w') == end
    ensures w'.slot.full.value.version > Current(w) == w'.done[0].version
  {
    var w1 := CaughtUp(w, two, text, three, end);
    w' := LateAfter(w, Caught(two, three, LastOutcome(end)), w1);
  }

  /** Whatever the policy, such a run ends in an overdue state. */
  lemma LateRunIsOverdue(policy: Policy, t: seq<Text>, one: ChangeSet, two: ChangeSet, three: ChangeSet)
    requires Edits(t, one, two, three)
    ensures var es := LateRun(one, two, three, LastOutcome(t[3]));
      && Possible(Opened(policy, t[0]), es)
      && var w := Run(Opened(policy, t[0]), es);
         && Overdue(w) && w.policy == policy && |w.history| == 4 && CurrentText(w) == t[3]
         && w.slot.full.value.version >= 2 && w.done[0].version == 1
  {
    var w := FallsBehind(policy, t[0], one, t[1]);
    var w' := GetsAhead(w, two, t[2], three, t[3]);
    ReachesThen(Opened(policy, t[0]), Behind(one), w, Ahead(two, three, LastOutcome(t[3])), w');
  }

  /** On every text, with every three such edits into a tier that mixes, the
      resident version does go down. */
  lemma VersionMayDrop(policy: Policy, t: seq<Text>, one: ChangeSet, two: ChangeSet, three: ChangeSet)
    requires Edits(t, one, two, three) && Mixes(policy, TierOf(policy, t[3]))
    ensures
      var es, more := LateRun(one, two, three, LastOutcome(t[3])), Regression(Cfg(policy, TierOf(policy, t[3])), 3);
      && Possible(Opened(policy, t[0]), es) && Possible(Run(Opened(policy, t[0]), es), more)
      && var w, w' := Run(Opened(policy, t[0]), es), Run(Run(Opened(policy, t[0]), es), more);
         && w.slot.full.Some? && w.slot.full.value.version >= 2
         && w'.slot.full.Some? && w'.slot.full.value.version == 1
  {
    LateRunIsOverdue(policy, t, one, two, three);
    OverdueRegresses(Run(Opened(policy, t[0]), LateRun(one, two, three, LastOutcome(t[3]))));
  }

  /** Edits that lead to a given text. */
  lemma EditsTo(text: Text) returns (one: ChangeSet, two: ChangeSet, three: ChangeSet)
    ensures Edits(["", "x", "", text], one, two, three)
  {
    one, two := ChangeSet([Insert("x")], 0, 1), ChangeSet([Delete(1)], 1, 0);
    three := if text == "" then ChangeSet([], 0, 0) else ChangeSet([Insert(text)], 0, |text|);
    InsertsAll("x");
    DeletesOne("x");
    if text != "" { InsertsAll(text); }
  }

  lemma InsertsAll(text: Text)
    requires text != ""
    ensures var c := ChangeSet([Insert(text)], 0, |text|); !Identity(c) && Leads(c, "", text)
  {
    var ops := [Insert(text)];
    assert ops[1..] == [] && ops[0].Insert?;
    assert Out(ops, "") == text + Out([], "");
  }

  lemma DeletesOne(text: Text)
    requires |text| == 1
    ensures Leads(ChangeSet([Delete(1)], 1, 0), text, "")
  {
    var ops := [Delete(1)];
    assert ops[1..] == [];
    assert text[..1] == text && text[1..] == "";
  }

  lemma MixingIsUnsafe(policy: Policy, text: Text)
    requires Mixes(policy, TierOf(policy, text))
    ensures !VersionSafe(policy)
  {
    var one, two, three := EditsTo(text);
    VersionMayDrop(policy, ["", "x", "", text], one, two, three);
    var es, more := LateRun(one, two, three, LastOutcome(text)), Regression(Cfg(policy, TierOf(policy, text)), 3);
    assert !Climbs(policy, "", es, more);
  }

  /** The resident version never goes down, in any run of any document, if and
      only if no text has a tier that both parses and drops while hidden. */
  lemma VersionSafeExactly(policy: Policy)
    ensures VersionSafe(policy) <==> NeverMixes(policy)
  {
    if NeverMixes(policy) {
      NeverMixingIsSafe(policy);
    } else {
      var text: Text :| Mixes(policy, TierOf(policy, text));
      MixingIsUnsafe(policy, text);
    }
  }
}
