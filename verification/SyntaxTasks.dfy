/** Background parse tasks of the syntax manager (crates/syntax/src/{tasks,scheduling,completion,core}.rs).

Documents have an epoch, three task lanes and a queue of completed results;
tasks hold a permit while they run and stay with the collector until they are
drained.  `generation` counts a document's invalidations without wrapping, next
to the 64-bit epoch that the source compares.
 */
module SyntaxTasks {
  import opened Prelude

  type Doc = nat
  type TaskId = nat

  datatype Lane = Urgent | Enrich | Background

  datatype Lanes = Lanes(urgent: Option<TaskId>, enrich: Option<TaskId>, bg: Option<TaskId>)

  const IDLE := Lanes(None, None, None)

  datatype Completed = Completed(task: TaskId, generation: nat)

  datatype Sched = Sched(epoch: nat, generation: nat, lanes: Lanes, completed: seq<Completed>)

  const NEW_SCHED := Sched(0, 0, IDLE, [])

  datatype Task = Task(doc: Doc, epoch: nat, generation: nat, lane: Lane)

  /** `running` tasks hold permits; `privileged` are those spawned as urgent.
      `seen` are the documents ever opened: their ids are never reused. */
  datatype State = State(
    max: nat,
    reserve: nat,
    entries: map<Doc, Sched>,
    seen: set<Doc>,
    tasks: map<TaskId, Task>,
    running: set<TaskId>,
    privileged: set<TaskId>,
    nextId: TaskId)

  datatype Event =
    | Open(doc: Doc)
    | Spawn(doc: Doc, lane: Lane, urgent: bool)
    | Finish(task: TaskId)
    | Drain(task: TaskId)
    | Invalidate(doc: Doc)
    | Install(doc: Doc)
    | Close(doc: Doc)

  /** `SyntaxManager::new`: at least one permit, and a reserve below it. */
  function Configured(maxConcurrency: nat, viewportReserve: nat): (s: State)
    ensures s.reserve < s.max && (maxConcurrency > 0 ==> s.max == maxConcurrency)
    ensures s.reserve != viewportReserve ==> s.reserve == s.max - 1 < viewportReserve
  {
    var max := if maxConcurrency == 0 then 1 else maxConcurrency;
    var reserve := if viewportReserve < max then viewportReserve else max - 1;
    State(max, reserve, map[], {}, map[], {}, {}, 0)
  }

  // ---------------------------------------------------------------------
  // Operations as values
  // ---------------------------------------------------------------------

  function Free(s: State): int { s.max - |s.running| }

  predicate MaySpawn(s: State, urgent: bool) {
    if urgent then Free(s) > 0 else Free(s) > s.reserve
  }

  function SetLane(lanes: Lanes, lane: Lane, id: Option<TaskId>): Lanes {
    match lane
    case Urgent => lanes.(urgent := id)
    case Enrich => lanes.(enrich := id)
    case Background => lanes.(bg := id)
  }

  function GetLane(lanes: Lanes, lane: Lane): Option<TaskId> {
    match lane
    case Urgent => lanes.urgent
    case Enrich => lanes.enrich
    case Background => lanes.bg
  }

  /** A refused spawn changes nothing. */
  function Spawned(s: State, doc: Doc, lane: Lane, urgent: bool): State
    requires doc in s.entries
  {
    if !MaySpawn(s, urgent) then s
    else
      var sched, id := s.entries[doc], s.nextId;
      s.(tasks := s.tasks[id := Task(doc, sched.epoch, sched.generation, lane)],
         running := s.running + {id},
         privileged := if urgent then s.privileged + {id} else s.privileged,
         nextId := id + 1,
         entries := s.entries[doc := sched.(lanes := SetLane(sched.lanes, lane, Some(id)))])
  }

  function Finished(s: State, id: TaskId): State {
    s.(running := s.running - {id}, privileged := s.privileged - {id})
  }

  /** A lane is cleared only by its own task; the background lane is looked at
      for every result. */
  function Cleared(lanes: Lanes, lane: Lane, id: TaskId): Lanes {
    var l :=
      if lane.Urgent? && lanes.urgent == Some(id) then lanes.(urgent := None)
      else if lane.Enrich? && lanes.enrich == Some(id) then lanes.(enrich := None)
      else lanes;
    if l.bg == Some(id) then l.(bg := None) else l
  }

  /** What one finished task does to its document: nothing if it is closed. */
  function Delivered(entries: map<Doc, Sched>, id: TaskId, t: Task): map<Doc, Sched> {
    if t.doc !in entries then entries
    else
      var sched := entries[t.doc];
      var sched' := sched.(lanes := Cleared(sched.lanes, t.lane, id));
      if sched.epoch != t.epoch then entries[t.doc := sched']
      else entries[t.doc := sched'.(completed := sched.completed + [Completed(id, t.generation)])]
  }

  function Drained(s: State, id: TaskId): State
    requires id in s.tasks
  {
    s.(tasks := s.tasks - {id}, entries := Delivered(s.entries, id, s.tasks[id]))
  }

  function Invalidated(sched: Sched): Sched {
    Sched((sched.epoch + 1) % U64, sched.generation + 1, IDLE, [])
  }

  predicate Enabled(s: State, e: Event) {
    match e
    case Open(doc) => doc !in s.seen
    case Spawn(doc, _, _) => doc in s.entries
    case Finish(id) => id in s.running
    case Drain(id) => id in s.tasks && id !in s.running
    case Invalidate(doc) => doc in s.entries
    case Install(doc) => doc in s.entries
    case Close(doc) => true
  }

  function Step(s: State, e: Event): State
    requires Enabled(s, e)
  {
    match e
    case Open(doc) => s.(entries := s.entries[doc := NEW_SCHED], seen := s.seen + {doc})
    case Spawn(doc, lane, urgent) => Spawned(s, doc, lane, urgent)
    case Finish(id) => Finished(s, id)
    case Drain(id) => Drained(s, id)
    case Invalidate(doc) => s.(entries := s.entries[doc := Invalidated(s.entries[doc])])
    case Install(doc) => s.(entries := s.entries[doc := s.entries[doc].(completed := [])])
    case Close(doc) => s.(entries := s.entries - {doc})
  }

  // ---------------------------------------------------------------------
  // Invariant
  // ---------------------------------------------------------------------

  ghost predicate PermitsOk(s: State) {
    && s.reserve < s.max
    && s.privileged <= s.running && (forall id :: id in s.running ==> id in s.tasks)
    && |s.running| <= s.max
    && |s.running - s.privileged| <= s.max - s.reserve
  }

  /** Tasks carry the epoch of a generation their document has been through. */
  ghost predicate TasksOk(s: State) {
    && (forall id :: id in s.tasks ==>
          id < s.nextId && s.tasks[id].doc in s.seen && s.tasks[id].epoch == s.tasks[id].generation % U64)
    && (forall id :: id in s.tasks && s.tasks[id].doc in s.entries ==>
          s.tasks[id].generation <= s.entries[s.tasks[id].doc].generation)
    && (forall doc :: doc in s.entries ==>
          doc in s.seen && s.entries[doc].epoch == s.entries[doc].generation % U64)
  }

  /** An occupied lane belongs to a task that will still be drained. */
  ghost predicate LanesOk(s: State) {
    forall doc, lane :: doc in s.entries && GetLane(s.entries[doc].lanes, lane).Some? ==>
      LaneHeld(s, doc, lane, GetLane(s.entries[doc].lanes, lane).value)
  }

  predicate LaneHeld(s: State, doc: Doc, lane: Lane, id: TaskId) {
    && id in s.tasks && doc in s.entries
    && s.tasks[id].doc == doc && s.tasks[id].lane == lane && s.tasks[id].generation == s.entries[doc].generation
  }

  ghost predicate Inv(s: State) { PermitsOk(s) && TasksOk(s) && LanesOk(s) }

  lemma ConfiguredInv(maxConcurrency: nat, viewportReserve: nat)
    ensures Inv(Configured(maxConcurrency, viewportReserve))
  {
  }

  lemma SpawnPermits(s: State, doc: Doc, lane: Lane, urgent: bool)
    requires Inv(s) && doc in s.entries
    ensures PermitsOk(Spawned(s, doc, lane, urgent))
  {
    if MaySpawn(s, urgent) {
      assert s.nextId !in s.running;
      AddRunning(s.running, s.privileged, s.nextId, urgent);
    }
  }

  lemma AddRunning(running: set<TaskId>, privileged: set<TaskId>, id: TaskId, urgent: bool)
    requires privileged <= running && id !in running
    ensures |running + {id}| == |running| + 1
    ensures urgent ==> |(running + {id}) - (privileged + {id})| == |running - privileged|
    ensures !urgent ==> |(running + {id}) - privileged| == |running - privileged| + 1 <= |running| + 1
  {
    assert (running + {id}) - (privileged + {id}) == running - privileged;
    assert (running + {id}) - privileged == (running - privileged) + {id};
    SubsetSize(running - privileged, running);
  }

  lemma SpawnLanes(s: State, doc: Doc, lane: Lane, urgent: bool)
    requires Inv(s) && doc in s.entries
    ensures LanesOk(Spawned(s, doc, lane, urgent))
  {
    var s' := Spawned(s, doc, lane, urgent);
    forall d, l | d in s'.entries && GetLane(s'.entries[d].lanes, l).Some?
      ensures LaneHeld(s', d, l, GetLane(s'.entries[d].lanes, l).value)
    {
      if !(d == doc && l == lane && MaySpawn(s, urgent)) {
        assert GetLane(s'.entries[d].lanes, l) == GetLane(s.entries[d].lanes, l);
        assert LaneHeld(s, d, l, GetLane(s.entries[d].lanes, l).value);
      }
    }
  }

  lemma FinishPermits(s: State, id: TaskId)
    requires PermitsOk(s) && id in s.running
    ensures PermitsOk(Finished(s, id))
  {
    var s' := Finished(s, id);
    SubsetSize(s'.running, s.running);
    assert s'.running - s'.privileged <= s.running - s.privileged;
    SubsetSize(s'.running - s'.privileged, s.running - s.privileged);
  }

  lemma DrainLanes(s: State, id: TaskId)
    requires Inv(s) && Enabled(s, Drain(id))
    ensures LanesOk(Drained(s, id))
  {
    var s', t := Drained(s, id), s.tasks[id];
    forall d, l | d in s'.entries && GetLane(s'.entries[d].lanes, l).Some?
      ensures LaneHeld(s', d, l, GetLane(s'.entries[d].lanes, l).value)
    {
      var held := GetLane(s'.entries[d].lanes, l).value;
      assert GetLane(s.entries[d].lanes, l) == Some(held);
      assert LaneHeld(s, d, l, held);
      assert held != id;
    }
  }

  lemma SpawnTasks(s: State, doc: Doc, lane: Lane, urgent: bool)
    requires TasksOk(s) && doc in s.entries
    ensures TasksOk(Spawned(s, doc, lane, urgent))
  {
  }

  lemma DrainTasks(s: State, id: TaskId)
    requires TasksOk(s) && id in s.tasks
    ensures TasksOk(Drained(s, id))
  {
    var s' := Drained(s, id);
    assert forall doc :: doc in s'.entries ==>
      && doc in s.entries && s'.entries[doc].generation == s.entries[doc].generation
      && s'.entries[doc].epoch == s.entries[doc].epoch;
  }

  lemma SpawnInv(s: State, doc: Doc, lane: Lane, urgent: bool)
    requires Inv(s) && doc in s.entries
    ensures Inv(Spawned(s, doc, lane, urgent))
  {
    SpawnPermits(s, doc, lane, urgent);
    SpawnTasks(s, doc, lane, urgent);
    SpawnLanes(s, doc, lane, urgent);
  }

  lemma DrainInv(s: State, id: TaskId)
    requires Inv(s) && id in s.tasks && id !in s.running
    ensures Inv(Drained(s, id))
  {
    DrainTasks(s, id);
    DrainLanes(s, id);
  }

  lemma FinishInv(s: State, id: TaskId)
    requires Inv(s) && id in s.running
    ensures Inv(Finished(s, id))
  {
    FinishPermits(s, id);
    var s' := Finished(s, id);
    forall d, l | d in s'.entries && GetLane(s'.entries[d].lanes, l).Some?
      ensures LaneHeld(s', d, l, GetLane(s'.entries[d].lanes, l).value)
    {
      assert LaneHeld(s, d, l, GetLane(s.entries[d].lanes, l).value);
    }
  }

  lemma StepInv(s: State, e: Event)
    requires Inv(s) && Enabled(s, e)
    ensures Inv(Step(s, e)) && Step(s, e).max == s.max && Step(s, e).reserve == s.reserve
  {
    match e
    case Spawn(doc, lane, urgent) => SpawnInv(s, doc, lane, urgent);
    case Finish(id) => FinishInv(s, id);
    case Drain(id) => DrainInv(s, id);
    case _ => OtherInv(s, e);
  }

  lemma OtherInv(s: State, e: Event)
    requires Inv(s) && Enabled(s, e) && (e.Open? || e.Invalidate? || e.Install? || e.Close?)
    ensures Inv(Step(s, e))
  {
    OtherTasks(s, e);
    OtherLanes(s, e);
  }

  lemma OtherTasks(s: State, e: Event)
    requires TasksOk(s) && Enabled(s, e) && (e.Open? || e.Invalidate? || e.Install? || e.Close?)
    ensures TasksOk(Step(s, e))
  {
    match e
    case Invalidate(doc) => InvalidateTasks(s, doc);
    case Install(doc) => InstallTasks(s, doc);
    case _ => EntryTasks(s, e);
  }

  lemma EntryTasks(s: State, e: Event)
    requires TasksOk(s) && Enabled(s, e) && (e.Open? || e.Close?)
    ensures TasksOk(Step(s, e))
  {
  }

  lemma InvalidateTasks(s: State, doc: Doc)
    requires TasksOk(s) && doc in s.entries
    ensures TasksOk(s.(entries := s.entries[doc := Invalidated(s.entries[doc])]))
  {
    NextResidue(s.entries[doc].generation);
  }

  lemma InstallTasks(s: State, doc: Doc)
    requires TasksOk(s) && doc in s.entries
    ensures TasksOk(s.(entries := s.entries[doc := s.entries[doc].(completed := [])]))
  {
  }

  lemma OtherLanes(s: State, e: Event)
    requires LanesOk(s) && Enabled(s, e) && (e.Open? || e.Invalidate? || e.Install? || e.Close?)
    ensures LanesOk(Step(s, e))
  {
    var s' := Step(s, e);
    forall d, l | d in s'.entries && GetLane(s'.entries[d].lanes, l).Some?
      ensures LaneHeld(s', d, l, GetLane(s'.entries[d].lanes, l).value)
    {
      assert d in s.entries && GetLane(s.entries[d].lanes, l) == GetLane(s'.entries[d].lanes, l);
      assert LaneHeld(s, d, l, GetLane(s.entries[d].lanes, l).value);
    }
  }

  // ---------------------------------------------------------------------
  // Permits
  // ---------------------------------------------------------------------

  /** With a reserve, an urgent spawn is refused only while another urgent task
      is running. */
  lemma UrgentRefusedByUrgent(s: State)
    requires Inv(s) && s.reserve > 0 && !MaySpawn(s, true)
    ensures exists id :: id in s.running && id in s.privileged
  {
    assert s.privileged == {} ==> s.running - s.privileged == s.running;
    var id :| id in s.privileged;
    assert id in s.running;
  }

  /** The clamped reserve never shuts out background work: it may start whenever
      no more tasks run than the reserve leaves room for. */
  lemma BackgroundHasRoom(s: State)
    requires Inv(s)
    ensures MaySpawn(s, false) <==> |s.running| < s.max - s.reserve
    ensures s.running == {} ==> MaySpawn(s, false)
  {
  }

  /** Wherever background work is refused, finishing running tasks, and nothing
      else, lets it in. */
  lemma BackgroundAdmitted(s: State) returns (es: seq<Event>)
    requires Inv(s)
    ensures forall i :: 0 <= i < |es| ==> es[i].Finish?
    ensures Possible(s, es) && MaySpawn(Run(s, es), false)
    decreases |s.running|
  {
    if MaySpawn(s, false) {
      es := [];
    } else {
      BackgroundHasRoom(s);
      var id :| id in s.running;
      FinishInv(s, id);
      assert |s.running - {id}| < |s.running|;
      var rest := BackgroundAdmitted(Finished(s, id));
      es := [Finish(id)] + rest;
      assert es[0] == Finish(id) && es[1..] == rest;
    }
  }

  // ---------------------------------------------------------------------
  // Epochs
  // ---------------------------------------------------------------------

  /** No document was invalidated 2^64 times while one of its tasks was out. */
  ghost predicate Recent(s: State) {
    forall id :: id in s.tasks && s.tasks[id].doc in s.entries ==>
      s.entries[s.tasks[id].doc].generation < s.tasks[id].generation + U64
  }

  /** Everything queued was spawned under the document's current generation. */
  ghost predicate QueuesOk(s: State) {
    forall doc, k :: doc in s.entries && 0 <= k < |s.entries[doc].completed| ==>
      s.entries[doc].completed[k].generation == s.entries[doc].generation
  }

  lemma SameResidue(a: nat, b: nat)
    requires b <= a < b + U64 && a % U64 == b % U64
    ensures a == b
  {
  }

  /** Short of a wrap, comparing epochs is comparing generations. */
  lemma EpochIsExact(s: State, id: TaskId)
    requires TasksOk(s) && Recent(s) && id in s.tasks && s.tasks[id].doc in s.entries
    ensures var t := s.tasks[id];
      s.entries[t.doc].epoch == t.epoch <==> s.entries[t.doc].generation == t.generation
  {
    var t := s.tasks[id];
    if s.entries[t.doc].epoch == t.epoch { SameResidue(s.entries[t.doc].generation, t.generation); }
  }

  lemma StepQueues(s: State, e: Event)
    requires Inv(s) && QueuesOk(s) && Recent(s) && Enabled(s, e)
    ensures QueuesOk(Step(s, e))
  {
    if e.Drain? && s.tasks[e.task].doc in s.entries {
      EpochIsExact(s, e.task);
      DrainQueues(s, e.task);
    }
  }

  lemma DrainQueues(s: State, id: TaskId)
    requires QueuesOk(s) && id in s.tasks && s.tasks[id].doc in s.entries
    requires s.entries[s.tasks[id].doc].epoch == s.tasks[id].epoch ==>
      s.entries[s.tasks[id].doc].generation == s.tasks[id].generation
    ensures QueuesOk(Drained(s, id))
  {
  }

  // ---------------------------------------------------------------------
  // Whole runs
  // ---------------------------------------------------------------------

  ghost predicate Possible(s: State, es: seq<Event>)
    decreases |es|
  {
    es == [] || (Enabled(s, es[0]) && Possible(Step(s, es[0]), es[1..]))
  }

  ghost function Run(s: State, es: seq<Event>): State
    requires Possible(s, es)
    decreases |es|
  {
    if es == [] then s else Run(Step(s, es[0]), es[1..])
  }

  predicate Young(s: State, age: nat) {
    forall doc :: doc in s.entries ==> s.entries[doc].generation <= age
  }

  lemma StepYoung(s: State, e: Event, age: nat)
    requires Enabled(s, e) && Young(s, age)
    ensures Young(Step(s, e), age + 1)
  {
  }

  /** Over every interleaving of fewer than 2^64 steps: permits stay within
      their limits, lanes name tasks that are still out, and every queued result
      was spawned under its document's current epoch. */
  lemma {:induction false} RunsAreSound(s: State, es: seq<Event>, age: nat)
    requires Inv(s) && QueuesOk(s) && Young(s, age) && Possible(s, es) && age + |es| < U64
    ensures Inv(Run(s, es)) && QueuesOk(Run(s, es))
    decreases |es|
  {
    if es != [] {
      StepInv(s, es[0]);
      StepQueues(s, es[0]);
      StepYoung(s, es[0], age);
      RunsAreSound(Step(s, es[0]), es[1..], age + 1);
    }
  }

  /** A closed document stays closed, and its late results change no other. */
  lemma {:induction false} ClosedStaysClosed(s: State, es: seq<Event>, doc: Doc)
    requires Possible(s, es) && doc in s.seen && doc !in s.entries
    ensures doc !in Run(s, es).entries
    decreases |es|
  {
    if es != [] {
      assert doc !in Step(s, es[0]).entries && doc in Step(s, es[0]).seen;
      ClosedStaysClosed(Step(s, es[0]), es[1..], doc);
    }
  }

  /** The run without the drains of the document's tasks. */
  ghost function Erased(s: State, es: seq<Event>, doc: Doc): seq<Event>
    requires Possible(s, es)
    decreases |es|
  {
    if es == [] then []
    else
      var rest := Erased(Step(s, es[0]), es[1..], doc);
      if es[0].Drain? && s.tasks[es[0].task].doc == doc then rest else [es[0]] + rest
  }

  /** `u` is `s` with some tasks of the document still in the table. */
  ghost predicate Shadows(s: State, u: State, doc: Doc) {
    && u == s.(tasks := u.tasks)
    && (forall id :: id in s.tasks ==> id in u.tasks && u.tasks[id] == s.tasks[id])
    && (forall id :: id in u.tasks && id !in s.tasks ==> u.tasks[id].doc == doc)
    && (forall id :: id in u.tasks ==> id < u.nextId)
  }

  lemma ShadowStep(s: State, u: State, e: Event, doc: Doc)
    requires Shadows(s, u, doc) && Enabled(s, e) && doc !in s.entries
    ensures e.Drain? && s.tasks[e.task].doc == doc ==> Shadows(Step(s, e), u, doc)
    ensures !(e.Drain? && s.tasks[e.task].doc == doc) ==> Enabled(u, e) && Shadows(Step(s, e), Step(u, e), doc)
  {
    match e
    case Drain(id) => assert u.tasks[id] == s.tasks[id];
    case _ =>
  }

  /** After a close, over every run: results of the closed document that come in
      late change nothing.  Leaving their drains out gives a run that agrees
      with the first in everything but the leftover table entries. */
  lemma {:induction false} LateResultsIgnored(s: State, u: State, es: seq<Event>, doc: Doc)
    requires Possible(s, es) && doc in s.seen && doc !in s.entries && Shadows(s, u, doc)
    ensures Possible(u, Erased(s, es, doc)) && Shadows(Run(s, es), Run(u, Erased(s, es, doc)), doc)
    decreases |es|
  {
    if es != [] {
      var e := es[0];
      ShadowStep(s, u, e, doc);
      assert doc !in Step(s, e).entries && doc in Step(s, e).seen;
      var rest := Erased(Step(s, e), es[1..], doc);
      if e.Drain? && s.tasks[e.task].doc == doc {
        LateResultsIgnored(Step(s, e), u, es[1..], doc);
      } else {
        LateResultsIgnored(Step(s, e), Step(u, e), es[1..], doc);
        assert ([e] + rest)[0] == e && ([e] + rest)[1..] == rest;
      }
    }
  }

  /** From the moment a document of a sound manager is closed. */
  lemma CloseErases(s: State, es: seq<Event>, doc: Doc)
    requires Inv(s) && doc in s.seen && Possible(Step(s, Close(doc)), es)
    ensures var s' := Step(s, Close(doc));
      && Possible(s', Erased(s', es, doc))
      && Shadows(Run(s', es), Run(s', Erased(s', es, doc)), doc) && doc !in Run(s', es).entries
  {
    var s' := Step(s, Close(doc));
    StepInv(s, Close(doc));
    LateResultsIgnored(s', s', es, doc);
    ClosedStaysClosed(s', es, doc);
  }

  /** From a freshly configured manager. */
  lemma ConfiguredRunsAreSound(maxConcurrency: nat, viewportReserve: nat, es: seq<Event>)
    requires Possible(Configured(maxConcurrency, viewportReserve), es) && |es| < U64
    ensures var s := Run(Configured(maxConcurrency, viewportReserve), es); Inv(s) && QueuesOk(s)
  {
    ConfiguredInv(maxConcurrency, viewportReserve);
    RunsAreSound(Configured(maxConcurrency, viewportReserve), es, 0);
  }

  // ---------------------------------------------------------------------
  // The manager object
  // ---------------------------------------------------------------------

  /** Finished tasks delivered one after the other. */
  function DrainedAll(s: State, order: seq<TaskId>): State {
    if order == [] then s
    else
      var before, id := DrainedAll(s, order[..|order| - 1]), order[|order| - 1];
      if id in before.tasks then Drained(before, id) else before
  }

  /** The result of a finished task is still wanted. */
  predicate Queues(s: State, id: TaskId) {
    && id in s.tasks && s.tasks[id].doc in s.entries
    && s.entries[s.tasks[id].doc].epoch == s.tasks[id].epoch
  }

  /** The results among `order` that a document is still waiting for, in order. */
  function Results(s: State, order: seq<TaskId>, doc: Doc): seq<Completed> {
    if order == [] then []
    else
      var id := order[|order| - 1];
      Results(s, order[..|order| - 1], doc) +
      (if Queues(s, id) && s.tasks[id].doc == doc then [Completed(id, s.tasks[id].generation)] else [])
  }

  /** Delivering one result leaves the others as wanted as they were. */
  lemma {:induction false} DrainedAllQueues(s: State, order: seq<TaskId>, doc: Doc)
    requires doc in s.entries
    requires forall i :: 0 <= i < |order| ==> order[i] in s.tasks
    requires forall i, j :: 0 <= i < j < |order| ==> order[i] != order[j]
    ensures var s' := DrainedAll(s, order);
      && doc in s'.entries && s'.entries.Keys == s.entries.Keys && s'.entries[doc].epoch == s.entries[doc].epoch
      && s'.entries[doc].completed == s.entries[doc].completed + Results(s, order, doc)
  {
    if order != [] {
      var before, id := order[..|order| - 1], order[|order| - 1];
      DrainedAllQueues(s, before, doc);
      DrainedAllKeeps(s, before, id);
      if s.tasks[id].doc == doc {
        Assoc(s.entries[doc].completed, Results(s, before, doc), [Completed(id, s.tasks[id].generation)]);
      }
    }
  }

  lemma {:induction false} DrainedAllKeeps(s: State, order: seq<TaskId>, id: TaskId)
    requires id in s.tasks && id !in order
    ensures id in DrainedAll(s, order).tasks && DrainedAll(s, order).tasks[id] == s.tasks[id]
  {
    if order != [] {
      DrainedAllKeeps(s, order[..|order| - 1], id);
      assert id != order[|order| - 1];
    }
  }

  lemma EveryQueue(s: State, order: seq<TaskId>)
    requires forall i :: 0 <= i < |order| ==> order[i] in s.tasks
    requires forall i, j :: 0 <= i < j < |order| ==> order[i] != order[j]
    ensures var s' := DrainedAll(s, order);
      forall doc :: doc in s.entries ==>
        doc in s'.entries && s'.entries[doc].completed == s.entries[doc].completed + Results(s, order, doc)
  {
    var s' := DrainedAll(s, order);
    forall doc | doc in s.entries
      ensures doc in s'.entries && s'.entries[doc].completed == s.entries[doc].completed + Results(s, order, doc)
    {
      DrainedAllQueues(s, order, doc);
    }
  }

  lemma DrainedAllNext(s: State, order: seq<TaskId>, k: nat)
    requires k < |order| && order[k] in s.tasks
    requires forall i, j :: 0 <= i < j < |order| ==> order[i] != order[j]
    ensures order[k] in DrainedAll(s, order[..k]).tasks
    ensures DrainedAll(s, order[..k + 1]) == Drained(DrainedAll(s, order[..k]), order[k])
    ensures Queues(DrainedAll(s, order[..k]), order[k]) <==> Queues(s, order[k])
  {
    DrainedAllKeeps(s, order[..k], order[k]);
    assert order[..k + 1][..k] == order[..k];
    var doc := s.tasks[order[k]].doc;
    DrainedAllEpochs(s, order[..k], doc);
  }

  lemma {:induction false} DrainedAllEpochs(s: State, order: seq<TaskId>, doc: Doc)
    ensures doc in s.entries <==> doc in DrainedAll(s, order).entries
    ensures doc in s.entries ==> DrainedAll(s, order).entries[doc].epoch == s.entries[doc].epoch
  {
    if order != [] { DrainedAllEpochs(s, order[..|order| - 1], doc); }
  }

  class SyntaxManager {
    const max: nat
    const reserve: nat
    var entries: map<Doc, Sched>
    var tasks: map<TaskId, Task>
    var running: set<TaskId>
    var nextId: TaskId
    ghost var privileged: set<TaskId>
    ghost var seen: set<Doc>

    ghost function Value(): State
      reads this
    {
      State(max, reserve, entries, seen, tasks, running, privileged, nextId)
    }

    constructor (maxConcurrency: nat, viewportReserve: nat)
      ensures Value() == Configured(maxConcurrency, viewportReserve) && Inv(Value())
    {
      var n := if maxConcurrency == 0 then 1 else maxConcurrency;
      max := n;
      reserve := if viewportReserve < n then viewportReserve else n - 1;
      entries, tasks, running, nextId := map[], map[], {}, 0;
      privileged, seen := {}, {};
    }

    method Spawn(doc: Doc, lane: Lane, urgent: bool) returns (id: Option<TaskId>)
      requires Inv(Value()) && doc in entries
      modifies this
      ensures Value() == Spawned(old(Value()), doc, lane, urgent) && Inv(Value())
      ensures id == if MaySpawn(old(Value()), urgent) then Some(old(nextId)) else None
    {
      SpawnInv(Value(), doc, lane, urgent);
      id := TakePermit(doc, lane, urgent);
    }

    /** The statements of `spawn`. */
    method TakePermit(doc: Doc, lane: Lane, urgent: bool) returns (id: Option<TaskId>)
      requires doc in entries
      modifies this
      ensures Value() == Spawned(old(Value()), doc, lane, urgent)
      ensures id == if MaySpawn(old(Value()), urgent) then Some(old(nextId)) else None
    {
      var available := max - |running|;
      if urgent {
        if available <= 0 { return None; }
      } else {
        if available <= reserve { return None; }
      }
      var sched, task := entries[doc], nextId;
      nextId := nextId + 1;
      running := running + {task};
      privileged := if urgent then privileged + {task} else privileged;
      tasks := tasks[task := Task(doc, sched.epoch, sched.generation, lane)];
      entries := entries[doc := sched.(lanes := SetLane(sched.lanes, lane, Some(task)))];
      id := Some(task);
    }

    /** One finished task: clear its lane, and queue its result unless stale. */
    method Deliver(id: TaskId, t: Task) returns (queued: bool)
      modifies this`entries
      ensures entries == Delivered(old(entries), id, t)
      ensures queued == (t.doc in old(entries) && old(entries)[t.doc].epoch == t.epoch)
      ensures t.doc in old(entries) ==>
        var before, now := old(entries)[t.doc].completed, entries[t.doc].completed;
        now == if queued then before + [Completed(id, t.generation)] else before
    {
      if t.doc !in entries { return false; }
      var sched := entries[t.doc];
      var lanes := sched.lanes;
      if t.lane.Urgent? && lanes.urgent == Some(id) {
        lanes := lanes.(urgent := None);
      } else if t.lane.Enrich? && lanes.enrich == Some(id) {
        lanes := lanes.(enrich := None);
      }
      if lanes.bg == Some(id) {
        lanes := lanes.(bg := None);
      }
      sched := sched.(lanes := lanes);
      if sched.epoch != t.epoch {
        entries := entries[t.doc := sched];
        return false;
      }
      entries := entries[t.doc := sched.(completed := sched.completed + [Completed(id, t.generation)])];
      return true;
    }

    method DrainOne(id: TaskId) returns (queued: bool)
      requires id in tasks
      modifies this`tasks, this`entries
      ensures Value() == Drained(old(Value()), id)
      ensures queued == Queues(old(Value()), id)
    {
      var t := tasks[id];
      tasks := tasks - {id};
      queued := Deliver(id, t);
    }

    /** Delivers the finished tasks in the order the collector hands them out. */
    method DrainFinishedInflight(order: seq<TaskId>) returns (drained: bool)
      requires Inv(Value())
      requires forall i :: 0 <= i < |order| ==> order[i] in tasks && order[i] !in running
      requires forall i, j :: 0 <= i < j < |order| ==> order[i] != order[j]
      modifies this
      ensures Value() == DrainedAll(old(Value()), order) && Inv(Value())
      ensures drained <==> exists i :: 0 <= i < |order| && Queues(old(Value()), order[i])
      ensures forall doc :: doc in old(entries) ==>
        doc in entries && entries[doc].completed == old(entries)[doc].completed + Results(old(Value()), order, doc)
    {
      drained := false;
      var k := 0;
      ghost var start, now := Value(), Value();
      while k < |order|
        invariant 0 <= k <= |order| && Inv(now) && now.running == start.running
        invariant now == Value() == DrainedAll(start, order[..k])
        invariant drained <==> exists i :: 0 <= i < k && Queues(start, order[i])
      {
        var id := order[k];
        DrainedAllNext(start, order, k);
        DrainInv(now, id);
        now := Drained(now, id);
        var queued := DrainOne(id);
        drained := drained || queued;
        k := k + 1;
      }
      assert order[..k] == order;
      EveryQueue(start, order);
    }

    method Invalidate(doc: Doc)
      requires Inv(Value()) && doc in entries
      modifies this
      ensures Value() == Step(old(Value()), Event.Invalidate(doc)) && Inv(Value())
    {
      StepInv(Value(), Event.Invalidate(doc));
      var sched := entries[doc];
      entries := entries[doc := Sched((sched.epoch + 1) % U64, sched.generation + 1, IDLE, [])];
    }

    method ForgetDoc(doc: Doc)
      requires Inv(Value())
      modifies this
      ensures Value() == Step(old(Value()), Close(doc)) && Inv(Value())
    {
      StepInv(Value(), Close(doc));
      entries := entries - {doc};
    }
  }
}
