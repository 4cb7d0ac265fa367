/** What becomes of the result of a parse task, over whole runs of the syntax
manager (crates/syntax/src/{tasks,scheduling,completion}.rs).

A result is queued for its document if and only if the document was neither
invalidated nor closed since its task was spawned; it is queued once, behind the
results drained before it, and stays until the queue is emptied.
 */
module SyntaxQueues {
  import opened Prelude
  import opened SyntaxTasks

  // ---------------------------------------------------------------------
  // Lanes
  // ---------------------------------------------------------------------

  /** A spawn that is let through records a task under its document's epoch and
      occupies the lane; one that is refused changes nothing. */
  lemma SpawnTakesLane(s: State, doc: Doc, lane: Lane, urgent: bool)
    requires Inv(s) && doc in s.entries
    ensures var s', id := Step(s, Spawn(doc, lane, urgent)), s.nextId;
      if MaySpawn(s, urgent) then
        && id !in s.tasks && s'.tasks == s.tasks[id := Task(doc, s.entries[doc].epoch, s.entries[doc].generation, lane)]
        && id in s'.running && GetLane(s'.entries[doc].lanes, lane) == Some(id)
        && (forall l :: l != lane ==> GetLane(s'.entries[doc].lanes, l) == GetLane(s.entries[doc].lanes, l))
      else s' == s
  {
  }

  /** Draining a task frees the lane it holds, if it still does, and no other. */
  lemma DrainFreesOwnLane(s: State, id: TaskId, doc: Doc, lane: Lane)
    requires Inv(s) && Enabled(s, Drain(id)) && doc in s.entries
    ensures var before, after := GetLane(s.entries[doc].lanes, lane), Step(s, Drain(id)).entries[doc].lanes;
      GetLane(after, lane) == if before == Some(id) then None else before
  {
    forall l | GetLane(s.entries[doc].lanes, l) == Some(id) ensures LaneHeld(s, doc, l, id) {
    }
  }

  // ---------------------------------------------------------------------
  // Queues
  // ---------------------------------------------------------------------

  function Ids(completed: seq<Completed>): seq<TaskId> {
    seq(|completed|, i requires 0 <= i < |completed| => completed[i].task)
  }

  /** Tasks whose results wait for a document, oldest first. */
  function Queue(s: State, doc: Doc): seq<TaskId> {
    if doc in s.entries then Ids(s.entries[doc].completed) else []
  }

  predicate Outdates(e: Event, doc: Doc) {
    (e.Invalidate? || e.Close?) && e.doc == doc
  }

  predicate Empties(e: Event, doc: Doc) {
    (e.Install? || e.Invalidate? || e.Close?) && e.doc == doc
  }

  predicate NeverOutdated(es: seq<Event>, doc: Doc) {
    forall i :: 0 <= i < |es| ==> !Outdates(es[i], doc)
  }

  predicate NeverEmptied(es: seq<Event>, doc: Doc) {
    forall i :: 0 <= i < |es| ==> !Empties(es[i], doc)
  }

  /** The event drains a task of the document's present generation. */
  predicate DrainsCurrent(s: State, e: Event, doc: Doc) {
    && e.Drain? && e.task in s.tasks && doc in s.entries
    && s.tasks[e.task].doc == doc && s.tasks[e.task].generation == s.entries[doc].generation
  }

  /** What one event does to a document's queue. */
  lemma QueueStep(s: State, e: Event, doc: Doc)
    requires Inv(s) && Recent(s) && Enabled(s, e)
    ensures Queue(Step(s, e), doc) ==
      if Empties(e, doc) then []
      else if DrainsCurrent(s, e, doc) then Queue(s, doc) + [e.task]
      else Queue(s, doc)
  {
    if e.Drain? { DrainQueue(s, e.task, doc); }
  }

  lemma DrainQueue(s: State, id: TaskId, doc: Doc)
    requires Inv(s) && Recent(s) && id in s.tasks
    ensures Queue(Drained(s, id), doc) ==
      if DrainsCurrent(s, Drain(id), doc) then Queue(s, doc) + [id] else Queue(s, doc)
  {
    var t := s.tasks[id];
    if t.doc == doc && doc in s.entries {
      EpochIsExact(s, id);
      var before, after := s.entries[doc].completed, Drained(s, id).entries[doc].completed;
      if t.generation == s.entries[doc].generation {
        assert after == before + [Completed(id, t.generation)];
        assert Ids(after) == Ids(before) + [id];
      } else {
        assert after == before;
      }
    }
  }

  /** The drains of the run that bring a current result, in order. */
  ghost function CurrentDrains(s: State, es: seq<Event>, doc: Doc): seq<TaskId>
    requires Possible(s, es)
    decreases |es|
  {
    if es == [] then []
    else
      (if DrainsCurrent(s, es[0], doc) then [es[0].task] else []) + CurrentDrains(Step(s, es[0]), es[1..], doc)
  }

  lemma YoungIsRecent(s: State, age: nat)
    requires Young(s, age) && age < U64
    ensures Recent(s)
  {
  }

  /** Until the queue is emptied, it grows by exactly the current results, in the
      order in which they are drained. */
  lemma {:induction false} QueueFollowsDrains(s: State, es: seq<Event>, doc: Doc, age: nat)
    requires Inv(s) && Young(s, age) && age + |es| < U64 && Possible(s, es) && NeverEmptied(es, doc)
    ensures Queue(Run(s, es), doc) == Queue(s, doc) + CurrentDrains(s, es, doc)
    decreases |es|
  {
    if es == [] {
      assert Queue(s, doc) + [] == Queue(s, doc);
    } else {
      YoungIsRecent(s, age);
      QueueStep(s, es[0], doc);
      StepInv(s, es[0]);
      StepYoung(s, es[0], age);
      QueueFollowsDrains(Step(s, es[0]), es[1..], doc, age + 1);
      var first := if DrainsCurrent(s, es[0], doc) then [es[0].task] else [];
      Assoc(Queue(s, doc), first, CurrentDrains(Step(s, es[0]), es[1..], doc));
      assert first == [] ==> Queue(s, doc) + first == Queue(s, doc);
    }
  }

  // ---------------------------------------------------------------------
  // One task
  // ---------------------------------------------------------------------

  /** Queued results are of tasks that are no longer out, each queued once. */
  ghost predicate QueueIdsOk(s: State, doc: Doc) {
    && (forall k :: 0 <= k < |Queue(s, doc)| ==> Queue(s, doc)[k] < s.nextId && Queue(s, doc)[k] !in s.tasks)
    && (forall i, j :: 0 <= i < j < |Queue(s, doc)| ==> Queue(s, doc)[i] != Queue(s, doc)[j])
  }

  lemma QueueIdsStep(s: State, e: Event, doc: Doc)
    requires Inv(s) && Recent(s) && Enabled(s, e) && QueueIdsOk(s, doc)
    ensures QueueIdsOk(Step(s, e), doc)
  {
    QueueStep(s, e, doc);
    TableStep(s, e);
  }

  /** Ids only grow, and a task stays as it is until it is drained. */
  lemma TableStep(s: State, e: Event)
    requires Enabled(s, e)
    ensures var s' := Step(s, e);
      && s.nextId <= s'.nextId
      && (forall id :: id in s'.tasks ==> (id in s.tasks && s'.tasks[id] == s.tasks[id]) || id == s.nextId < s'.nextId)
      && (forall id :: id in s.tasks && id != s.nextId ==> id in s'.tasks || e == Drain(id))
      && (e.Drain? ==> e.task !in s'.tasks)
  {
  }

  lemma {:induction false} QueueIdsRun(s: State, es: seq<Event>, doc: Doc, age: nat)
    requires Inv(s) && Young(s, age) && age + |es| < U64 && Possible(s, es) && QueueIdsOk(s, doc)
    ensures Inv(Run(s, es)) && Young(Run(s, es), age + |es|) && QueueIdsOk(Run(s, es), doc)
    decreases |es|
  {
    if es != [] {
      YoungIsRecent(s, age);
      QueueIdsStep(s, es[0], doc);
      StepInv(s, es[0]);
      StepYoung(s, es[0], age);
      QueueIdsRun(Step(s, es[0]), es[1..], doc, age + 1);
    }
  }

  /** While a task is out its record stays; its document's generation is the one
      it was spawned under exactly as long as the document is not outdated. */
  lemma {:induction false} TaskOutRun(s: State, es: seq<Event>, id: TaskId, doc: Doc)
    requires Inv(s) && Possible(s, es) && id in s.tasks && s.tasks[id].doc == doc && id in Run(s, es).tasks
    ensures Run(s, es).tasks[id] == s.tasks[id]
    ensures doc in s.entries && NeverOutdated(es, doc) ==>
      doc in Run(s, es).entries && Run(s, es).entries[doc].generation == s.entries[doc].generation
    ensures doc in s.entries && !NeverOutdated(es, doc) && doc in Run(s, es).entries ==>
      Run(s, es).entries[doc].generation > s.entries[doc].generation
    ensures doc !in s.entries ==> doc !in Run(s, es).entries
    decreases |es|
  {
    if es != [] {
      var s', rest := Step(s, es[0]), es[1..];
      StepInv(s, es[0]);
      TableStep(s, es[0]);
      GenerationStep(s, es[0], doc);
      if id !in s'.tasks { GoneStaysGone(s', rest, id); }
      TaskOutRun(s', rest, id, doc);
      assert NeverOutdated(es, doc) <==> !Outdates(es[0], doc) && NeverOutdated(rest, doc) by {
        assert es == [es[0]] + rest;
      }
    }
  }

  lemma GenerationStep(s: State, e: Event, doc: Doc)
    requires Enabled(s, e) && doc in s.seen
    ensures doc in Step(s, e).seen && (doc !in s.entries ==> doc !in Step(s, e).entries)
    ensures doc in s.entries && !Outdates(e, doc) ==>
      doc in Step(s, e).entries && Step(s, e).entries[doc].generation == s.entries[doc].generation
    ensures doc in s.entries && Outdates(e, doc) && doc in Step(s, e).entries ==>
      Step(s, e).entries[doc].generation > s.entries[doc].generation
  {
  }

  lemma {:induction false} GoneStaysGone(s: State, es: seq<Event>, id: TaskId)
    requires Possible(s, es) && id !in s.tasks && id < s.nextId
    ensures id !in Run(s, es).tasks
    decreases |es|
  {
    if es != [] {
      TableStep(s, es[0]);
      GoneStaysGone(Step(s, es[0]), es[1..], id);
    }
  }

  lemma {:induction false} GoneIsNotDrained(s: State, es: seq<Event>, id: TaskId, doc: Doc)
    requires Possible(s, es) && id !in s.tasks && id < s.nextId
    ensures id !in CurrentDrains(s, es, doc)
    decreases |es|
  {
    if es != [] {
      TableStep(s, es[0]);
      GoneIsNotDrained(Step(s, es[0]), es[1..], id, doc);
    }
  }

  /** From any sound state: a task is spawned, later drained, and after that the
      document's queue is not emptied.  Its result then waits in the queue, once
      and behind everything queued when it was drained, if and only if the
      document was neither invalidated nor closed while its task was out. */
  lemma ResultQueuedExactly(s: State, doc: Doc, lane: Lane, urgent: bool, mid: seq<Event>, rest: seq<Event>, age: nat)
    requires Inv(s) && QueueIdsOk(s, doc) && Young(s, age) && age + |mid| + |rest| + 2 < U64
    requires doc in s.entries && MaySpawn(s, urgent)
    requires var s1 := Step(s, Spawn(doc, lane, urgent));
      && Possible(s1, mid) && Enabled(Run(s1, mid), Drain(s.nextId))
      && Possible(Step(Run(s1, mid), Drain(s.nextId)), rest)
    requires NeverEmptied(rest, doc)
    ensures var id, s2 := s.nextId, Run(Step(s, Spawn(doc, lane, urgent)), mid);
      var s4 := Run(Step(s2, Drain(id)), rest);
      && multiset(Queue(s4, doc))[id] == (if NeverOutdated(mid, doc) then 1 else 0)
      && (NeverOutdated(mid, doc) ==> Queue(s2, doc) + [id] <= Queue(s4, doc))
  {
    var id, s1 := s.nextId, Step(s, Spawn(doc, lane, urgent));
    StepInv(s, Spawn(doc, lane, urgent));
    YoungIsRecent(s, age);
    QueueIdsStep(s, Spawn(doc, lane, urgent), doc);
    StepYoung(s, Spawn(doc, lane, urgent), age);
    QueueIdsRun(s1, mid, doc, age + 1);
    TaskOutRun(s1, mid, id, doc);
    var s2 := Run(s1, mid);
    DrainedThenKept(s2, id, doc, rest, age + 1 + |mid|);
  }

  lemma DrainedThenKept(s: State, id: TaskId, doc: Doc, rest: seq<Event>, age: nat)
    requires Inv(s) && QueueIdsOk(s, doc) && Young(s, age) && age + |rest| + 1 < U64
    requires Enabled(s, Drain(id)) && s.tasks[id].doc == doc && Possible(Step(s, Drain(id)), rest)
    requires NeverEmptied(rest, doc)
    ensures var s' := Run(Step(s, Drain(id)), rest);
      if DrainsCurrent(s, Drain(id), doc) then
        multiset(Queue(s', doc))[id] == 1 && Queue(s, doc) + [id] <= Queue(s', doc)
      else multiset(Queue(s', doc))[id] == 0
  {
    var s1 := Step(s, Drain(id));
    YoungIsRecent(s, age);
    QueueStep(s, Drain(id), doc);
    TableStep(s, Drain(id));
    StepInv(s, Drain(id));
    StepYoung(s, Drain(id), age);
    QueueFollowsDrains(s1, rest, doc, age + 1);
    GoneIsNotDrained(s1, rest, id, doc);
    CountOnce(Queue(s, doc), CurrentDrains(s1, rest, doc), id);
  }

  lemma CountOnce(q: seq<TaskId>, more: seq<TaskId>, id: TaskId)
    requires id !in q && id !in more
    ensures multiset(q + more)[id] == 0 && multiset(q + [id] + more)[id] == 1
  {
  }

  /** The queue a document is opened with, and every queue right after it was
      installed from or invalidated, is empty. */
  lemma QueueStartsEmpty(s: State, e: Event, doc: Doc)
    requires Inv(s) && Recent(s) && Enabled(s, e) && (Empties(e, doc) || e == Open(doc))
    ensures Queue(Step(s, e), doc) == []
  {
    QueueStep(s, e, doc);
  }

  /** In every state of every run of a configured manager. */
  lemma ConfiguredQueueIds(maxConcurrency: nat, viewportReserve: nat, es: seq<Event>, doc: Doc)
    requires Possible(Configured(maxConcurrency, viewportReserve), es) && |es| < U64
    ensures var s := Run(Configured(maxConcurrency, viewportReserve), es);
      Inv(s) && Young(s, |es|) && QueueIdsOk(s, doc)
  {
    ConfiguredInv(maxConcurrency, viewportReserve);
    QueueIdsRun(Configured(maxConcurrency, viewportReserve), es, doc, 0);
  }
}
