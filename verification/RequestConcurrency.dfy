/** The request concurrency middleware (crates/lsp_framework/src/concurrency.rs).

Every call gets a fresh cancel state, named by a serial number.  A response
future that is dropped first gives back its permit and then marks its cancel
state as done: those are two steps here, because the fields are dropped one
after the other and other tasks may run in between.
 */
module RequestConcurrency {
  import opened Prelude

  type Id = string
  type Serial = nat

  /** The future that acquires the next permit: `Granted` once the semaphore has
      handed it one. */
  datatype Acquire = NoFuture | Queued | Granted

  /** `latest` records the last call made under each id. */
  datatype State = State(
    max: nat,
    free: nat,
    acquire: Acquire,
    ready: bool,
    ongoing: map<Id, Serial>,
    done: set<Serial>,
    cancelled: set<Serial>,
    next: Serial,
    live: set<Serial>,
    dropping: set<Serial>,
    latest: map<Id, Serial>)

  datatype Event =
    | PollReady
    | Call(id: Id)
    | Cancel(id: Id)
    | ReleasePermit(response: Serial)
    | SignalDone(response: Serial)

  function Fresh(max: nat): State {
    State(max, max, NoFuture, false, map[], {}, {}, 0, {}, {}, map[])
  }

  // ---------------------------------------------------------------------
  // Steps
  // ---------------------------------------------------------------------

  /** `call` panics without a permit; responses are dropped once. */
  predicate Enabled(s: State, e: Event) {
    match e
    case PollReady => true
    case Call(_) => s.ready
    case Cancel(_) => true
    case ReleasePermit(r) => r in s.live
    case SignalDone(r) => r in s.dropping
  }

  function Polled(s: State): State {
    if s.ready then s
    else match s.acquire
      case NoFuture => if s.free > 0 then s.(free := s.free - 1, ready := true) else s.(acquire := Queued)
      case Queued => s
      case Granted => s.(acquire := NoFuture, ready := true)
  }

  /** Entries of requests that have not finished. */
  function Unfinished(ongoing: map<Id, Serial>, done: set<Serial>): map<Id, Serial> {
    map id | id in ongoing && ongoing[id] !in done :: ongoing[id]
  }

  function Purged(s: State): map<Id, Serial> {
    if |s.ongoing| >= s.max * 2 then Unfinished(s.ongoing, s.done) else s.ongoing
  }

  function Called(s: State, id: Id): State {
    s.(ready := false, ongoing := Purged(s)[id := s.next], next := s.next + 1,
       live := s.live + {s.next}, latest := s.latest[id := s.next])
  }

  function CancelledBy(s: State, id: Id): State {
    if id in s.ongoing then s.(ongoing := s.ongoing - {id}, cancelled := s.cancelled + {s.ongoing[id]}) else s
  }

  /** A returned permit goes to the queued future, if there is one. */
  function Released(s: State, r: Serial): State {
    var s' := s.(live := s.live - {r}, dropping := s.dropping + {r});
    if s.acquire.Queued? then s'.(acquire := Granted) else s'.(free := s.free + 1)
  }

  function Signalled(s: State, r: Serial): State {
    s.(dropping := s.dropping - {r}, done := s.done + {r})
  }

  function Step(s: State, e: Event): State {
    match e
    case PollReady => Polled(s)
    case Call(id) => Called(s, id)
    case Cancel(id) => CancelledBy(s, id)
    case ReleasePermit(r) => Released(s, r)
    case SignalDone(r) => Signalled(s, r)
  }

  // ---------------------------------------------------------------------
  // Invariant
  // ---------------------------------------------------------------------

  function One(b: bool): nat { if b then 1 else 0 }

  predicate PermitsConserved(s: State) {
    && s.free + One(s.ready) + One(s.acquire.Granted?) + |s.live| == s.max
    && (s.acquire.Queued? ==> s.free == 0)
    && (s.ready ==> s.acquire.NoFuture?)
  }

  /** Every call is live, being dropped, or done, and keeps one entry at most. */
  ghost predicate CallsAccounted(s: State) {
    && s.live !! s.dropping && s.live !! s.done && s.dropping !! s.done
    && (forall r: Serial :: r in s.live || r in s.dropping || r in s.done <==> r < s.next)
    && (forall id :: id in s.ongoing ==> s.ongoing[id] < s.next)
    && (forall a, b :: a in s.ongoing && b in s.ongoing && s.ongoing[a] == s.ongoing[b] ==> a == b)
  }

  ghost predicate LatestOk(s: State) {
    && (forall r :: r in s.cancelled ==> r < s.next)
    && (forall id :: id in s.latest ==> s.latest[id] < s.next)
    && (forall a, b :: a in s.latest && b in s.latest && s.latest[a] == s.latest[b] ==> a == b)
  }

  /** The latest request of an id can be cancelled as long as it is live. */
  ghost predicate Cancellable(s: State) {
    && (forall id :: id in s.latest && s.latest[id] !in s.done && s.latest[id] !in s.cancelled ==>
          id in s.ongoing && s.ongoing[id] == s.latest[id])
    && (forall id :: id in s.ongoing ==>
          id in s.latest && s.ongoing[id] == s.latest[id] && s.ongoing[id] !in s.cancelled)
  }

  ghost predicate Inv(s: State) {
    s.max > 0 && PermitsConserved(s) && CallsAccounted(s) && LatestOk(s) && Cancellable(s)
  }

  lemma StepInv(s: State, e: Event)
    requires Inv(s) && Enabled(s, e)
    ensures Inv(Step(s, e)) && Step(s, e).max == s.max
  {
    match e
    case PollReady =>
    case Call(id) => CallInv(s, id);
    case Cancel(id) => CancelInv(s, id);
    case ReleasePermit(r) => ReleaseInv(s, r);
    case SignalDone(r) => SignalInv(s, r);
  }

  lemma CancelInv(s: State, id: Id)
    requires Inv(s)
    ensures Inv(CancelledBy(s, id))
  {
  }

  lemma ReleaseInv(s: State, r: Serial)
    requires Inv(s) && r in s.live
    ensures Inv(Released(s, r))
  {
    assert |s.live - {r}| == |s.live| - 1;
  }

  lemma SignalInv(s: State, r: Serial)
    requires Inv(s) && r in s.dropping
    ensures Inv(Signalled(s, r))
  {
  }

  lemma CallInv(s: State, id: Id)
    requires Inv(s) && s.ready
    ensures Inv(Called(s, id))
  {
    assert s.next !in s.live;
    assert |s.live + {s.next}| == |s.live| + 1;
    CallAccounted(s, id);
    CallLatest(s, id);
    CallCancellable(s, id);
  }

  lemma PurgedKeeps(s: State)
    ensures forall a :: a in Purged(s) ==> a in s.ongoing && Purged(s)[a] == s.ongoing[a]
    ensures forall a :: a in s.ongoing && s.ongoing[a] !in s.done ==> a in Purged(s)
  {
  }

  lemma CallAccounted(s: State, id: Id)
    requires CallsAccounted(s)
    ensures CallsAccounted(Called(s, id))
  {
    PurgedKeeps(s);
    var s' := Called(s, id);
    forall r: Serial ensures r in s'.live || r in s'.dropping || r in s'.done <==> r < s'.next {
      assert r in s.live || r in s.dropping || r in s.done <==> r < s.next;
    }
  }

  lemma CallLatest(s: State, id: Id)
    requires LatestOk(s)
    ensures LatestOk(Called(s, id))
  {
  }

  lemma CallCancellable(s: State, id: Id)
    requires LatestOk(s) && Cancellable(s)
    ensures Cancellable(Called(s, id))
  {
    PurgedKeeps(s);
  }

  // ---------------------------------------------------------------------
  // Bounds
  // ---------------------------------------------------------------------

  lemma {:induction false} InjectionBound(m: map<Id, Serial>, range: set<Serial>)
    requires forall id :: id in m ==> m[id] in range
    requires forall a, b :: a in m && b in m && m[a] == m[b] ==> a == b
    ensures |m| <= |range|
    decreases |m|
  {
    if m != map[] {
      var id :| id in m;
      var m' := m - {id};
      assert |m'| == |m| - 1 by {
        assert m'.Keys == m.Keys - {id};
      }
      InjectionBound(m', range - {m[id]});
    }
  }

  /** Unfinished entries never outnumber the responses that still exist. */
  lemma UnfinishedBound(s: State)
    requires Inv(s)
    ensures |Unfinished(s.ongoing, s.done)| <= |s.live| + |s.dropping|
  {
    InjectionBound(Unfinished(s.ongoing, s.done), s.live + s.dropping);
    UnionSize(s.live, s.dropping);
  }

  /** Entries of responses that have given back their permit and not signalled. */
  function HalfDropped(s: State): map<Id, Serial> {
    map id | id in s.ongoing && s.ongoing[id] in s.dropping :: s.ongoing[id]
  }

  function ListedLive(s: State): map<Id, Serial> {
    map id | id in s.ongoing && s.ongoing[id] in s.live :: s.ongoing[id]
  }

  /** Live responses without an entry: cancelled ones, and those whose id was
      used again. */
  function Unlisted(s: State): set<Serial> {
    set r | r in s.live && r !in s.ongoing.Values
  }

  lemma {:induction false} InjectionSize(m: map<Id, Serial>, range: set<Serial>)
    requires forall id :: id in m ==> m[id] in range
    requires forall r :: r in range ==> exists id :: id in m && m[id] == r
    requires forall a, b :: a in m && b in m && m[a] == m[b] ==> a == b
    ensures |m| == |range|
    decreases |m|
  {
    if m != map[] {
      var id :| id in m;
      var m', range' := m - {id}, range - {m[id]};
      assert |m'| == |m| - 1 by {
        assert m'.Keys == m.Keys - {id};
      }
      forall r | r in range' ensures exists i :: i in m' && m'[i] == r {
        var i :| i in m && m[i] == r;
        assert i in m';
      }
      InjectionSize(m', range');
    } else {
      assert range == {};
    }
  }

  lemma SplitSize(s: State)
    requires Inv(s)
    ensures |Unfinished(s.ongoing, s.done)| == |HalfDropped(s)| + |ListedLive(s)|
  {
    var u, h, l := Unfinished(s.ongoing, s.done), HalfDropped(s), ListedLive(s);
    assert u.Keys == h.Keys + l.Keys && h.Keys !! l.Keys;
    assert |u| == |u.Keys| && |h| == |h.Keys| && |l| == |l.Keys|;
  }

  lemma ListedSize(s: State)
    requires Inv(s)
    ensures |s.live| == |ListedLive(s)| + |Unlisted(s)|
  {
    var l, out := ListedLive(s), Unlisted(s);
    var range := s.live - out;
    forall r | r in range ensures exists id :: id in l && l[id] == r {
      var id :| id in s.ongoing && s.ongoing[id] == r;
      assert id in l;
    }
    InjectionSize(l, range);
    assert s.live == range + out && range !! out;
  }

  /** The live responses alone bound the unfinished entries exactly as long as
      the half-dropped ones among them do not outnumber the unlisted live ones;
      so in particular while nothing is half dropped. */
  lemma LiveBoundExactly(s: State)
    requires Inv(s)
    ensures |Unfinished(s.ongoing, s.done)| <= |s.live| <==> |HalfDropped(s)| <= |Unlisted(s)|
    ensures s.dropping == {} ==> |Unfinished(s.ongoing, s.done)| <= |s.live|
  {
    SplitSize(s);
    ListedSize(s);
    if s.dropping == {} { assert HalfDropped(s) == map[]; }
  }

  lemma UnionSize(a: set<Serial>, b: set<Serial>)
    ensures |a + b| <= |a| + |b|
  {
    assert a + b == a + (b - a);
    assert |a + (b - a)| == |a| + |b - a|;
    assert (b - a) + (b * a) == b && |(b - a) + (b * a)| == |b - a| + |b * a|;
  }

  /** A call keeps the map within twice the limit whenever at most `max`
      responses are between giving back their permit and signalling. */
  lemma CallBound(s: State, id: Id)
    requires Inv(s) && s.ready && |s.ongoing| <= 2 * s.max && |s.dropping| <= s.max
    ensures |Called(s, id).ongoing| <= 2 * s.max
  {
    UnfinishedBound(s);
    var p := Purged(s);
    assert p[id := s.next].Keys == p.Keys + {id};
    UnionSizeIds(p.Keys, id);
  }

  lemma UnionSizeIds(a: set<Id>, id: Id)
    ensures |a + {id}| <= |a| + 1
  {
    if id in a { assert a + {id} == a; }
  }

  /** The map outgrows its bound only at a call that finds it full of entries
      that are not done: exactly then. */
  lemma OutgrowsExactly(s: State, id: Id)
    requires Inv(s) && s.ready && |s.ongoing| <= 2 * s.max
    ensures |Called(s, id).ongoing| > 2 * s.max <==>
      |Unfinished(s.ongoing, s.done)| == 2 * s.max && id !in Unfinished(s.ongoing, s.done)
  {
    var p, u := Purged(s), Unfinished(s.ongoing, s.done);
    assert p[id := s.next].Keys == p.Keys + {id};
    if id in p { assert p.Keys + {id} == p.Keys; } else { assert |p.Keys + {id}| == |p.Keys| + 1; }
    assert u.Keys <= s.ongoing.Keys;
    SubsetSize(u.Keys, s.ongoing.Keys);
    assert |u| == |u.Keys| && |s.ongoing| == |s.ongoing.Keys|;
  }

  // ---------------------------------------------------------------------
  // Whole runs
  // ---------------------------------------------------------------------

  ghost predicate Possible(s: State, es: seq<Event>)
    decreases |es|
  {
    es == [] || (Enabled(s, es[0]) && Possible(Step(s, es[0]), es[1..]))
  }

  function Run(s: State, es: seq<Event>): State
    decreases |es|
  {
    if es == [] then s else Run(Step(s, es[0]), es[1..])
  }

  /** At every call, at most `max` responses are half dropped.  A main loop that
      polls its responses and makes its calls from one task has none. */
  ghost predicate DropsPromptly(s: State, es: seq<Event>)
    decreases |es|
  {
    es == [] || ((es[0].Call? ==> |s.dropping| <= s.max) && DropsPromptly(Step(s, es[0]), es[1..]))
  }

  lemma {:induction false} RunInv(s: State, es: seq<Event>)
    requires Inv(s) && Possible(s, es)
    ensures Inv(Run(s, es)) && Run(s, es).max == s.max
    decreases |es|
  {
    if es != [] {
      StepInv(s, es[0]);
      RunInv(Step(s, es[0]), es[1..]);
    }
  }

  /** In every run, repeated ids included: permits are conserved, at most `max`
      requests are in flight, and unfinished entries are accounted for. */
  lemma PermitsNeverLeak(max: nat, es: seq<Event>)
    requires max > 0 && Possible(Fresh(max), es)
    ensures var s := Run(Fresh(max), es);
      && s.free + One(s.ready) + One(s.acquire.Granted?) + |s.live| == max
      && |s.live| <= max
      && |Unfinished(s.ongoing, s.done)| <= |s.live| + |s.dropping|
  {
    RunInv(Fresh(max), es);
    UnfinishedBound(Run(Fresh(max), es));
  }

  lemma {:induction false} OngoingBounded(s: State, es: seq<Event>)
    requires Inv(s) && Possible(s, es) && DropsPromptly(s, es) && |s.ongoing| <= 2 * s.max
    ensures |Run(s, es).ongoing| <= 2 * s.max
    decreases |es|
  {
    if es != [] {
      StepInv(s, es[0]);
      match es[0] {
        case Call(id) => CallBound(s, id);
        case Cancel(id) =>
          if id in s.ongoing {
            assert (s.ongoing - {id}).Keys == s.ongoing.Keys - {id};
            SubsetSize(s.ongoing.Keys - {id}, s.ongoing.Keys);
          }
        case _ =>
      }
      OngoingBounded(Step(s, es[0]), es[1..]);
    }
  }

  lemma RunOne(s: State, e: Event, es: seq<Event>)
    ensures Run(s, [e] + es) == Run(Step(s, e), es)
    ensures Possible(s, [e] + es) <==> Enabled(s, e) && Possible(Step(s, e), es)
  {
    assert ([e] + es)[0] == e && ([e] + es)[1..] == es;
  }

  /** One round of a single-permit middleware whose response is half dropped. */
  lemma HalfDroppedRound(s: State, id: Id, es: seq<Event>) returns (s': State)
    requires s.max == 1 && s.free == 1 && s.acquire.NoFuture? && !s.ready && s.live == {} && |s.ongoing| < 2
    ensures s' == State(1, 1, NoFuture, false, s.ongoing[id := s.next], s.done, s.cancelled, s.next + 1, {},
                        s.dropping + {s.next}, s.latest[id := s.next])
    ensures Run(s, [PollReady] + ([Call(id)] + ([ReleasePermit(s.next)] + es))) == Run(s', es)
    ensures Possible(s, [PollReady] + ([Call(id)] + ([ReleasePermit(s.next)] + es))) <==> Possible(s', es)
  {
    var s1 := Step(s, PollReady);
    var s2 := Step(s1, Call(id));
    s' := Step(s2, ReleasePermit(s.next));
    RunOne(s, PollReady, [Call(id)] + ([ReleasePermit(s.next)] + es));
    RunOne(s1, Call(id), [ReleasePermit(s.next)] + es);
    RunOne(s2, ReleasePermit(s.next), es);
  }

  /** One half-dropped response is enough to exceed the live ones. */
  lemma LiveBoundMayFail() returns (es: seq<Event>)
    ensures Possible(Fresh(1), es)
    ensures var s := Run(Fresh(1), es); |Unfinished(s.ongoing, s.done)| == 1 && |s.live| == 0
  {
    es := [PollReady] + ([Call("a")] + ([ReleasePermit(0)] + []));
    var s := HalfDroppedRound(Fresh(1), "a", []);
    assert Unfinished(s.ongoing, s.done) == map["a" := 0];
  }

  /** Without prompt drops the bound fails: two half-dropped responses are
      enough for a single permit. */
  lemma MapMayOutgrow() returns (es: seq<Event>)
    ensures Possible(Fresh(1), es) && |Run(Fresh(1), es).ongoing| == 3
  {
    var last := [PollReady] + ([Call("c")] + []);
    var second := [PollReady] + ([Call("b")] + ([ReleasePermit(1)] + last));
    es := [PollReady] + ([Call("a")] + ([ReleasePermit(0)] + second));
    var s1 := HalfDroppedRound(Fresh(1), "a", second);
    var s2 := HalfDroppedRound(s1, "b", last);
    var s3 := Step(s2, PollReady);
    RunOne(s2, PollReady, [Call("c")] + []);
    RunOne(s3, Call("c"), []);
    assert "a" != "b" && "a" != "c" && "b" != "c";
    assert s3.ongoing == map["a" := 0, "b" := 1] && s3.done == {};
    assert Purged(s3) == s3.ongoing;
    assert Called(s3, "c").ongoing == map["a" := 0, "b" := 1, "c" := 2];
  }

  /** A cancel notification reaches the latest live request of its id, and no
      other: purging never loses the handle of a running request. */
  lemma CancelReachesLatest(s: State, id: Id, r: Serial)
    requires Inv(s) && r in s.live + s.dropping && r !in s.cancelled
    ensures r in CancelledBy(s, id).cancelled <==> id in s.latest && s.latest[id] == r
  {
  }

  // ---------------------------------------------------------------------
  // Finishing
  // ---------------------------------------------------------------------

  predicate Finishing(es: seq<Event>) {
    forall i :: 0 <= i < |es| ==> es[i].ReleasePermit? || es[i].SignalDone?
  }

  /** No response is around: every permit is free or with the middleware itself,
      and nothing that is listed is unfinished. */
  ghost predicate Idle(s: State) {
    && s.live == {} && s.dropping == {} && s.free + One(s.ready) + One(s.acquire.Granted?) == s.max
    && Unfinished(s.ongoing, s.done) == map[]
  }

  lemma IdleOnce(s: State)
    requires Inv(s) && s.live == {} && s.dropping == {}
    ensures Idle(s)
  {
  }

  /** From every state, dropping the responses that are around, and nothing else,
      leads to an idle middleware. */
  lemma {:induction false} DropsLeadToIdle(s: State) returns (es: seq<Event>)
    requires Inv(s)
    ensures Finishing(es) && Possible(s, es) && Idle(Run(s, es))
    decreases 2 * |s.live| + |s.dropping|
  {
    if s.live == {} && s.dropping == {} {
      IdleOnce(s);
      es := [];
    } else {
      var e := DropOne(s);
      StepInv(s, e);
      var rest := DropsLeadToIdle(Step(s, e));
      es := [e] + rest;
      RunOne(s, e, rest);
    }
  }

  lemma DropOne(s: State) returns (e: Event)
    requires Inv(s) && (s.live != {} || s.dropping != {})
    ensures Enabled(s, e) && (e.ReleasePermit? || e.SignalDone?)
    ensures var s' := Step(s, e); 2 * |s'.live| + |s'.dropping| < 2 * |s.live| + |s.dropping|
  {
    if s.dropping != {} {
      var r :| r in s.dropping;
      e := SignalDone(r);
      assert |s.dropping - {r}| == |s.dropping| - 1;
    } else {
      var r :| r in s.live;
      e := ReleasePermit(r);
      assert |s.live - {r}| == |s.live| - 1 && |s.dropping + {r}| == |s.dropping| + 1;
    }
  }

  /** A finished request stays finished, and the next purge drops its entry. */
  lemma {:induction false} FinishedForGood(s: State, es: seq<Event>, r: Serial)
    requires Possible(s, es) && r in s.done
    ensures r in Run(s, es).done
    ensures var u := Unfinished(Run(s, es).ongoing, Run(s, es).done); forall id :: id in u ==> u[id] != r
    decreases |es|
  {
    if es != [] { FinishedForGood(Step(s, es[0]), es[1..], r); }
  }

  // ---------------------------------------------------------------------
  // The middleware object
  // ---------------------------------------------------------------------

  class Concurrency {
    const max: nat
    var free: nat
    var acquire: Acquire
    var ready: bool
    var ongoing: map<Id, Serial>
    var done: set<Serial>
    var cancelled: set<Serial>
    var next: Serial
    var live: set<Serial>
    ghost var dropping: set<Serial>
    ghost var latest: map<Id, Serial>

    ghost function Value(): State
      reads this
    {
      State(max, free, acquire, ready, ongoing, done, cancelled, next, live, dropping, latest)
    }

    constructor (max: nat)
      requires max > 0
      ensures Value() == Fresh(max) && Inv(Value())
    {
      this.max, free, acquire, ready := max, max, NoFuture, false;
      ongoing, done, cancelled, next := map[], {}, {}, 0;
      live, dropping, latest := {}, {}, map[];
    }

    /** Not ready means that every permit is with a live request. */
    method PollReady() returns (isReady: bool)
      requires Inv(Value())
      modifies this
      ensures Value() == Polled(old(Value())) && Inv(Value())
      ensures isReady == ready && (!isReady ==> |live| == max)
    {
      StepInv(Value(), Event.PollReady);
      if ready { return true; }
      if acquire.NoFuture? {
        if free == 0 {
          acquire := Queued;
          return false;
        }
        free := free - 1;
        ready := true;
        return true;
      }
      if acquire.Queued? { return false; }
      acquire := NoFuture;
      ready := true;
      return true;
    }

    method Call(id: Id) returns (response: Serial)
      requires Inv(Value()) && ready
      modifies this
      ensures Value() == Called(old(Value()), id) && Inv(Value())
      ensures response == old(next) && response in live && id in ongoing && ongoing[id] == response
    {
      CallInv(Value(), id);
      response := Register(id);
    }

    /** The statements of `call`, which need no more than the ready permit. */
    method Register(id: Id) returns (response: Serial)
      requires ready
      modifies this
      ensures Value() == Called(old(Value()), id)
      ensures response == old(next) && response in live && id in ongoing && ongoing[id] == response
    {
      ready := false;
      if |ongoing| >= max * 2 {
        ongoing := Unfinished(ongoing, done);
      }
      response := next;
      next := next + 1;
      ongoing := ongoing[id := response];
      live := live + {response};
      latest := latest[id := response];
    }

    method NotifyCancel(id: Id)
      requires Inv(Value())
      modifies this
      ensures Value() == CancelledBy(old(Value()), id) && Inv(Value())
    {
      CancelInv(Value(), id);
      if id in ongoing {
        cancelled := cancelled + {ongoing[id]};
        ongoing := ongoing - {id};
      }
    }

    /** First half of dropping a response: the permit goes back. */
    method ReleasePermit(response: Serial)
      requires Inv(Value()) && response in live
      modifies this
      ensures Value() == Released(old(Value()), response) && Inv(Value())
    {
      ReleaseInv(Value(), response);
      live := live - {response};
      dropping := dropping + {response};
      if acquire.Queued? {
        acquire := Granted;
      } else {
        free := free + 1;
      }
    }

    /** Second half: `DoneSignaller`. */
    method SignalDone(response: Serial)
      requires Inv(Value()) && response in dropping
      modifies this
      ensures Value() == Signalled(old(Value()), response) && Inv(Value())
    {
      SignalInv(Value(), response);
      dropping := dropping - {response};
      done := done + {response};
    }
  }
}
