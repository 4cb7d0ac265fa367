/** The critical sections of the actor mailbox and the coalescing policy
(crates/worker/src/mailbox.rs). */
module MailboxQueue {
  import opened Prelude

  datatype SendError = Closed

  /** Outcome of one pass through the lock. */
  datatype Attempt = Accepted | Refused | Full
  datatype Received<T> = Message(msg: T) | Drained | Empty

  type Eq<!T> = (T, T) -> bool

  ghost predicate Equivalence<T(!new)>(eq: Eq<T>) {
    && (forall x :: eq(x, x))
    && (forall x, y :: eq(x, y) ==> eq(y, x))
    && (forall x, y, z :: eq(x, y) && eq(y, z) ==> eq(x, z))
  }

  /** Index of the first entry equivalent to `msg`, or the length. */
  function FirstMatch<T>(queue: seq<T>, msg: T, eq: Eq<T>): (i: nat)
    ensures i <= |queue|
    ensures i < |queue| ==> eq(queue[i], msg)
    ensures forall j :: 0 <= j < i ==> !eq(queue[j], msg)
  {
    if queue == [] || eq(queue[0], msg) then 0 else 1 + FirstMatch(queue[1..], msg, eq)
  }

  /** Replace the matching entry, or append and evict the oldest when full. */
  function Coalesced<T>(queue: seq<T>, msg: T, eq: Eq<T>, capacity: nat): seq<T> {
    var i := FirstMatch(queue, msg, eq);
    if i < |queue| then queue[i := msg]
    else (if |queue| >= capacity && queue != [] then queue[1..] else queue) + [msg]
  }

  class MailboxState<T> {
    const capacity: nat
    var queue: seq<T>
    var closed: bool

    constructor (capacity: nat)
      requires capacity > 0
      ensures this.capacity == capacity && queue == [] && !closed
    {
      this.capacity := capacity;
      queue, closed := [], false;
    }

    method Close()
      modifies this`closed
      ensures closed
    {
      closed := true;
    }

    /** One pass of a backpressure `send`. */
    method TrySend(msg: T) returns (r: Attempt)
      modifies this`queue
      ensures r == if closed then Refused else if |old(queue)| < capacity then Accepted else Full
      ensures queue == if r.Accepted? then old(queue) + [msg] else old(queue)
    {
      if closed { return Refused; }
      if |queue| < capacity {
        queue := queue + [msg];
        return Accepted;
      }
      r := Full;
    }

    /** A coalescing `send`: it never waits. */
    method SendCoalesced(msg: T, eq: Eq<T>) returns (r: Result<(), SendError>)
      requires capacity > 0
      modifies this`queue
      ensures r == if closed then Err(Closed) else Ok(())
      ensures queue == if r.Ok? then Coalesced(old(queue), msg, eq, capacity) else old(queue)
    {
      if closed { return Err(Closed); }
      var i := 0;
      while i < |queue|
        invariant 0 <= i <= |queue| && queue == old(queue)
        invariant forall j :: 0 <= j < i ==> !eq(queue[j], msg)
      {
        if eq(queue[i], msg) {
          assert i == FirstMatch(queue, msg, eq);
          queue := queue[i := msg];
          return Ok(());
        }
        i := i + 1;
      }
      if |queue| >= capacity {
        queue := queue[1..];
      }
      queue := queue + [msg];
      r := Ok(());
    }

    /** One pass of `recv`. */
    method TryRecv() returns (r: Received<T>)
      modifies this`queue
      ensures r == if old(queue) != [] then Message(old(queue)[0]) else if closed then Drained else Empty
      ensures queue == if old(queue) != [] then old(queue)[1..] else []
    {
      if queue != [] {
        r := Message(queue[0]);
        queue := queue[1..];
      } else if closed {
        r := Drained;
      } else {
        r := Empty;
      }
    }
  }

  // ---------------------------------------------------------------------
  // Runs of the coalescing policy
  // ---------------------------------------------------------------------

  datatype Op<T> = Push(msg: T) | Pop

  function After<T>(queue: seq<T>, op: Op<T>, eq: Eq<T>, capacity: nat): seq<T> {
    match op
    case Push(m) => Coalesced(queue, m, eq, capacity)
    case Pop => if queue == [] then [] else queue[1..]
  }

  /** The queue after a run from empty. */
  function QueueAfter<T>(ops: seq<Op<T>>, eq: Eq<T>, capacity: nat): seq<T> {
    if ops == [] then []
    else After(QueueAfter(ops[..|ops| - 1], eq, capacity), ops[|ops| - 1], eq, capacity)
  }

  /** The operations at which each entry of the queue entered it. */
  function BirthsAfter<T>(ops: seq<Op<T>>, eq: Eq<T>, capacity: nat): (births: seq<nat>)
    ensures |births| == |QueueAfter(ops, eq, capacity)|
  {
    if ops == [] then []
    else
      var n := |ops| - 1;
      var before, births := QueueAfter(ops[..n], eq, capacity), BirthsAfter(ops[..n], eq, capacity);
      match ops[n]
      case Push(m) =>
        if FirstMatch(before, m, eq) < |before| then births
        else (if |before| >= capacity && before != [] then births[1..] else births) + [n]
      case Pop => if before == [] then [] else births[1..]
  }

  /** `msg` is the newest accepted message of its class. */
  predicate Newest<T(==)>(ops: seq<Op<T>>, eq: Eq<T>, msg: T) {
    exists k :: 0 <= k < |ops| && ops[k] == Push(msg)
      && forall j :: k < j < |ops| && ops[j].Push? ==> !eq(msg, ops[j].msg)
  }

  ghost predicate KeyedQueueOk<T(!new)>(ops: seq<Op<T>>, eq: Eq<T>, capacity: nat) {
    EntriesOk(ops, eq, capacity, QueueAfter(ops, eq, capacity), BirthsAfter(ops, eq, capacity))
  }

  ghost predicate EntriesOk<T(!new)>(ops: seq<Op<T>>, eq: Eq<T>, capacity: nat, q: seq<T>, births: seq<nat>) {
    && |q| <= capacity && |births| == |q|
    && (forall i, j :: 0 <= i < j < |q| ==> !eq(q[i], q[j]))
    && (forall i :: 0 <= i < |q| ==> Newest(ops, eq, q[i]))
    && (forall i, j :: 0 <= i < j < |q| ==> births[i] < births[j])
    && (forall i :: 0 <= i < |q| ==>
          births[i] < |ops| && ops[births[i]].Push? && eq(ops[births[i]].msg, q[i]))
  }

  lemma NewestSurvives<T(!new)>(ops: seq<Op<T>>, op: Op<T>, eq: Eq<T>, msg: T)
    requires Newest(ops, eq, msg) && (op.Push? ==> !eq(msg, op.msg))
    ensures Newest(ops + [op], eq, msg)
  {
    var k :| 0 <= k < |ops| && ops[k] == Push(msg)
      && forall j :: k < j < |ops| && ops[j].Push? ==> !eq(msg, ops[j].msg);
    var all := ops + [op];
    assert all[k] == Push(msg);
    forall j | k < j < |all| && all[j].Push? ensures !eq(msg, all[j].msg) {
      if j < |ops| { assert all[j] == ops[j]; }
    }
  }

  lemma NewestNow<T(!new)>(ops: seq<Op<T>>, eq: Eq<T>, msg: T)
    ensures Newest(ops + [Push(msg)], eq, msg)
  {
    assert (ops + [Push(msg)])[|ops|] == Push(msg);
  }

  lemma ReplacedInPlace<T(!new)>(ops: seq<Op<T>>, m: T, eq: Eq<T>, capacity: nat)
    requires FirstMatch(QueueAfter(ops, eq, capacity), m, eq) < |QueueAfter(ops, eq, capacity)|
    ensures var q := QueueAfter(ops, eq, capacity);
      && QueueAfter(ops + [Push(m)], eq, capacity) == q[FirstMatch(q, m, eq) := m]
      && BirthsAfter(ops + [Push(m)], eq, capacity) == BirthsAfter(ops, eq, capacity)
  {
    var n, all := |ops|, ops + [Push(m)];
    assert all[..n] == ops && all[n] == Push(m);
  }

  lemma ReplacedNewest<T(!new)>(ops: seq<Op<T>>, m: T, eq: Eq<T>, q: seq<T>, i: nat, j: nat)
    requires Equivalence(eq) && i < |q| && j < |q| && eq(q[i], m)
    requires forall a, b :: 0 <= a < b < |q| ==> !eq(q[a], q[b])
    requires forall a :: 0 <= a < |q| ==> Newest(ops, eq, q[a])
    ensures Newest(ops + [Push(m)], eq, q[i := m][j])
  {
    if j == i {
      NewestNow(ops, eq, m);
    } else {
      assert !eq(q[j], m);
      NewestSurvives(ops, Push(m), eq, q[j]);
    }
  }

  lemma ReplaceKeepsOk<T(!new)>(ops: seq<Op<T>>, m: T, eq: Eq<T>, capacity: nat)
    requires Equivalence(eq) && KeyedQueueOk(ops, eq, capacity)
    requires FirstMatch(QueueAfter(ops, eq, capacity), m, eq) < |QueueAfter(ops, eq, capacity)|
    ensures KeyedQueueOk(ops + [Push(m)], eq, capacity)
  {
    var n, all := |ops|, ops + [Push(m)];
    assert all[..n] == ops && all[n] == Push(m);
    var q, births := QueueAfter(ops, eq, capacity), BirthsAfter(ops, eq, capacity);
    var q' := QueueAfter(all, eq, capacity);
    var i := FirstMatch(q, m, eq);
    ReplacedInPlace(ops, m, eq, capacity);
    forall j | 0 <= j < |q'| ensures Newest(all, eq, q'[j]) {
      ReplacedNewest(ops, m, eq, q, i, j);
    }
    assert forall j :: 0 <= j < |q'| ==> all[births[j]] == ops[births[j]];
  }

  lemma AppendKeepsOk<T(!new)>(ops: seq<Op<T>>, m: T, eq: Eq<T>, capacity: nat)
    requires capacity > 0 && Equivalence(eq) && KeyedQueueOk(ops, eq, capacity)
    requires FirstMatch(QueueAfter(ops, eq, capacity), m, eq) == |QueueAfter(ops, eq, capacity)|
    ensures KeyedQueueOk(ops + [Push(m)], eq, capacity)
  {
    var n, all := |ops|, ops + [Push(m)];
    assert all[..n] == ops && all[n] == Push(m);
    var q, births := QueueAfter(ops, eq, capacity), BirthsAfter(ops, eq, capacity);
    var q', births' := QueueAfter(all, eq, capacity), BirthsAfter(all, eq, capacity);
    var drop := if |q| >= capacity then 1 else 0;
    assert q' == q[drop..] + [m] && births' == births[drop..] + [n];
    DropEntries(ops, eq, capacity, q, births, drop);
    AppendEntry(ops, m, eq, capacity, q[drop..], births[drop..]);
  }

  lemma DropEntries<T(!new)>(ops: seq<Op<T>>, eq: Eq<T>, capacity: nat, q: seq<T>, births: seq<nat>, drop: nat)
    requires EntriesOk(ops, eq, capacity, q, births) && drop <= |q|
    ensures EntriesOk(ops, eq, capacity, q[drop..], births[drop..])
  {
  }

  lemma AppendEntry<T(!new)>(ops: seq<Op<T>>, m: T, eq: Eq<T>, capacity: nat, q: seq<T>, births: seq<nat>)
    requires eq(m, m) && EntriesOk(ops, eq, capacity, q, births) && |q| < capacity
    requires forall j :: 0 <= j < |q| ==> !eq(q[j], m)
    ensures EntriesOk(ops + [Push(m)], eq, capacity, q + [m], births + [|ops|])
  {
    var all, q', births' := ops + [Push(m)], q + [m], births + [|ops|];
    NewestNow(ops, eq, m);
    forall j | 0 <= j < |q'| ensures Newest(all, eq, q'[j]) {
      if j < |q| { NewestSurvives(ops, Push(m), eq, q[j]); }
    }
    forall j | 0 <= j < |q'|
      ensures births'[j] < |all| && all[births'[j]].Push? && eq(all[births'[j]].msg, q'[j])
    {
      if j < |q| { assert all[births[j]] == ops[births[j]]; }
    }
  }

  lemma PushKeepsOk<T(!new)>(ops: seq<Op<T>>, m: T, eq: Eq<T>, capacity: nat)
    requires capacity > 0 && Equivalence(eq) && KeyedQueueOk(ops, eq, capacity)
    ensures KeyedQueueOk(ops + [Push(m)], eq, capacity)
  {
    var q := QueueAfter(ops, eq, capacity);
    if FirstMatch(q, m, eq) < |q| {
      ReplaceKeepsOk(ops, m, eq, capacity);
    } else {
      AppendKeepsOk(ops, m, eq, capacity);
    }
  }

  lemma PopKeepsOk<T(!new)>(ops: seq<Op<T>>, eq: Eq<T>, capacity: nat)
    requires KeyedQueueOk(ops, eq, capacity)
    ensures KeyedQueueOk(ops + [Pop], eq, capacity)
  {
    var n, all := |ops|, ops + [Pop];
    assert all[..n] == ops && all[n] == Pop;
    var q, q' := QueueAfter(ops, eq, capacity), QueueAfter(all, eq, capacity);
    forall j | 0 <= j < |q'| ensures Newest(all, eq, q'[j]) {
      assert q'[j] == q[j + 1];
      NewestSurvives(ops, Pop, eq, q[j + 1]);
    }
  }

  /** After every run: entries are bounded and pairwise inequivalent, each
      holds the newest accepted value of its class, and they stand in the order
      in which their classes entered. */
  lemma {:induction false} CoalescingRuns<T(!new)>(ops: seq<Op<T>>, eq: Eq<T>, capacity: nat)
    requires capacity > 0 && Equivalence(eq)
    ensures KeyedQueueOk(ops, eq, capacity)
  {
    if ops != [] {
      var n := |ops| - 1;
      CoalescingRuns(ops[..n], eq, capacity);
      assert ops == ops[..n] + [ops[n]];
      match ops[n]
      case Push(m) => PushKeepsOk(ops[..n], m, eq, capacity);
      case Pop => PopKeepsOk(ops[..n], eq, capacity);
    }
  }

  predicate Gone<T>(queue: seq<T>, eq: Eq<T>, msg: T) {
    forall j :: 0 <= j < |queue| ==> !eq(msg, queue[j])
  }

  /** A class leaves the queue only by being popped, or as the oldest one when
      a message of a new class arrives at a full queue; a message of a class
      already queued leaves every class in its place. */
  lemma LeavesOnlyFromTheFront<T(!new)>(ops: seq<Op<T>>, op: Op<T>, eq: Eq<T>, capacity: nat, i: nat)
    requires capacity > 0 && Equivalence(eq)
    requires i < |QueueAfter(ops, eq, capacity)|
    ensures var q, q' := QueueAfter(ops, eq, capacity), QueueAfter(ops + [op], eq, capacity);
      && (Gone(q', eq, q[i]) ==>
            i == 0 && (op.Push? ==> |q| == capacity && FirstMatch(q, op.msg, eq) == |q|))
      && (op.Push? && FirstMatch(q, op.msg, eq) < |q| ==>
            |q'| == |q| && forall j :: 0 <= j < |q| ==> eq(q[j], q'[j]))
  {
    var all := ops + [op];
    assert all[..|ops|] == ops && all[|ops|] == op;
    CoalescingRuns(ops, eq, capacity);
    var q, q' := QueueAfter(ops, eq, capacity), QueueAfter(all, eq, capacity);
    if op.Push? && FirstMatch(q, op.msg, eq) < |q| {
      assert eq(q[i], q'[i]);
    } else if op.Push? && |q| < capacity {
      assert q'[i] == q[i];
    } else if i > 0 {
      assert q'[i - 1] == q[i];
    }
  }

  /** A message that is sent is in the queue: in the place of its class, or last;
      and nothing else comes in. */
  lemma PushedIsQueued<T(!new)>(ops: seq<Op<T>>, m: T, eq: Eq<T>, capacity: nat)
    requires capacity > 0
    ensures var q, q' := QueueAfter(ops, eq, capacity), QueueAfter(ops + [Push(m)], eq, capacity);
      var i := FirstMatch(q, m, eq);
      && |q'| > 0 && (if i < |q| then |q'| == |q| && q'[i] == m else q'[|q'| - 1] == m)
      && (forall j :: 0 <= j < |q'| && j != (if i < |q| then i else |q'| - 1) ==>
            q'[j] == q[if |q'| == |q| && i == |q| then j + 1 else j])
  {
    var all := ops + [Push(m)];
    assert all[..|ops|] == ops && all[|ops|] == Push(m);
  }
}
