/** Parked senders and free places (crates/worker/src/mailbox.rs, `send` and
`recv`): a `Notify` stores one permit, however many places came free. */
module MailboxParking {
  import opened MailboxProtocol

  /** A single slot that is not empty is full. */
  lemma ParkedMeansFull(run: seq<State>, solo: bool, k: nat, i: nat)
    requires IsRun(run, Backpressure, 1, solo) && k < |run|
    requires !run[k].closed && i in run[k].senders && run[k].senders[i].Parked?
    ensures |run[k].queue| == 1 || SendSignalPending(run[k])
  {
    RunInv(run, Backpressure, 1, solo, k);
    assert Blocking(run[k].senders[i]);
  }

  /** Every run here is one of a backpressure mailbox with one receiver. */
  ghost predicate Reaches(run: seq<State>, capacity: nat, s: State) {
    IsRun(run, Backpressure, capacity, true) && run[|run| - 1] == s
  }

  lemma Extend(run: seq<State>, capacity: nat, s: State, a: Action) returns (run': seq<State>)
    requires Reaches(run, capacity, s) && Enabled(s, a)
    ensures Reaches(run', capacity, Step(s, a))
  {
    run' := run + [Step(s, a)];
    StepFollows(s, a);
    forall k | 0 < k < |run'| ensures Follows(run'[k - 1], run'[k]) {
      if k < |run| { assert run'[k - 1] == run[k - 1] && run'[k] == run[k]; }
    }
  }

  function Zeros(k: nat): seq<Msg> { seq(k, _ => 0) }

  /** An idle mailbox holding `k` messages. */
  function Filled(capacity: nat, k: nat): State {
    Init(Backpressure, capacity, true).(queue := Zeros(k), accepted := Zeros(k), notifyRecv := Notify(k > 0, [], 0))
  }

  lemma {:induction false} FillRun(capacity: nat, k: nat) returns (run: seq<State>)
    requires k <= capacity
    ensures Reaches(run, capacity, Filled(capacity, k))
  {
    if k == 0 {
      run := [Filled(capacity, 0)];
      assert Zeros(0) == [];
    } else {
      var s := Filled(capacity, k - 1);
      run := FillRun(capacity, k - 1);
      run := Extend(run, capacity, s, BeginSend(0, 0));
      var s1 := s.(senders := map[0 := Starting(0)]);
      run := Extend(run, capacity, s1, CreateNotified(0));
      var s2 := s.(senders := map[0 := Locking(0, 0)]);
      run := Extend(run, capacity, s2, LockSend(0));
      assert Zeros(k) == Zeros(k - 1) + [0] && s2.senders - {0} == map[];
    }
  }

  predicate IsFull(s: State) {
    !s.closed && |s.queue| >= s.capacity && s.policy.Backpressure? && s.notifySend.calls == 0
  }

  /** Another sender that finds the mailbox full. */
  lemma BlockRun(run: seq<State>, capacity: nat, s: State, i: nat) returns (run': seq<State>)
    requires Reaches(run, capacity, s) && IsFull(s) && i !in s.senders
    ensures Reaches(run', capacity, s.(senders := s.senders[i := Polling(0, 0)]))
  {
    run' := Extend(run, capacity, s, BeginSend(i, 0));
    var s1 := s.(senders := s.senders[i := Starting(0)]);
    run' := Extend(run', capacity, s1, CreateNotified(i));
    var s2 := s.(senders := s.senders[i := Locking(0, 0)]);
    assert s1.senders[i := Locking(0, 0)] == s2.senders;
    run' := Extend(run', capacity, s2, LockSend(i));
    assert s2.senders[i := Polling(0, 0)] == s.senders[i := Polling(0, 0)];
  }

  /** The state after a message was taken and nobody was found parked. */
  function Taken(s: State): State
    requires s.queue != []
  {
    s.(queue := s.queue[1..], received := s.received + [s.queue[0]], notifySend := s.notifySend.(permit := true))
  }

  lemma PopRun(run: seq<State>, capacity: nat, s: State) returns (run': seq<State>)
    requires Reaches(run, capacity, s) && s.queue != [] && s.receivers == map[]
    requires s.policy.Backpressure? && s.notifySend.waiters == []
    ensures Reaches(run', capacity, Taken(s))
  {
    run' := Extend(run, capacity, s, BeginRecv(0));
    var s1 := s.(receivers := map[0 := Receiving]);
    run' := Extend(run', capacity, s1, LockRecv(0));
    var s2 := s.(queue := s.queue[1..], received := s.received + [s.queue[0]], receivers := map[0 := Popped]);
    run' := Extend(run', capacity, s2, NotifyOneSender(0));
    assert s2.receivers - {0} == map[];
  }

  predicate ParkedBelow(s: State, capacity: nat) {
    && !s.closed && s.senders == map[2 := Parked(0, 0)] && s.receivers == map[]
    && |s.queue| + 1 == capacity && !s.notifySend.permit
  }

  /** With room for two or more it is not so: two senders find the mailbox full,
      two pops leave one permit, the sender that takes it sends, and the other
      is parked with a place free and nothing on its way to it. */
  lemma ParkedBelowCapacity(capacity: nat) returns (run: seq<State>)
    requires capacity >= 2
    ensures IsRun(run, Backpressure, capacity, true)
    ensures var s := run[|run| - 1];
      && !s.closed && 2 in s.senders && s.senders[2].Parked?
      && |s.queue| == capacity - 1 && !SendSignalPending(s)
  {
    var s := Filled(capacity, capacity);
    run := FillRun(capacity, capacity);
    run := BlockRun(run, capacity, s, 1);
    var s1 := s.(senders := s.senders[1 := Polling(0, 0)]);
    run := BlockRun(run, capacity, s1, 2);
    var s2 := s1.(senders := s1.senders[2 := Polling(0, 0)]);
    run := PopRun(run, capacity, s2);
    run := PopRun(run, capacity, Taken(s2));
    run := LastTurn(run, capacity, Taken(Taken(s2)));
  }

  predicate BeforeLastTurn(s: State) {
    && !s.closed && s.policy.Backpressure? && |s.queue| + 2 == s.capacity && s.receivers == map[]
    && s.senders == map[1 := Polling(0, 0), 2 := Polling(0, 0)]
    && s.notifySend == Notify(true, [], 0) && s.notifyRecv == Notify(true, [], 0)
  }

  lemma LastTurn(run: seq<State>, capacity: nat, s: State) returns (run': seq<State>)
    requires Reaches(run, capacity, s) && BeforeLastTurn(s) && s.capacity == capacity
    ensures IsRun(run', Backpressure, capacity, true) && ParkedBelow(run'[|run'| - 1], capacity)
  {
    run' := Extend(run, capacity, s, PollSend(1));
    var s1 := s.(senders := map[1 := Starting(0), 2 := Polling(0, 0)], notifySend := FRESH);
    assert s.senders[1 := Starting(0)] == s1.senders;
    run' := Extend(run', capacity, s1, PollSend(2));
    var s2 := s1.(senders := map[1 := Starting(0), 2 := Parked(0, 0)], notifySend := Notify(false, [2], 0));
    assert s1.senders[2 := Parked(0, 0)] == s2.senders && [] + [2] == [2];
    run' := Extend(run', capacity, s2, CreateNotified(1));
    var s3 := s2.(senders := map[1 := Locking(0, 0), 2 := Parked(0, 0)]);
    assert s2.senders[1 := Locking(0, 0)] == s3.senders;
    run' := Extend(run', capacity, s3, LockSend(1));
    assert s3.senders - {1} == map[2 := Parked(0, 0)];
  }
}
