/** Who sleeps through a close (crates/worker/src/mailbox.rs, `close` and `recv`).

`recv` creates its `Notified` after giving up the lock, so a `close` can notify
in between.
 */
module MailboxClose {
  import opened MailboxProtocol

  /** Closed, and every `close` under way has told the receivers. */
  ghost predicate Quiet(s: State) {
    s.closed && forall c :: c in s.closers ==> !s.closers[c].Marked?
  }

  ghost predicate QuietFrom(run: seq<State>, k: nat, j: nat)
    requires k <= j < |run|
  {
    forall i :: k <= i <= j ==> Quiet(run[i])
  }

  /** The receiver sleeps, or will find nothing to wake it when it polls. */
  predicate Stuck(s: State) {
    0 in s.receivers &&
    match s.receivers[0]
    case Asleep(_) => true
    case Creating => !s.notifyRecv.permit
    case Waiting(epoch) => epoch == s.notifyRecv.calls && !s.notifyRecv.permit
    case _ => false
  }

  lemma SendersLeaveReceivers(s: State, a: Action)
    requires s.closed && Enabled(s, a)
    requires a.BeginSend? || a.CreateNotified? || a.LockSend? || a.PollSend? || a.TellSenders?
    ensures Step(s, a).receivers == s.receivers && Step(s, a).notifyRecv == s.notifyRecv
  {
  }

  lemma MarkingEndsQuiet(s: State, a: Action)
    requires Enabled(s, a)
    ensures a.MarkClosed? ==> !Quiet(Step(s, a))
  {
    if a.MarkClosed? { assert Step(s, a).closers[a.c].Marked?; }
  }

  lemma QuietFollows(s: State, s': State) returns (a: Action)
    requires Follows(s, s') && Quiet(s')
    ensures Enabled(s, a) && s' == Step(s, a) && !a.MarkClosed?
  {
    a :| Enabled(s, a) && s' == Step(s, a);
    MarkingEndsQuiet(s, a);
  }

  lemma QuietStep(s: State, a: Action)
    requires Inv(s) && s.solo && Quiet(s) && Enabled(s, a) && !a.MarkClosed?
    ensures Stuck(Step(s, a)) <==> Stuck(s)
  {
    match a
    case LockRecv(_) =>
    case NotifyOneSender(_) =>
    case CreateRecvNotified(_) =>
    case PollRecv(_) =>
    case BeginRecv(_) =>
    case _ => SendersLeaveReceivers(s, a);
  }

  /** While nobody closes again, a single receiver that is stuck stays so, and
      one that is not never gets stuck. */
  lemma {:induction false} QuietRun(run: seq<State>, policy: Policy, capacity: nat, k: nat, j: nat)
    requires capacity > 0 && IsRun(run, policy, capacity, true) && k <= j < |run| && QuietFrom(run, k, j)
    ensures Stuck(run[j]) <==> Stuck(run[k])
  {
    if k < j {
      QuietRun(run, policy, capacity, k, j - 1);
      RunInv(run, policy, capacity, true, j - 1);
      assert Follows(run[j - 1], run[j]) && Quiet(run[j - 1]) && Quiet(run[j]);
      var a := QuietFollows(run[j - 1], run[j]);
      QuietStep(run[j - 1], a);
    }
  }

  /** The moment of the last notification decides: the receiver never comes back
      if and only if it had seen an empty open mailbox, had not created its
      `Notified` yet, and no permit was stored. */
  lemma LastCloseDecides(run: seq<State>, policy: Policy, capacity: nat, k: nat, c: nat, j: nat)
    requires capacity > 0 && IsRun(run, policy, capacity, true) && k < j < |run|
    requires Enabled(run[k], TellReceivers(c)) && run[k + 1] == Step(run[k], TellReceivers(c))
    requires QuietFrom(run, k + 1, j)
    ensures Stuck(run[j]) <==>
      0 in run[k].receivers && run[k].receivers[0].Creating? && !run[k].notifyRecv.permit
  {
    RunInv(run, policy, capacity, true, k);
    TellingWakes(run[k], c);
    QuietRun(run, policy, capacity, k + 1, j);
  }

  /** A notification wakes every sleeper, and every `Notified` created before. */
  lemma TellingWakes(s: State, c: nat)
    requires Inv(s) && Enabled(s, TellReceivers(c))
    ensures var s' := Step(s, TellReceivers(c));
      && (forall r :: r in s.receivers && s.receivers[r].Asleep? ==> s'.receivers[r].Receiving?)
      && (forall r :: r in s.receivers && s.receivers[r].Waiting? ==> s'.receivers[r].epoch != s'.notifyRecv.calls)
      && (s.solo ==> (Stuck(s') <==> 0 in s.receivers && s.receivers[0].Creating? && !s.notifyRecv.permit))
  {
  }

  /** Steps the receiver still has to make before it returns. */
  function StepsLeft(s: State): nat {
    if 0 !in s.receivers then 0
    else match s.receivers[0]
      case Popped => 1
      case Receiving => 2
      case Waiting(_) => 3
      case Creating => 4
      case Asleep(_) => 5
  }

  /** A receiver that is not stuck always has a step to make, each of its steps
      brings it closer to returning, and no other step sets it back. */
  lemma UnstuckReturns(s: State, a: Action)
    requires Inv(s) && s.solo && Quiet(s) && !Stuck(s) && 0 in s.receivers && Enabled(s, a) && !a.MarkClosed?
    ensures Enabled(s, OwnStep(s)) && StepsLeft(Step(s, OwnStep(s))) < StepsLeft(s)
    ensures a == OwnStep(s) || StepsLeft(Step(s, a)) == StepsLeft(s)
  {
    match a
    case LockRecv(_) =>
    case NotifyOneSender(_) =>
    case CreateRecvNotified(_) =>
    case PollRecv(_) =>
    case BeginRecv(_) =>
    case _ => SendersLeaveReceivers(s, a);
  }

  function OwnStep(s: State): Action
    requires 0 in s.receivers && !s.receivers[0].Asleep?
  {
    match s.receivers[0]
    case Receiving => LockRecv(0)
    case Popped => NotifyOneSender(0)
    case Creating => CreateRecvNotified(0)
    case Waiting(_) => PollRecv(0)
  }

  /** With any number of receivers: whoever sleeps when the last notification is
      over sleeps on, until somebody closes again. */
  lemma {:induction false} SleepsOn(run: seq<State>, policy: Policy, capacity: nat, solo: bool, k: nat, j: nat, r: nat)
    requires capacity > 0 && IsRun(run, policy, capacity, solo) && k <= j < |run| && QuietFrom(run, k, j)
    requires r in run[k].receivers && run[k].receivers[r].Asleep?
    ensures r in run[j].receivers && run[j].receivers[r] == run[k].receivers[r]
  {
    if k < j {
      SleepsOn(run, policy, capacity, solo, k, j - 1, r);
      assert Follows(run[j - 1], run[j]) && Quiet(run[j - 1]) && Quiet(run[j]);
      SleepFollows(run[j - 1], run[j], r);
    }
  }

  lemma SleepFollows(s: State, s': State, r: nat)
    requires Follows(s, s') && Quiet(s) && Quiet(s') && r in s.receivers && s.receivers[r].Asleep?
    ensures r in s'.receivers && s'.receivers[r] == s.receivers[r]
  {
    var a := QuietFollows(s, s');
    SleepStep(s, a, r);
  }

  lemma SleepStep(s: State, a: Action, r: nat)
    requires Quiet(s) && Enabled(s, a) && !a.MarkClosed? && r in s.receivers && s.receivers[r].Asleep?
    ensures r in Step(s, a).receivers && Step(s, a).receivers[r] == s.receivers[r]
  {
    match a
    case LockRecv(_) =>
    case NotifyOneSender(_) =>
    case CreateRecvNotified(_) =>
    case PollRecv(_) =>
    case BeginRecv(_) =>
    case _ => SendersLeaveReceivers(s, a);
  }

  /** And it does happen: the receiver finds the queue empty and open, the
      close runs to its end, and only then is the `Notified` created. */
  lemma ReceiverMaySleepThroughClose() returns (run: seq<State>)
    ensures IsRun(run, Backpressure, 1, true)
    ensures var s := run[|run| - 1];
      && s.closed && s.closers == map[] && s.senders == map[] && s.queue == []
      && s.receivers == map[0 := Asleep(1)] && !s.notifyRecv.permit
  {
    run := seq(8, k requires 0 <= k < 8 => SleepState(k));
    forall k | 0 < k < 8 ensures Follows(run[k - 1], run[k]) {
      if k <= 3 { SleepEarly(k); } else if k <= 5 { SleepClose(k); } else { SleepLate(k); }
    }
  }

  function SleepState(k: nat): State
    requires k < 8
  {
    var s0 := Init(Backpressure, 1, true);
    var s3 := s0.(receivers := map[0 := Creating], closed := true, closers := map[0 := Marked]);
    var s5 := s3.(closers := map[], notifyRecv := Notify(false, [], 1), notifySend := Notify(false, [], 1));
    if k == 0 then s0
    else if k == 1 then s0.(receivers := map[0 := Receiving])
    else if k == 2 then s0.(receivers := map[0 := Creating])
    else if k == 3 then s3
    else if k == 4 then s3.(closers := map[0 := ReceiversTold], notifyRecv := Notify(false, [], 1))
    else if k == 5 then s5
    else if k == 6 then s5.(receivers := map[0 := Waiting(1)])
    else s5.(receivers := map[0 := Asleep(1)], notifyRecv := Notify(false, [0], 1))
  }

  lemma SleepEarly(k: nat)
    requires 1 <= k <= 3
    ensures Follows(SleepState(k - 1), SleepState(k))
  {
    StepFollows(SleepState(k - 1), if k == 1 then BeginRecv(0) else if k == 2 then LockRecv(0) else MarkClosed(0));
  }

  lemma SleepClose(k: nat)
    requires 4 <= k <= 5
    ensures Follows(SleepState(k - 1), SleepState(k))
  {
    var a := if k == 4 then TellReceivers(0) else TellSenders(0);
    StepFollows(SleepState(k - 1), a);
    assert Step(SleepState(k - 1), a) == SleepState(k);
  }

  lemma SleepLate(k: nat)
    requires 6 <= k <= 7
    ensures Follows(SleepState(k - 1), SleepState(k))
  {
    StepFollows(SleepState(k - 1), if k == 6 then CreateRecvNotified(0) else PollRecv(0));
  }
}
