/** What becomes of every `send` and `recv` of the actor mailbox
(crates/worker/src/mailbox.rs): over every interleaving, a message is queued or
its sender is told that the mailbox is closed, a receiver gets the oldest
message or the end, and parked senders are woken in the order they parked. */
module MailboxFates {
  import opened MailboxProtocol

  // ---------------------------------------------------------------------
  // Senders
  // ---------------------------------------------------------------------

  predicate Sending(s: State, i: nat, msg: Msg) { i in s.senders && s.senders[i].msg == msg }

  /** The message was put behind all others, or refused because of a close. */
  predicate Answered(s: State, s': State, msg: Msg) {
    if s.closed then s'.queue == s.queue && s'.accepted == s.accepted
    else |s.queue| < s.capacity && s'.queue == s.queue + [msg] && s'.accepted == s.accepted + [msg]
  }

  lemma WakesKeepSenders(s: State, i: nat, msg: Msg)
    requires Sending(s, i, msg)
    ensures Sending(WakeSender(s), i, msg) && Sending(WakeAllSenders(s), i, msg) && Sending(WakeReceiver(s), i, msg)
  {
  }

  lemma SenderStep(s: State, a: Action, i: nat, msg: Msg)
    requires Enabled(s, a) && Sending(s, i, msg)
    ensures Sending(Step(s, a), i, msg) ||
      (a == LockSend(i) && i !in Step(s, a).senders && Answered(s, Step(s, a), msg))
  {
    match a
    case LockSend(j) =>
      if j != i { LockKeepsSender(s, j, i, msg); }
    case NotifyOneSender(r) => WakesKeepSenders(s.(receivers := s.receivers - {r}), i, msg);
    case TellSenders(c) => WakesKeepSenders(s.(closers := s.closers - {c}), i, msg);
    case _ =>
  }

  lemma LockKeepsSender(s: State, j: nat, i: nat, msg: Msg)
    requires j in s.senders && s.senders[j].Locking? && Sending(s, i, msg) && i != j
    ensures Sending(DoLockSend(s, j), i, msg)
  {
  }

  lemma SenderFollows(s: State, s': State, i: nat, msg: Msg)
    requires Follows(s, s') && Sending(s, i, msg)
    ensures Sending(s', i, msg) || (i !in s'.senders && Answered(s, s', msg))
  {
    var a :| Enabled(s, a) && s' == Step(s, a);
    SenderStep(s, a, i, msg);
  }

  predicate StillSending(part: seq<State>, i: nat, msg: Msg) {
    forall n :: 0 <= n < |part| ==> Sending(part[n], i, msg)
  }

  lemma SendingSince(run: seq<State>, k: nat, m: nat, i: nat, msg: Msg)
    requires k < m < |run| && Sending(run[k], i, msg) && StillSending(run[k + 1..m + 1], i, msg)
    ensures StillSending(run[k..m + 1], i, msg)
  {
    assert run[k..m + 1] == [run[k]] + run[k + 1..m + 1];
  }

  lemma NextFollows(run: seq<State>, policy: Policy, capacity: nat, solo: bool, k: nat)
    requires IsRun(run, policy, capacity, solo) && k + 1 < |run|
    ensures Follows(run[k], run[k + 1])
  {
    assert Follows(run[k + 1 - 1], run[k + 1]);
  }

  /** Over every run: a sender is on its way with its message until, at some
      point `m`, the message is queued last or refused because of a close. */
  lemma {:induction false} EverySendIsAnswered(run: seq<State>, policy: Policy, capacity: nat, solo: bool,
                                               k: nat, j: nat, i: nat, msg: Msg) returns (m: nat)
    requires IsRun(run, policy, capacity, solo) && k <= j < |run| && Sending(run[k], i, msg)
    ensures k <= m <= j && StillSending(run[k..m + 1], i, msg)
    ensures m < j ==> i !in run[m + 1].senders && Answered(run[m], run[m + 1], msg)
    decreases j - k
  {
    if k == j {
      m := k;
    } else {
      NextFollows(run, policy, capacity, solo, k);
      SenderFollows(run[k], run[k + 1], i, msg);
      if Sending(run[k + 1], i, msg) {
        m := EverySendIsAnswered(run, policy, capacity, solo, k + 1, j, i, msg);
        SendingSince(run, k, m, i, msg);
      } else {
        m := k;
      }
    }
  }

  /** Nothing else is ever queued by a backpressure mailbox. */
  lemma OnlySendersQueue(s: State, a: Action)
    requires Enabled(s, a) && s.policy.Backpressure?
    ensures Step(s, a).accepted != s.accepted ==>
      a.LockSend? && !s.closed && Step(s, a).accepted == s.accepted + [s.senders[a.i].msg]
  {
    match a
    case LockSend(i) => LockQueues(s, i);
    case _ =>
  }

  lemma LockQueues(s: State, i: nat)
    requires i in s.senders && s.senders[i].Locking?
    ensures DoLockSend(s, i).accepted == s.accepted ||
      (!s.closed && DoLockSend(s, i).accepted == s.accepted + [s.senders[i].msg])
  {
  }

  // ---------------------------------------------------------------------
  // Receivers
  // ---------------------------------------------------------------------

  /** The receiver has not been given anything yet. */
  predicate Expecting(s: State, r: nat) { r in s.receivers && !s.receivers[r].Popped? }

  /** The oldest message was handed over, or there is none and never will be. */
  predicate Served(s: State, s': State) {
    if s.queue != [] then s'.queue == s.queue[1..] && s'.received == s.received + [s.queue[0]]
    else s.closed && s'.queue == [] && s'.received == s.received
  }

  lemma ReceiverStep(s: State, a: Action, r: nat)
    requires Enabled(s, a) && Expecting(s, r) && ReceiversOk(s)
    ensures Expecting(Step(s, a), r) || (a == LockRecv(r) && Served(s, Step(s, a)))
  {
    match a
    case LockSend(i) => LockKeepsReceiver(s, i, r);
    case _ =>
  }

  lemma LockKeepsReceiver(s: State, i: nat, r: nat)
    requires i in s.senders && s.senders[i].Locking? && Expecting(s, r)
    ensures Expecting(DoLockSend(s, i), r)
  {
  }

  lemma ReceiverFollows(s: State, s': State, r: nat)
    requires Follows(s, s') && Expecting(s, r) && ReceiversOk(s)
    ensures Expecting(s', r) || Served(s, s')
  {
    var a :| Enabled(s, a) && s' == Step(s, a);
    ReceiverStep(s, a, r);
  }

  predicate StillExpecting(part: seq<State>, r: nat) {
    forall n :: 0 <= n < |part| ==> Expecting(part[n], r)
  }

  /** Over every run: a receiver waits until, at some point `m`, it takes the
      oldest message, or finds the mailbox closed and empty. */
  lemma {:induction false} EveryRecvIsServed(run: seq<State>, policy: Policy, capacity: nat, solo: bool,
                                             k: nat, j: nat, r: nat) returns (m: nat)
    requires capacity > 0 && IsRun(run, policy, capacity, solo) && k <= j < |run| && Expecting(run[k], r)
    ensures k <= m <= j && StillExpecting(run[k..m + 1], r)
    ensures m < j ==> !Expecting(run[m + 1], r) && Served(run[m], run[m + 1])
    decreases j - k
  {
    if k == j {
      m := k;
    } else {
      RunInv(run, policy, capacity, solo, k);
      NextFollows(run, policy, capacity, solo, k);
      ReceiverFollows(run[k], run[k + 1], r);
      if Expecting(run[k + 1], r) {
        m := EveryRecvIsServed(run, policy, capacity, solo, k + 1, j, r);
        assert run[k..m + 1] == [run[k]] + run[k + 1..m + 1];
      } else {
        m := k;
      }
    }
  }

  // ---------------------------------------------------------------------
  // Waiting in line
  // ---------------------------------------------------------------------

  /** Sender `i` is parked behind `p` others. */
  predicate InLine(s: State, i: nat, p: nat) {
    && i in s.senders && s.senders[i].Parked?
    && p < |s.notifySend.waiters| && s.notifySend.waiters[p] == i
  }

  /** A parked sender moves up by one with each notification, and is woken by the
      next one when it is first; a close wakes it wherever it stands; nothing else
      moves it. */
  lemma LineMoves(s: State, a: Action, i: nat, p: nat)
    requires Enabled(s, a) && SendersOk(s) && InLine(s, i, p)
    ensures var s' := Step(s, a);
      if a.TellSenders? || (a.NotifyOneSender? && p == 0) then s'.senders[i] == Starting(s.senders[i].msg)
      else InLine(s', i, if a.NotifyOneSender? then p - 1 else p)
  {
    match a
    case LockSend(j) => LockKeepsLine(s, j, i, p);
    case NotifyOneSender(r) =>
      var n := s.notifySend;
      assert p > 0 ==> n.waiters[0] != n.waiters[p];
    case _ =>
  }

  lemma LockKeepsLine(s: State, j: nat, i: nat, p: nat)
    requires j in s.senders && s.senders[j].Locking? && InLine(s, i, p)
    ensures InLine(DoLockSend(s, j), i, p)
  {
  }

  /** A sender that polls spends the stored notification, or parks last. */
  lemma PollingSpends(s: State, i: nat)
    requires SendersOk(s) && Enabled(s, PollSend(i)) && s.notifySend.calls == 0
    ensures var s' := Step(s, PollSend(i));
      if s.notifySend.permit then s'.senders[i].Starting? && s'.notifySend == s.notifySend.(permit := false)
      else InLine(s', i, |s.notifySend.waiters|) && !s'.notifySend.permit
  {
  }

  /** A notification that finds nobody parked is kept for the next one. */
  lemma NotificationIsKept(s: State, r: nat)
    requires Enabled(s, NotifyOneSender(r)) && s.notifySend.waiters == []
    ensures Step(s, NotifyOneSender(r)).notifySend == s.notifySend.(permit := true)
  {
  }
}
