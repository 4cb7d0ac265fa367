/** The actor mailbox under concurrency (crates/worker/src/mailbox.rs).

Any number of senders, receivers and closers run `send`, `recv` and `close`
against one mailbox.  Each runs up to its next lock, notification or poll in
one step: the critical sections are single steps because the lock is held and
nothing is awaited inside them, a pop and its notification are two steps, and
so are the creation of a `Notified` and its first poll.  A `Notify` stores at
most one permit and keeps its waiters in FIFO order; `notify_waiters` also
completes every `Notified` created before it, which is what `epoch` records.
 */
module MailboxProtocol {
  type Msg = nat

  datatype Notify = Notify(permit: bool, waiters: seq<nat>, calls: nat)

  datatype Sender =
    | Starting(msg: Msg)
    | Locking(msg: Msg, epoch: nat)
    | Polling(msg: Msg, epoch: nat)
    | Parked(msg: Msg, epoch: nat)

  datatype Receiver =
    | Receiving
    | Popped
    | Creating
    | Waiting(epoch: nat)
    | Asleep(epoch: nat)

  datatype Closer = Marked | ReceiversTold

  datatype Policy = Backpressure | CoalesceByEq

  /** `accepted` and `received` list the messages pushed and popped so far.
      With `solo`, only receiver 0 ever calls `recv`. */
  datatype State = State(
    policy: Policy,
    capacity: nat,
    solo: bool,
    queue: seq<Msg>,
    closed: bool,
    notifySend: Notify,
    notifyRecv: Notify,
    senders: map<nat, Sender>,
    receivers: map<nat, Receiver>,
    closers: map<nat, Closer>,
    accepted: seq<Msg>,
    received: seq<Msg>)

  const FRESH := Notify(false, [], 0)

  function Init(policy: Policy, capacity: nat, solo: bool): State {
    State(policy, capacity, solo, [], false, FRESH, FRESH, map[], map[], map[], [], [])
  }

  datatype Action =
    | BeginSend(i: nat, msg: Msg)
    | CreateNotified(i: nat)
    | LockSend(i: nat)
    | PollSend(i: nat)
    | CoalescedSend(newQueue: seq<Msg>)
    | BeginRecv(r: nat)
    | LockRecv(r: nat)
    | NotifyOneSender(r: nat)
    | CreateRecvNotified(r: nat)
    | PollRecv(r: nat)
    | MarkClosed(c: nat)
    | TellReceivers(c: nat)
    | TellSenders(c: nat)

  // ---------------------------------------------------------------------
  // Notify
  // ---------------------------------------------------------------------

  /** `notify_one` towards the senders. */
  function WakeSender(s: State): State {
    var n := s.notifySend;
    if n.waiters == [] then s.(notifySend := n.(permit := true))
    else
      var w := n.waiters[0];
      s.(notifySend := n.(waiters := n.waiters[1..]),
         senders := if w in s.senders then s.senders[w := Starting(s.senders[w].msg)] else s.senders)
  }

  /** `notify_one` towards the receivers. */
  function WakeReceiver(s: State): State {
    var n := s.notifyRecv;
    if n.waiters == [] then s.(notifyRecv := n.(permit := true))
    else s.(notifyRecv := n.(waiters := n.waiters[1..]), receivers := s.receivers[n.waiters[0] := Receiving])
  }

  function WakeAllSenders(s: State): State {
    s.(notifySend := s.notifySend.(waiters := [], calls := s.notifySend.calls + 1),
       senders := map i | i in s.senders ::
         if s.senders[i].Parked? then Starting(s.senders[i].msg) else s.senders[i])
  }

  function WakeAllReceivers(s: State): State {
    s.(notifyRecv := s.notifyRecv.(waiters := [], calls := s.notifyRecv.calls + 1),
       receivers := map r | r in s.receivers ::
         if s.receivers[r].Asleep? then Receiving else s.receivers[r])
  }

  // ---------------------------------------------------------------------
  // Steps
  // ---------------------------------------------------------------------

  predicate Enabled(s: State, a: Action) {
    match a
    case BeginSend(i, _) => s.policy.Backpressure? && i !in s.senders
    case CreateNotified(i) => i in s.senders && s.senders[i].Starting?
    case LockSend(i) => i in s.senders && s.senders[i].Locking?
    case PollSend(i) => i in s.senders && s.senders[i].Polling?
    case CoalescedSend(q) => s.policy.CoalesceByEq? && !s.closed && 0 < |q| <= s.capacity
    case BeginRecv(r) => r !in s.receivers && (s.solo ==> r == 0)
    case LockRecv(r) => r in s.receivers && s.receivers[r].Receiving?
    case NotifyOneSender(r) => r in s.receivers && s.receivers[r].Popped?
    case CreateRecvNotified(r) => r in s.receivers && s.receivers[r].Creating?
    case PollRecv(r) => r in s.receivers && s.receivers[r].Waiting?
    case MarkClosed(c) => c !in s.closers
    case TellReceivers(c) => c in s.closers && s.closers[c].Marked?
    case TellSenders(c) => c in s.closers && s.closers[c].ReceiversTold?
  }

  function Step(s: State, a: Action): State
    requires Enabled(s, a)
  {
    match a
    case BeginSend(i, msg) => s.(senders := s.senders[i := Starting(msg)])
    case CreateNotified(i) => s.(senders := s.senders[i := Locking(s.senders[i].msg, s.notifySend.calls)])
    case LockSend(i) => DoLockSend(s, i)
    case PollSend(i) => DoPollSend(s, i)
    case CoalescedSend(q) => WakeReceiver(s.(queue := q))
    case BeginRecv(r) => s.(receivers := s.receivers[r := Receiving])
    case LockRecv(r) => DoLockRecv(s, r)
    case NotifyOneSender(r) => WakeSender(s.(receivers := s.receivers - {r}))
    case CreateRecvNotified(r) => s.(receivers := s.receivers[r := Waiting(s.notifyRecv.calls)])
    case PollRecv(r) => DoPollRecv(s, r)
    case MarkClosed(c) => s.(closed := true, closers := s.closers[c := Marked])
    case TellReceivers(c) => WakeAllReceivers(s.(closers := s.closers[c := ReceiversTold]))
    case TellSenders(c) => WakeAllSenders(s.(closers := s.closers - {c}))
  }

  /** The critical section of a backpressure `send`. */
  function DoLockSend(s: State, i: nat): State
    requires i in s.senders && s.senders[i].Locking?
  {
    var t := s.senders[i];
    if s.closed then s.(senders := s.senders - {i})
    else if |s.queue| < s.capacity then
      WakeReceiver(s.(queue := s.queue + [t.msg], accepted := s.accepted + [t.msg], senders := s.senders - {i}))
    else s.(senders := s.senders[i := Polling(t.msg, t.epoch)])
  }

  function DoPollSend(s: State, i: nat): State
    requires i in s.senders && s.senders[i].Polling?
  {
    var t, n := s.senders[i], s.notifySend;
    if n.calls != t.epoch then s.(senders := s.senders[i := Starting(t.msg)])
    else if n.permit then s.(notifySend := n.(permit := false), senders := s.senders[i := Starting(t.msg)])
    else s.(notifySend := n.(waiters := n.waiters + [i]), senders := s.senders[i := Parked(t.msg, t.epoch)])
  }

  /** The critical section of `recv`. */
  function DoLockRecv(s: State, r: nat): State
    requires r in s.receivers
  {
    if s.queue != [] then
      s.(queue := s.queue[1..], received := s.received + [s.queue[0]],
         receivers := if s.policy.Backpressure? then s.receivers[r := Popped] else s.receivers - {r})
    else if s.closed then s.(receivers := s.receivers - {r})
    else s.(receivers := s.receivers[r := Creating])
  }

  function DoPollRecv(s: State, r: nat): State
    requires r in s.receivers && s.receivers[r].Waiting?
  {
    var t, n := s.receivers[r], s.notifyRecv;
    if n.calls != t.epoch then s.(receivers := s.receivers[r := Receiving])
    else if n.permit then s.(notifyRecv := n.(permit := false), receivers := s.receivers[r := Receiving])
    else s.(notifyRecv := n.(waiters := n.waiters + [r]), receivers := s.receivers[r := Asleep(t.epoch)])
  }

  // ---------------------------------------------------------------------
  // The inductive invariant
  // ---------------------------------------------------------------------

  predicate Distinct(q: seq<nat>) {
    forall i, j :: 0 <= i < j < |q| ==> q[i] != q[j]
  }

  /** The waiter list holds exactly the parked senders, a stored permit and a
      waiter exclude each other, and only `close` ever notifies all. */
  ghost predicate SendersOk(s: State) {
    && Distinct(s.notifySend.waiters)
    && (forall i :: i in s.notifySend.waiters ==> i in s.senders && s.senders[i].Parked?)
    && (forall i :: i in s.senders && s.senders[i].Parked? ==> i in s.notifySend.waiters)
    && (s.notifySend.permit ==> s.notifySend.waiters == [])
    && (forall i :: i in s.senders && (s.senders[i].Polling? || s.senders[i].Parked?) ==> s.senders[i].epoch == 0)
    && (forall i :: i in s.senders && s.senders[i].Locking? ==> s.senders[i].epoch <= s.notifySend.calls)
    && (s.policy.CoalesceByEq? ==> s.senders == map[])
    && (s.notifySend.calls > 0 ==> s.closed && s.notifySend.waiters == [])
    && (s.closers != map[] || s.notifyRecv.calls > 0 ==> s.closed)
  }

  ghost predicate ReceiversOk(s: State) {
    && Distinct(s.notifyRecv.waiters)
    && (forall r :: r in s.notifyRecv.waiters ==> r in s.receivers && s.receivers[r].Asleep?)
    && (forall r :: r in s.receivers && s.receivers[r].Asleep? ==>
          r in s.notifyRecv.waiters && s.receivers[r].epoch == s.notifyRecv.calls)
    && (forall r :: r in s.receivers && s.receivers[r].Waiting? ==> s.receivers[r].epoch <= s.notifyRecv.calls)
    && (s.notifyRecv.permit ==> s.notifyRecv.waiters == [])
  }

  predicate Blocking(t: Sender) { t.Polling? || t.Parked? }

  predicate Active(t: Sender) { t.Starting? || t.Locking? }

  /** A notification towards the senders is stored, is about to be given, or
      was taken by a sender that has not been back at the lock yet. */
  ghost predicate SendSignalPending(s: State) {
    || s.notifySend.permit
    || (exists r :: r in s.receivers && s.receivers[r].Popped?)
    || (exists i :: i in s.senders && Active(s.senders[i]))
  }

  ghost predicate NoneStranded(s: State) {
    !s.closed && (exists i :: i in s.senders && Blocking(s.senders[i])) ==>
      s.queue != [] || SendSignalPending(s)
  }

  ghost predicate SoloOk(s: State) {
    s.solo ==>
      && (forall r :: r in s.receivers ==> r == 0)
      && (0 in s.receivers && (s.receivers[0].Creating? || s.receivers[0].Waiting?) ==>
            || s.queue == [] || s.notifyRecv.permit
            || (s.receivers[0].Waiting? && s.receivers[0].epoch != s.notifyRecv.calls))
      && (0 in s.receivers && s.receivers[0].Asleep? ==> s.queue == [])
  }

  ghost predicate Conserved(s: State) {
    && |s.queue| <= s.capacity
    && (s.policy.Backpressure? ==> s.received + s.queue == s.accepted)
  }

  ghost predicate Inv(s: State) {
    s.capacity > 0 && SendersOk(s) && ReceiversOk(s) && NoneStranded(s) && SoloOk(s) && Conserved(s)
  }

  lemma InitInv(policy: Policy, capacity: nat, solo: bool)
    requires capacity > 0
    ensures Inv(Init(policy, capacity, solo))
  {
  }

  lemma WakeReceiverOk(s: State)
    requires ReceiversOk(s)
    ensures ReceiversOk(WakeReceiver(s))
    ensures s.solo && (forall r :: r in s.receivers ==> r == 0) ==> SoloOk(WakeReceiver(s))
  {
    var n := s.notifyRecv;
    if n.waiters != [] {
      assert n.waiters[0] in n.waiters;
      forall r | r in n.waiters[1..] ensures r in n.waiters && r != n.waiters[0] {
      }
    }
  }

  lemma WakeSenderOk(s: State)
    requires SendersOk(s)
    ensures SendersOk(WakeSender(s))
    ensures SendSignalPending(WakeSender(s))
  {
    var n := s.notifySend;
    if n.waiters != [] {
      assert n.waiters[0] in n.waiters;
      forall r | r in n.waiters[1..] ensures r in n.waiters && r != n.waiters[0] {
      }
      assert Active(WakeSender(s).senders[n.waiters[0]]);
    }
  }

  lemma LockSendInv(s: State, i: nat)
    requires Inv(s) && i in s.senders && s.senders[i].Locking?
    ensures Inv(DoLockSend(s, i))
  {
    var t := s.senders[i];
    if s.closed {
    } else if |s.queue| < s.capacity {
      var m := s.(queue := s.queue + [t.msg], accepted := s.accepted + [t.msg], senders := s.senders - {i});
      WakeReceiverOk(m);
      assert s.received + (s.queue + [t.msg]) == (s.received + s.queue) + [t.msg];
    }
  }

  lemma PollSendInv(s: State, i: nat)
    requires Inv(s) && i in s.senders && s.senders[i].Polling?
    ensures Inv(DoPollSend(s, i))
  {
    var s' := DoPollSend(s, i);
    PollSendSenders(s, i);
    assert Blocking(s.senders[i]);
    if s'.senders[i].Starting? {
      assert Active(s'.senders[i]);
    } else {
      SignalSurvives(s, s', i);
    }
  }

  lemma PollSendSenders(s: State, i: nat)
    requires SendersOk(s) && i in s.senders && s.senders[i].Polling?
    ensures SendersOk(DoPollSend(s, i))
  {
    assert i !in s.notifySend.waiters;
    if DoPollSend(s, i).senders[i].Parked? { ParkOk(s, DoPollSend(s, i), i); } else { RetryOk(s, DoPollSend(s, i), i); }
  }

  lemma ParkOk(s: State, s': State, i: nat)
    requires SendersOk(s) && i in s.senders && s.senders[i].Polling? && i !in s.notifySend.waiters
    requires !s.notifySend.permit && s.notifySend.calls == s.senders[i].epoch
    requires s' == s.(notifySend := s.notifySend.(waiters := s.notifySend.waiters + [i]),
                      senders := s.senders[i := Parked(s.senders[i].msg, s.senders[i].epoch)])
    ensures SendersOk(s')
  {
  }

  lemma RetryOk(s: State, s': State, i: nat)
    requires SendersOk(s) && i in s.senders && s.senders[i].Polling? && i !in s.notifySend.waiters
    requires s' == s.(notifySend := s'.notifySend, senders := s.senders[i := Starting(s.senders[i].msg)])
    requires s'.notifySend == s.notifySend || s'.notifySend == s.notifySend.(permit := false)
    ensures SendersOk(s')
  {
  }

  /** Parking a sender that was not active leaves the other signals alone. */
  lemma SignalSurvives(s: State, s': State, i: nat)
    requires i in s.senders && !Active(s.senders[i])
    requires s'.receivers == s.receivers && s'.notifySend.permit == s.notifySend.permit
    requires i in s'.senders && s'.senders == s.senders[i := s'.senders[i]]
    ensures SendSignalPending(s) ==> SendSignalPending(s')
  {
    if j :| j in s.senders && Active(s.senders[j]) {
      assert s'.senders[j] == s.senders[j];
    }
  }

  lemma LockRecvInv(s: State, r: nat)
    requires Inv(s) && r in s.receivers && s.receivers[r].Receiving?
    ensures Inv(DoLockRecv(s, r))
  {
    var s' := DoLockRecv(s, r);
    LockRecvReceivers(s, r);
    if s.queue != [] {
      assert s.received + s.queue == (s.received + [s.queue[0]]) + s.queue[1..];
      if s.policy.Backpressure? {
        assert s'.receivers[r].Popped?;
      }
    } else {
      ReceiverSignals(s, s', r);
    }
  }

  lemma LockRecvReceivers(s: State, r: nat)
    requires ReceiversOk(s) && r in s.receivers && s.receivers[r].Receiving?
    ensures ReceiversOk(DoLockRecv(s, r))
  {
  }

  lemma ReceiverSignals(s: State, s': State, r: nat)
    requires r in s.receivers && !s.receivers[r].Popped?
    requires s'.senders == s.senders && s'.notifySend == s.notifySend
    requires forall q :: q in s.receivers && q != r ==> q in s'.receivers && s'.receivers[q] == s.receivers[q]
    ensures SendSignalPending(s) ==> SendSignalPending(s')
  {
    if q :| q in s.receivers && s.receivers[q].Popped? {
      assert s'.receivers[q].Popped?;
    }
  }

  lemma NotifyOneSenderInv(s: State, r: nat)
    requires Inv(s) && r in s.receivers && s.receivers[r].Popped?
    ensures Inv(WakeSender(s.(receivers := s.receivers - {r})))
  {
    WakeSenderOk(s.(receivers := s.receivers - {r}));
  }

  lemma PollRecvInv(s: State, r: nat)
    requires Inv(s) && r in s.receivers && s.receivers[r].Waiting?
    ensures Inv(DoPollRecv(s, r))
  {
    var s' := DoPollRecv(s, r);
    ReceiverSignals(s, s', r);
    PollRecvReceivers(s, r);
  }

  lemma PollRecvReceivers(s: State, r: nat)
    requires ReceiversOk(s) && r in s.receivers && s.receivers[r].Waiting?
    ensures ReceiversOk(DoPollRecv(s, r))
  {
    var s' := DoPollRecv(s, r);
    if s'.receivers[r].Asleep? {
      FallAsleepOk(s, s', r);
    }
  }

  lemma FallAsleepOk(s: State, s': State, r: nat)
    requires ReceiversOk(s) && r in s.receivers && s.receivers[r].Waiting?
    requires s.receivers[r].epoch == s.notifyRecv.calls && !s.notifyRecv.permit
    requires s'.notifyRecv == s.notifyRecv.(waiters := s.notifyRecv.waiters + [r])
    requires s'.receivers == s.receivers[r := Asleep(s.notifyRecv.calls)]
    ensures ReceiversOk(s')
  {
    assert r !in s.notifyRecv.waiters;
  }

  lemma CloserInv(s: State, a: Action)
    requires Inv(s) && Enabled(s, a) && (a.MarkClosed? || a.TellReceivers? || a.TellSenders?)
    ensures Inv(Step(s, a))
  {
  }

  lemma BeginInv(s: State, a: Action)
    requires Inv(s) && Enabled(s, a) && (a.BeginSend? || a.CreateNotified? || a.BeginRecv? || a.CreateRecvNotified?)
    ensures Inv(Step(s, a))
  {
    if a.BeginSend? || a.CreateNotified? { BeginSendInv(s, a); } else { BeginRecvInv(s, a); }
  }

  lemma BeginSendInv(s: State, a: Action)
    requires Inv(s) && Enabled(s, a) && (a.BeginSend? || a.CreateNotified?)
    ensures Inv(Step(s, a))
  {
    assert Active(Step(s, a).senders[a.i]);
  }

  lemma BeginRecvInv(s: State, a: Action)
    requires Inv(s) && Enabled(s, a) && (a.BeginRecv? || a.CreateRecvNotified?)
    ensures Inv(Step(s, a))
  {
    var s' := Step(s, a);
    match a
    case BeginRecv(r) =>
      if q :| q in s.receivers && s.receivers[q].Popped? { assert s'.receivers[q].Popped?; }
    case CreateRecvNotified(r) => ReceiverSignals(s, s', r);
  }

  /** Every step of every participant keeps the invariant. */
  lemma StepInv(s: State, a: Action)
    requires Inv(s) && Enabled(s, a)
    ensures Inv(Step(s, a))
  {
    match a
    case LockSend(i) => LockSendInv(s, i);
    case PollSend(i) => PollSendInv(s, i);
    case CoalescedSend(q) => WakeReceiverOk(s.(queue := q));
    case LockRecv(r) => LockRecvInv(s, r);
    case NotifyOneSender(r) => NotifyOneSenderInv(s, r);
    case PollRecv(r) => PollRecvInv(s, r);
    case MarkClosed(_) => CloserInv(s, a);
    case TellReceivers(_) => CloserInv(s, a);
    case TellSenders(_) => CloserInv(s, a);
    case _ => BeginInv(s, a);
  }

  // ---------------------------------------------------------------------
  // Whole runs
  // ---------------------------------------------------------------------

  /** `run` is a run: it starts fresh and every state follows by some step. */
  ghost predicate IsRun(run: seq<State>, policy: Policy, capacity: nat, solo: bool) {
    && run != [] && run[0] == Init(policy, capacity, solo)
    && (forall k :: 0 < k < |run| ==> Follows(run[k - 1], run[k]))
  }

  ghost predicate Follows(s: State, s': State) {
    exists a :: Enabled(s, a) && s' == Step(s, a)
  }

  lemma {:induction false} RunInv(run: seq<State>, policy: Policy, capacity: nat, solo: bool, k: nat)
    requires capacity > 0 && IsRun(run, policy, capacity, solo) && k < |run|
    ensures Inv(run[k]) && run[k].policy == policy && run[k].capacity == capacity && run[k].solo == solo
  {
    if k == 0 {
      InitInv(policy, capacity, solo);
    } else {
      RunInv(run, policy, capacity, solo, k - 1);
      FollowsInv(run[k - 1], run[k]);
    }
  }

  lemma FollowsInv(s: State, s': State)
    requires Inv(s) && Follows(s, s')
    ensures Inv(s') && s'.policy == s.policy && s'.capacity == s.capacity && s'.solo == s.solo
  {
    var a :| Enabled(s, a) && s' == Step(s, a);
    StepInv(s, a);
    StepKeepsSetup(s, a);
  }

  lemma StepKeepsSetup(s: State, a: Action)
    requires Enabled(s, a)
    ensures SameSetup(s, Step(s, a))
  {
    match a
    case LockSend(i) => assert SameSetup(s, DoLockSend(s, i));
    case PollSend(i) => assert SameSetup(s, DoPollSend(s, i));
    case LockRecv(r) => assert SameSetup(s, DoLockRecv(s, r));
    case PollRecv(r) => assert SameSetup(s, DoPollRecv(s, r));
    case _ =>
  }

  predicate SameSetup(s: State, s': State) {
    s'.policy == s.policy && s'.capacity == s.capacity && s'.solo == s.solo
  }

  lemma StepFollows(s: State, a: Action)
    requires Enabled(s, a)
    ensures Follows(s, Step(s, a))
  {
  }

  /** No interleaving strands a sender: while the mailbox is open, a parked
      sender and an empty queue mean that a receiver is about to notify or a
      sender is on its way to the lock. */
  lemma NoStrandedSender(run: seq<State>, capacity: nat, solo: bool, k: nat, i: nat)
    requires capacity > 0 && IsRun(run, Backpressure, capacity, solo) && k < |run|
    requires !run[k].closed && i in run[k].senders && run[k].senders[i].Parked? && run[k].queue == []
    ensures
      || (exists r :: r in run[k].receivers && run[k].receivers[r].Popped?)
      || (exists j :: j in run[k].senders && Active(run[k].senders[j]))
  {
    RunInv(run, Backpressure, capacity, solo, k);
    assert Blocking(run[k].senders[i]);
  }

  /** Once a `close` has notified, no sender is parked and none can park: each
      goes back to the lock, where it is refused. */
  lemma CloseReleasesSenders(run: seq<State>, capacity: nat, solo: bool, k: nat, i: nat)
    requires capacity > 0 && IsRun(run, Backpressure, capacity, solo) && k < |run|
    requires run[k].notifySend.calls > 0 && i in run[k].senders
    ensures run[k].closed && !run[k].senders[i].Parked?
    ensures run[k].senders[i].Polling? ==> Step(run[k], PollSend(i)).senders[i].Starting?
    ensures run[k].senders[i].Locking? ==> i !in Step(run[k], LockSend(i)).senders
    ensures run[k].senders[i].Locking? ==> Step(run[k], LockSend(i)).accepted == run[k].accepted
  {
    RunInv(run, Backpressure, capacity, solo, k);
  }

  /** Nothing is lost, duplicated or reordered, and the bound holds. */
  lemma BackpressureConserves(run: seq<State>, capacity: nat, solo: bool, k: nat)
    requires capacity > 0 && IsRun(run, Backpressure, capacity, solo) && k < |run|
    ensures run[k].received + run[k].queue == run[k].accepted && |run[k].queue| <= capacity
  {
    RunInv(run, Backpressure, capacity, solo, k);
  }

  /** With one receiver, a sleeping receiver means an empty queue. */
  lemma SleepingReceiverSawNothing(run: seq<State>, policy: Policy, capacity: nat, k: nat)
    requires capacity > 0 && IsRun(run, policy, capacity, true) && k < |run|
    requires 0 in run[k].receivers && run[k].receivers[0].Asleep?
    ensures run[k].queue == []
  {
    RunInv(run, policy, capacity, true, k);
  }
}
