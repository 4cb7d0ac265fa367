/** What a hidden document loses, and when (crates/syntax/src/retention.rs and
the policy of crates/syntax/src/policy.rs).

The laws are stated from the policy and from the time since the document was
last visible.
 */
module SyntaxRetention {
  import opened Prelude
  import opened SyntaxSlots

  // ---------------------------------------------------------------------
  // One sweep of a slot
  // ---------------------------------------------------------------------

  predicate SameFull(s: Slot, s': Slot) {
    s'.full == s.full && s'.memory == s.memory && s'.pending == s.pending && s'.dirty == s.dirty
  }

  /** The tree is gone with its snapshots and its window, and no parse is wanted. */
  predicate FullGone(s: Slot, s': Slot) {
    && s'.full.None? && !s'.dirty
    && (if s.full.Some? || s.dirty then s'.memory == [] && s'.pending.None? else SameFull(s, s'))
  }

  predicate ViewportsGone(s: Slot, s': Slot) {
    if HasViewport(s.cache) then s'.cache == EMPTY_CACHE else s'.cache == s.cache
  }

  /** One tick for the full tree and one for the viewport trees. */
  function Ticks(c: nat, full: bool, viewport: bool): nat {
    var c' := if full then Tick(c) else c;
    if viewport then Tick(c') else c'
  }

  /** A visible or warm document loses nothing.  A cold one loses its full tree at
      once, or once it has been hidden for longer than the delay, or never, and
      its viewport trees by the same rule under their own policy.  Each loss is
      announced. */
  lemma RetentionExactly(s: Slot, full: RetentionPolicy, viewport: RetentionPolicy, h: Hotness, age: nat)
    ensures var s' := ApplyRetention(s, full, viewport, h, age);
      && (!h.Cold? ==> s' == s)
      && (h.Cold? ==>
            && (match full
                case Keep => SameFull(s, s')
                case DropWhenHidden => FullGone(s, s')
                case DropAfter(ttl) => if age <= ttl then SameFull(s, s') else FullGone(s, s'))
            && (match viewport
                case Keep => s'.cache == s.cache
                case DropWhenHidden => ViewportsGone(s, s')
                case DropAfter(ttl) => if age <= ttl then s'.cache == s.cache else ViewportsGone(s, s')))
      && s'.nextTreeId == s.nextTreeId && s'.bootstrapAttempted == s.bootstrapAttempted
      && s'.changeId == Ticks(s.changeId, !SameFull(s, s'), s'.cache != s.cache)
  {
    FullRetained(s, full, viewport, h, age);
    ViewportsRetained(s, full, viewport, h, age);
  }

  lemma FullRetained(s: Slot, full: RetentionPolicy, viewport: RetentionPolicy, h: Hotness, age: nat)
    ensures var s' := ApplyRetention(s, full, viewport, h, age);
      h.Cold? ==> match full
        case Keep => SameFull(s, s')
        case DropWhenHidden => FullGone(s, s')
        case DropAfter(ttl) => if age <= ttl then SameFull(s, s') else FullGone(s, s')
  {
  }

  lemma ViewportsRetained(s: Slot, full: RetentionPolicy, viewport: RetentionPolicy, h: Hotness, age: nat)
    ensures var s' := ApplyRetention(s, full, viewport, h, age);
      && (h.Cold? ==> match viewport
            case Keep => s'.cache == s.cache
            case DropWhenHidden => ViewportsGone(s, s')
            case DropAfter(ttl) => if age <= ttl then s'.cache == s.cache else ViewportsGone(s, s'))
      && s'.nextTreeId == s.nextTreeId && s'.bootstrapAttempted == s.bootstrapAttempted
      && s'.changeId == Ticks(s.changeId, !SameFull(s, s'), s'.cache != s.cache)
  {
    assert HasViewport(s.cache) ==> s.cache != EMPTY_CACHE;
  }

  /** A finished parse may be installed exactly when a sweep at the same moment
      would leave its tree alone. */
  lemma InstallsWhatSweepsKeep(s: Slot, full: RetentionPolicy, viewport: RetentionPolicy, h: Hotness, age: nat)
    ensures var s' := ApplyRetention(s, full, viewport, h, age);
      && (s.full.Some? ==> (Retains(full, h, age) <==> s'.full == s.full))
      && (HasViewport(s.cache) ==> (Retains(viewport, h, age) <==> s'.cache == s.cache))
  {
    RetentionExactly(s, full, viewport, h, age);
    assert HasViewport(s.cache) ==> s.cache != EMPTY_CACHE;
  }

  // ---------------------------------------------------------------------
  // Any number of sweeps
  // ---------------------------------------------------------------------

  predicate Sweeps(es: seq<Event>) { forall i :: 0 <= i < |es| ==> es[i].Sweep? }

  /** A sweep that finds the document hidden for longer than the delay, if there
      is one. */
  predicate TooLong(policy: RetentionPolicy, e: Event)
    requires e.Sweep?
  {
    e.hotness.Cold? && match policy
      case Keep => false
      case DropWhenHidden => true
      case DropAfter(ttl) => e.age > ttl
  }

  ghost predicate NeverTooLong(policy: RetentionPolicy, es: seq<Event>)
    requires Sweeps(es)
  {
    forall i :: 0 <= i < |es| ==> !TooLong(policy, es[i])
  }

  lemma SweepStep(w: World, e: Event, tier: Tier)
    requires Aligned(w) && Enabled(w, e) && e.Sweep? && w.tier == Some(tier)
    ensures var cfg := Cfg(w.policy, tier);
      var w' := Step(w, e);
      && Aligned(w') && w'.policy == w.policy && w'.tier == w.tier && w'.history == w.history
      && w'.slot == ApplyRetention(w.slot, cfg.full, cfg.viewport, e.hotness, e.age)
  {
    StepAligned(w, e);
  }

  /** A sweep invalidates a hidden document exactly when it may not parse and has
      something in flight or waiting, or may parse and lost something while a
      task was in flight.  Otherwise it touches nothing but the slot. */
  lemma SweepInvalidatesExactly(w: World, e: Event, tier: Tier)
    requires Aligned(w) && Enabled(w, e) && e.Sweep? && w.tier == Some(tier)
    ensures var w' := Step(w, e);
      var work := e.lane || Live(w);
      && (w'.epoch != w.epoch <==>
            e.hotness.Cold? &&
            if Cfg(w.policy, tier).parseWhenHidden then w'.slot != w.slot && work
            else work || e.waiting || w.done != [])
      && (w'.epoch == w.epoch ==> w' == w.(slot := w'.slot))
      && (w'.epoch != w.epoch ==> w'.done == [] && !Live(w') && w'.requested == 0 && w'.tasks == w.tasks)
  {
    var cfg := Cfg(w.policy, tier);
    SweepChanges(w.slot, cfg.full, cfg.viewport, e.hotness, e.age);
  }

  lemma SweepChanges(s: Slot, full: RetentionPolicy, viewport: RetentionPolicy, h: Hotness, age: nat)
    requires s.changeId < U64
    ensures ApplyRetention(s, full, viewport, h, age) != s <==>
      h.Cold? && (DropsFull(s, full, age) || DropsViewport(s, viewport, age))
  {
    if h.Cold? && (DropsFull(s, full, age) || DropsViewport(s, viewport, age)) {
      TickedDiffers(s.changeId, ApplyRetention(s, full, viewport, h, age).changeId);
    }
  }

  lemma SweepsTail(es: seq<Event>)
    requires Sweeps(es) && es != []
    ensures Sweeps(es[1..]) && es[0].Sweep?
    ensures forall policy :: NeverTooLong(policy, es) <==> !TooLong(policy, es[0]) && NeverTooLong(policy, es[1..])
  {
    forall policy ensures NeverTooLong(policy, es) <==> !TooLong(policy, es[0]) && NeverTooLong(policy, es[1..]) {
      if !TooLong(policy, es[0]) && NeverTooLong(policy, es[1..]) {
        forall i | 0 <= i < |es| ensures !TooLong(policy, es[i]) {
          if i > 0 { assert es[i] == es[1..][i - 1]; }
        }
      }
    }
  }

  /** Whatever the policy and however many sweeps: the full tree is lost if and
      only if one of them finds the document hidden for too long. */
  lemma {:induction false} SweptExactly(w: World, es: seq<Event>, tier: Tier)
    requires Aligned(w) && Possible(w, es) && Sweeps(es) && w.tier == Some(tier)
    ensures w.slot.full.None? ==> Run(w, es).slot.full.None?
    ensures w.slot.full.Some? ==> (Run(w, es).slot.full.Some? <==> NeverTooLong(Cfg(w.policy, tier).full, es))
    ensures Run(w, es).slot.full.Some? ==> SameFull(w.slot, Run(w, es).slot)
    decreases |es|
  {
    if es != [] {
      var cfg := Cfg(w.policy, tier);
      SweepsTail(es);
      SweepStep(w, es[0], tier);
      RetentionExactly(w.slot, cfg.full, cfg.viewport, es[0].hotness, es[0].age);
      SweptExactly(Step(w, es[0]), es[1..], tier);
    }
  }

  /** Sweeps that are too early for both policies change nothing. */
  lemma {:induction false} SweptUnchanged(w: World, es: seq<Event>, tier: Tier)
    requires Aligned(w) && Possible(w, es) && Sweeps(es) && w.tier == Some(tier)
    requires NeverTooLong(Cfg(w.policy, tier).full, es) && NeverTooLong(Cfg(w.policy, tier).viewport, es)
    ensures Run(w, es).slot == w.slot
    decreases |es|
  {
    if es != [] {
      var cfg := Cfg(w.policy, tier);
      SweepsTail(es);
      SweepStep(w, es[0], tier);
      RetentionExactly(w.slot, cfg.full, cfg.viewport, es[0].hotness, es[0].age);
      SweptUnchanged(Step(w, es[0]), es[1..], tier);
    }
  }

  // ---------------------------------------------------------------------
  // The policy the editor ships
  // ---------------------------------------------------------------------

  /** Hidden for at most a minute at every sweep. */
  predicate Briefly(es: seq<Event>)
    requires Sweeps(es)
  {
    forall i :: 0 <= i < |es| ==> es[i].hotness.Cold? ==> es[i].age <= 60_000
  }

  /** A poll finds the size class of the text. */
  lemma PollFindsTier(w: World)
    requires Aligned(w) && w.policy == DEFAULT_POLICY
    ensures var n := ByteLen(CurrentText(w));
      var w' := Step(w, Ensure);
      && Aligned(w') && w'.policy == w.policy && w'.slot == w.slot
      && w'.tier == Some(if n <= 262_144 then S else if n <= 1_048_576 then M else L)
  {
    StepAligned(w, Ensure);
  }

  /** After a poll, under the shipped policy: a document of up to 256 KiB loses
      nothing to any sweeps.  One of up to 1 MiB loses nothing while it is never
      hidden for more than a minute, and its full tree exactly when it is.  A
      larger one loses its full tree to the first sweep that finds it hidden. */
  lemma ShippedRetention(w: World, es: seq<Event>)
    requires Aligned(w) && w.policy == DEFAULT_POLICY && Sweeps(es)
    requires Aligned(Step(w, Ensure)) && Possible(Step(w, Ensure), es)
    ensures var n := ByteLen(CurrentText(w));
      var w' := Run(Step(w, Ensure), es);
      && (n <= 262_144 ==> w'.slot == w.slot)
      && (262_144 < n <= 1_048_576 && Briefly(es) ==> w'.slot == w.slot)
      && (262_144 < n <= 1_048_576 && w.slot.full.Some? ==> (w'.slot.full.Some? <==> Briefly(es)))
      && (n > 1_048_576 && w.slot.full.Some? ==>
            (w'.slot.full.Some? <==> forall i :: 0 <= i < |es| ==> !es[i].hotness.Cold?))
  {
    PollFindsTier(w);
    var w1 := Step(w, Ensure);
    var tier := w1.tier.value;
    SweptExactly(w1, es, tier);
    if tier.S? || (tier.M? && Briefly(es)) { SweptUnchanged(w1, es, tier); }
    if tier.M? { BrieflyIs(es); }
    if tier.L? { AtOnce(es); }
  }

  lemma BrieflyIs(es: seq<Event>)
    requires Sweeps(es)
    ensures NeverTooLong(DropAfter(60_000), es) <==> Briefly(es)
  {
    if NeverTooLong(DropAfter(60_000), es) {
      forall i | 0 <= i < |es| ensures es[i].hotness.Cold? ==> es[i].age <= 60_000 {
        assert !TooLong(DropAfter(60_000), es[i]);
      }
    }
  }

  lemma AtOnce(es: seq<Event>)
    requires Sweeps(es)
    ensures NeverTooLong(DropWhenHidden, es) <==> forall i :: 0 <= i < |es| ==> !es[i].hotness.Cold?
  {
    if NeverTooLong(DropWhenHidden, es) {
      forall i | 0 <= i < |es| ensures !es[i].hotness.Cold? {
        assert !TooLong(DropWhenHidden, es[i]);
      }
    }
  }
}
