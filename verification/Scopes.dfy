/** Local scopes of a syntax layer and the cursor over them
(crates/tree_house/src/locals.rs).

Scopes live in one vector and refer to each other by index.  `WellFormed` is
the shape the rest relies on: parents come before their children, children are
sorted, disjoint and inside their parent.
 */
module Scopes {
  import opened Prelude

  const U32_MAX: nat := 0xFFFF_FFFF
  const ROOT: nat := 0

  datatype Range = Range(start: nat, end: nat)

  datatype Definition = Definition(capture: nat, range: Range)

  datatype ScopeData = ScopeData(
    definitions: map<string, Definition>,
    range: Range,
    inherit: bool,
    children: seq<nat>,
    parent: Option<nat>)

  const ROOT_SCOPE := ScopeData(map[], Range(0, U32_MAX), false, [], None)

  type Tree = seq<ScopeData>

  // ---------------------------------------------------------------------
  // Shape
  // ---------------------------------------------------------------------

  predicate RootOk(t: Tree) {
    t != [] && t[0].parent.None? && t[0].range == Range(0, U32_MAX)
  }

  /** Every other scope hangs under an earlier one that lists it. */
  predicate ParentsOk(t: Tree) {
    forall i :: 0 < i < |t| ==>
      t[i].parent.Some? && t[i].parent.value < i && i in t[t[i].parent.value].children
  }

  predicate ChildrenOk(t: Tree) {
    forall p, k :: 0 <= p < |t| && 0 <= k < |t[p].children| ==> ChildOk(t, p, t[p].children[k])
  }

  predicate ChildOk(t: Tree, p: nat, c: nat)
    requires p < |t|
  {
    && p < c < |t| && t[c].parent == Some(p)
    && t[p].range.start <= t[c].range.start <= t[c].range.end <= t[p].range.end
  }

  predicate SiblingsOk(t: Tree)
    requires ChildrenOk(t)
  {
    forall p, j, k :: 0 <= p < |t| && 0 <= j < k < |t[p].children| ==> Precedes(t, t[p].children[j], t[p].children[k])
  }

  predicate Precedes(t: Tree, a: nat, b: nat) {
    a < |t| && b < |t| && t[a].range.end <= t[b].range.start
  }

  predicate WellFormed(t: Tree) {
    RootOk(t) && ParentsOk(t) && ChildrenOk(t) && SiblingsOk(t)
  }

  predicate Contains(t: Tree, s: nat, pos: nat)
    requires s < |t|
  {
    t[s].range.start <= pos < t[s].range.end
  }

  /** `s` contains the position and none of its children does. */
  predicate Innermost(t: Tree, s: nat, pos: nat)
    requires ChildrenOk(t)
  {
    && s < |t| && Contains(t, s, pos)
    && forall k :: 0 <= k < |t[s].children| ==> !Holds(t, t[s].children[k], pos)
  }

  predicate Holds(t: Tree, s: nat, pos: nat) {
    s < |t| && Contains(t, s, pos)
  }

  predicate AncestorOrSelf(t: Tree, a: nat, s: nat)
    requires RootOk(t) && ParentsOk(t) && s < |t|
    decreases s
  {
    a == s || (s > 0 && AncestorOrSelf(t, a, t[s].parent.value))
  }

  // ---------------------------------------------------------------------
  // The innermost scope is unique
  // ---------------------------------------------------------------------

  lemma {:induction false} RootIsAncestor(t: Tree, s: nat)
    requires RootOk(t) && ParentsOk(t) && s < |t|
    ensures AncestorOrSelf(t, ROOT, s)
    decreases s
  {
    if s > 0 { RootIsAncestor(t, t[s].parent.value); }
  }

  lemma ParentEncloses(t: Tree, s: nat)
    requires WellFormed(t) && 0 < s < |t|
    ensures ChildOk(t, t[s].parent.value, s)
  {
    var p := t[s].parent.value;
    assert s in t[p].children;
    var k :| 0 <= k < |t[p].children| && t[p].children[k] == s;
  }

  lemma {:induction false} AncestorContains(t: Tree, a: nat, s: nat, pos: nat)
    requires WellFormed(t) && s < |t| && AncestorOrSelf(t, a, s) && Contains(t, s, pos)
    ensures a <= s && Contains(t, a, pos)
    decreases s
  {
    if a != s {
      ParentEncloses(t, s);
      AncestorContains(t, a, t[s].parent.value, pos);
    }
  }

  /** The child through which a proper descendant hangs under `a`. */
  lemma {:induction false} ChildTowards(t: Tree, a: nat, s: nat) returns (c: nat)
    requires WellFormed(t) && s < |t| && AncestorOrSelf(t, a, s) && a != s
    ensures c < |t| && c > 0 && t[c].parent == Some(a) && AncestorOrSelf(t, c, s)
    decreases s
  {
    if t[s].parent.value == a {
      c := s;
    } else {
      c := ChildTowards(t, a, t[s].parent.value);
    }
  }

  lemma SiblingsDisjoint(t: Tree, p: nat, a: nat, b: nat, pos: nat)
    requires WellFormed(t) && 0 < a < |t| && 0 < b < |t| && t[a].parent == Some(p) && t[b].parent == Some(p)
    requires Contains(t, a, pos) && Contains(t, b, pos)
    ensures a == b
  {
    assert a in t[p].children && b in t[p].children;
    var j :| 0 <= j < |t[p].children| && t[p].children[j] == a;
    var k :| 0 <= k < |t[p].children| && t[p].children[k] == b;
    assert j < k ==> Precedes(t, a, b);
    assert k < j ==> Precedes(t, b, a);
  }

  /** Every scope that contains the position encloses the innermost one. */
  lemma {:induction false} InnermostIsBelowAll(t: Tree, s: nat, other: nat, pos: nat)
    requires WellFormed(t) && Innermost(t, s, pos) && other < |t| && Contains(t, other, pos)
    ensures AncestorOrSelf(t, other, s)
    decreases other
  {
    if other == 0 {
      RootIsAncestor(t, s);
    } else {
      var p := t[other].parent.value;
      ParentEncloses(t, other);
      InnermostIsBelowAll(t, s, p, pos);
      var k :| 0 <= k < |t[p].children| && t[p].children[k] == other;
      assert Holds(t, t[p].children[k], pos);
      assert p != s;
      var c := ChildTowards(t, p, s);
      AncestorContains(t, c, s, pos);
      SiblingsDisjoint(t, p, c, other, pos);
    }
  }

  lemma InnermostUnique(t: Tree, a: nat, b: nat, pos: nat)
    requires WellFormed(t) && Innermost(t, a, pos) && Innermost(t, b, pos)
    ensures a == b
  {
    InnermostIsBelowAll(t, a, b, pos);
    InnermostIsBelowAll(t, b, a, pos);
    AncestorContains(t, a, b, pos);
    AncestorContains(t, b, a, pos);
  }

  // ---------------------------------------------------------------------
  // The cursor
  // ---------------------------------------------------------------------

  datatype Frame = Frame(scope: nat, child: nat)

  /** Frames lead from the root downwards; each lower frame points at the child
      through which the next one was entered. */
  ghost predicate StackLinked(t: Tree, stack: seq<Frame>) {
    && stack != [] && stack[0].scope == ROOT
    && (forall i :: 0 <= i < |stack| ==> stack[i].scope < |t|)
    && (forall i, j :: 0 <= i < j < |stack| && j == i + 1 ==> EnteredBy(t, stack[i], stack[j]))
  }

  predicate EnteredBy(t: Tree, f: Frame, g: Frame) {
    f.scope < |t| && f.child < |t[f.scope].children| && t[f.scope].children[f.child] == g.scope
  }

  /** The child index of the topmost frame does not matter for the links. */
  lemma RetargetTop(t: Tree, above: seq<Frame>, f: Frame, g: Frame)
    requires f.scope == g.scope && StackLinked(t, above + [f])
    ensures StackLinked(t, above + [g])
  {
    var x, y := above + [f], above + [g];
    forall i | 0 <= i < |y| ensures y[i].scope < |t| {
      assert x[i].scope < |t|;
    }
    assert x[0].scope == y[0].scope;
    forall i, j | 0 <= i < j < |y| && j == i + 1 ensures EnteredBy(t, y[i], y[j]) {
      assert EnteredBy(t, x[i], x[j]);
    }
  }

  lemma PushFrame(t: Tree, stack: seq<Frame>, g: Frame)
    requires StackLinked(t, stack) && g.scope < |t| && EnteredBy(t, stack[|stack| - 1], g)
    ensures StackLinked(t, stack + [g])
  {
  }

  /** Children before the frame's index end at or before `pos`. */
  predicate Passed(t: Tree, f: Frame, pos: nat) {
    && f.scope < |t| && f.child <= |t[f.scope].children|
    && forall k :: 0 <= k < f.child ==> Done(t, t[f.scope].children[k], pos)
  }

  predicate Done(t: Tree, s: nat, pos: nat) {
    s < |t| && t[s].range.end <= pos
  }

  predicate Started(t: Tree, stack: seq<Frame>, pos: nat) {
    forall i :: 0 <= i < |stack| ==> stack[i].scope < |t| && t[stack[i].scope].range.start <= pos
  }

  lemma StartedConcat(t: Tree, a: seq<Frame>, f: Frame, pos: nat)
    ensures Started(t, a + [f], pos) <==>
      Started(t, a, pos) && f.scope < |t| && t[f.scope].range.start <= pos
  {
    var b := a + [f];
    assert b[|a|] == f;
    if Started(t, b, pos) {
      forall i | 0 <= i < |a| ensures a[i].scope < |t| && t[a[i].scope].range.start <= pos {
        assert b[i] == a[i];
      }
    }
  }

  /** What a cursor standing at `pos` keeps. */
  ghost predicate CursorOk(t: Tree, stack: seq<Frame>, pos: nat) {
    && StackLinked(t, stack)
    && Started(t, stack, pos)
    && Passed(t, stack[|stack| - 1], pos)
  }

  /** Leaving a child that ended makes all children up to it passed. */
  lemma PoppedIsPassed(t: Tree, f: Frame, pos: nat)
    requires WellFormed(t) && f.scope < |t| && f.child < |t[f.scope].children|
    requires Done(t, t[f.scope].children[f.child], pos)
    ensures Passed(t, Frame(f.scope, f.child + 1), pos)
  {
    var cs := t[f.scope].children;
    forall k | 0 <= k < f.child + 1 ensures Done(t, cs[k], pos) {
      if k < f.child {
        assert Precedes(t, cs[k], cs[f.child]);
        assert ChildOk(t, f.scope, cs[f.child]);
      }
    }
  }

  /** Nothing at or after the next child contains the position. */
  lemma NoLaterChild(t: Tree, f: Frame, pos: nat)
    requires WellFormed(t) && Passed(t, f, pos) && Contains(t, f.scope, pos)
    requires f.child == |t[f.scope].children| || t[t[f.scope].children[f.child]].range.start > pos
    ensures Innermost(t, f.scope, pos)
  {
    var cs := t[f.scope].children;
    forall k | 0 <= k < |cs| ensures !Holds(t, cs[k], pos) {
      if k < f.child {
        assert Done(t, cs[k], pos);
      } else if k > f.child {
        assert Precedes(t, cs[f.child], cs[k]);
        assert ChildOk(t, f.scope, cs[f.child]);
      }
    }
  }

  class ScopeCursor {
    const scopes: Tree
    var stack: seq<Frame>

    ghost predicate At(pos: nat)
      reads this
    {
      WellFormed(scopes) && CursorOk(scopes, stack, pos)
    }

    /** `Locals::scope_cursor`. */
    constructor (scopes: Tree, pos: nat)
      requires WellFormed(scopes)
      ensures this.scopes == scopes && At(pos)
    {
      this.scopes := scopes;
      stack := [];
      new;
      var scope: nat, more := ROOT, true;
      while more
        invariant WellFormed(scopes) && this.scopes == scopes
        invariant more ==> scope < |scopes| && stack + StartStack(scopes, scope, pos) == StartStack(scopes, ROOT, pos)
        invariant !more ==> stack == StartStack(scopes, ROOT, pos)
        decreases more, |scopes| - scope
      {
        var i := FirstNotBefore(scopes, scopes[scope].children, pos);
        ChildInTree(scopes, Frame(scope, i));
        if i < |scopes[scope].children| && scopes[scopes[scope].children[i]].range.start <= pos {
          Assoc(stack, [Frame(scope, i)], StartStack(scopes, scopes[scope].children[i], pos));
          stack := stack + [Frame(scope, i)];
          scope := scopes[scope].children[i];
        } else {
          stack := stack + [Frame(scope, i)];
          more := false;
        }
      }
      assert StackLinked(scopes, [] + [Frame(ROOT, 0)]);
      StartStackOk(scopes, ROOT, pos, []);
      assert [] + stack == stack;
    }

    /** Moves forward and returns the innermost scope containing `to`; the root
        is never popped. */
    method Advance(to: nat, ghost pos: nat) returns (s: nat)
      requires At(pos) && pos <= to < U32_MAX
      modifies this`stack
      ensures At(to) && Innermost(scopes, s, to)
      ensures stack[|stack| - 1].scope == s
    {
      var n := |stack| - 1;
      var active: nat, child: nat := stack[n].scope, stack[n].child;
      LookingFrom(scopes, stack, pos, to);
      stack := stack[..n];
      active, child := LeaveEnded(active, child, to);
      active, child := EnterChildren(active, child, to);
      Arrived(scopes, stack, active, child, to);
      stack := stack + [Frame(active, child)];
      s := active;
    }

    /** The first loop of `advance`. */
    method LeaveEnded(from: nat, at: nat, to: nat) returns (active: nat, child: nat)
      requires Looking(scopes, stack, from, at, to)
      modifies this`stack
      ensures Looking(scopes, stack, active, child, to) && to < scopes[active].range.end
    {
      active, child := from, at;
      while to >= scopes[active].range.end
        invariant Looking(scopes, stack, active, child, to)
        decreases |stack|
      {
        PopStep(scopes, stack, active, child, to);
        var m := |stack| - 1;
        active, child := stack[m].scope, stack[m].child + 1;
        stack := stack[..m];
      }
    }

    /** The second loop of `advance`. */
    method EnterChildren(from: nat, at: nat, to: nat) returns (active: nat, child: nat)
      requires Looking(scopes, stack, from, at, to) && to < scopes[from].range.end
      modifies this`stack
      ensures Looking(scopes, stack, active, child, to) && to < scopes[active].range.end
      ensures child < |scopes[active].children| ==> scopes[scopes[active].children[child]].range.start > to
    {
      active, child := from, at;
      while child < |scopes[active].children| && scopes[scopes[active].children[child]].range.start <= to
        invariant Looking(scopes, stack, active, child, to) && to < scopes[active].range.end
        decreases |scopes| - active, |scopes[active].children| - child
      {
        var c := scopes[active].children[child];
        ChildInTree(scopes, Frame(active, child));
        if to < scopes[c].range.end {
          EnterStep(scopes, stack, active, child, to);
          stack := stack + [Frame(active, child)];
          active, child := c, 0;
        } else {
          SkipStep(scopes, stack, active, child, to);
          child := child + 1;
        }
      }
    }
  }

  /** A cursor taken apart: the frames below, and the scope being looked at. */
  ghost predicate Looking(t: Tree, below: seq<Frame>, active: nat, child: nat, to: nat) {
    && WellFormed(t) && to < U32_MAX
    && CursorOk(t, below + [Frame(active, child)], to)
    && (below + [Frame(active, child)])[|below|] == Frame(active, child)
    && active < |t| && t[active].range.start <= to && child <= |t[active].children|
    && (child < |t[active].children| ==> t[active].children[child] < |t|)
  }

  lemma Arrived(t: Tree, below: seq<Frame>, active: nat, child: nat, to: nat)
    requires Looking(t, below, active, child, to) && to < t[active].range.end
    requires child < |t[active].children| ==> t[t[active].children[child]].range.start > to
    ensures CursorOk(t, below + [Frame(active, child)], to) && Innermost(t, active, to)
  {
    NoLaterChild(t, Frame(active, child), to);
  }

  lemma LookingFrom(t: Tree, stack: seq<Frame>, pos: nat, to: nat)
    requires WellFormed(t) && CursorOk(t, stack, pos) && pos <= to < U32_MAX
    ensures var n := |stack| - 1; Looking(t, stack[..n], stack[n].scope, stack[n].child, to)
  {
    var n := |stack| - 1;
    assert stack == stack[..n] + [stack[n]];
    assert Started(t, stack, to) && Passed(t, stack[n], to);
    ChildInTree(t, stack[n]);
  }

  lemma ChildInTree(t: Tree, f: Frame)
    requires WellFormed(t) && f.scope < |t|
    ensures f.child < |t[f.scope].children| ==> ChildOk(t, f.scope, t[f.scope].children[f.child])
  {
  }

  lemma PopStep(t: Tree, below: seq<Frame>, active: nat, child: nat, to: nat)
    requires Looking(t, below, active, child, to) && to >= t[active].range.end
    ensures below != []
    ensures var m := |below| - 1; Looking(t, below[..m], below[m].scope, below[m].child + 1, to)
  {
    var whole := below + [Frame(active, child)];
    assert whole[0].scope == ROOT;
    assert below != [];
    var m := |below| - 1;
    assert whole[m] == below[m] && whole[m + 1] == Frame(active, child);
    assert EnteredBy(t, whole[m], whole[m + 1]);
    PoppedIsPassed(t, below[m], to);
    var top := Frame(below[m].scope, below[m].child + 1);
    assert below[..m] + [below[m]] == whole[..m + 1];
    PrefixLinked(t, whole, m + 1);
    RetargetTop(t, below[..m], below[m], top);
    ChildInTree(t, top);
  }

  lemma PrefixLinked(t: Tree, stack: seq<Frame>, n: nat)
    requires StackLinked(t, stack) && 0 < n <= |stack|
    ensures StackLinked(t, stack[..n])
  {
  }

  lemma EnterStep(t: Tree, below: seq<Frame>, active: nat, child: nat, to: nat)
    requires Looking(t, below, active, child, to) && child < |t[active].children|
    requires Contains(t, t[active].children[child], to)
    ensures Looking(t, below + [Frame(active, child)], t[active].children[child], 0, to)
  {
    var c, whole := t[active].children[child], below + [Frame(active, child)];
    PushFrame(t, whole, Frame(c, 0));
    assert Started(t, whole + [Frame(c, 0)], to);
    assert Passed(t, Frame(c, 0), to);
    ChildInTree(t, Frame(c, 0));
  }

  lemma SkipStep(t: Tree, below: seq<Frame>, active: nat, child: nat, to: nat)
    requires Looking(t, below, active, child, to) && child < |t[active].children|
    requires to >= t[t[active].children[child]].range.end
    ensures Looking(t, below, active, child + 1, to)
  {
    var next := Frame(active, child + 1);
    PoppedIsPassed(t, Frame(active, child), to);
    RetargetTop(t, below, Frame(active, child), next);
    StartedConcat(t, below, Frame(active, child), to);
    StartedConcat(t, below, next, to);
    ChildInTree(t, next);
  }

  /** First child that does not end before `pos` (`partition_point`). */
  function FirstNotBefore(t: Tree, children: seq<nat>, pos: nat): (i: nat)
    ensures i <= |children|
    ensures forall k :: 0 <= k < i ==> children[k] < |t| && t[children[k]].range.end < pos
    ensures i < |children| && children[i] < |t| ==> t[children[i]].range.end >= pos
  {
    if children == [] || children[0] >= |t| || t[children[0]].range.end >= pos then 0
    else 1 + FirstNotBefore(t, children[1..], pos)
  }

  /** The stack the loop of `scope_cursor` builds from `s` downwards. */
  function StartStack(t: Tree, s: nat, pos: nat): (stack: seq<Frame>)
    requires WellFormed(t) && s < |t|
    ensures stack != [] && stack[0].scope == s
    decreases |t| - s
  {
    var cs := t[s].children;
    var i := FirstNotBefore(t, cs, pos);
    if i < |cs| && (assert ChildOk(t, s, cs[i]); t[cs[i]].range.start <= pos) then
      [Frame(s, i)] + StartStack(t, cs[i], pos)
    else
      [Frame(s, i)]
  }

  lemma {:induction false} StartStackOk(t: Tree, s: nat, pos: nat, above: seq<Frame>)
    requires WellFormed(t) && s < |t| && t[s].range.start <= pos
    requires StackLinked(t, above + [Frame(s, 0)])
    requires Started(t, above, pos)
    ensures CursorOk(t, above + StartStack(t, s, pos), pos)
    decreases |t| - s
  {
    var cs := t[s].children;
    var i := FirstNotBefore(t, cs, pos);
    var above' := above + [Frame(s, i)];
    StartFrameOk(t, s, i, pos, above);
    if i < |cs| && t[cs[i]].range.start <= pos {
      StartStackOk(t, cs[i], pos, above');
      Assoc(above, [Frame(s, i)], StartStack(t, cs[i], pos));
    }
  }

  lemma StartFrameOk(t: Tree, s: nat, i: nat, pos: nat, above: seq<Frame>)
    requires WellFormed(t) && s < |t| && t[s].range.start <= pos
    requires StackLinked(t, above + [Frame(s, 0)]) && Started(t, above, pos)
    requires i == FirstNotBefore(t, t[s].children, pos)
    ensures CursorOk(t, above + [Frame(s, i)], pos) && Started(t, above + [Frame(s, i)], pos)
    ensures i < |t[s].children| ==>
      && ChildOk(t, s, t[s].children[i])
      && StackLinked(t, above + [Frame(s, i)] + [Frame(t[s].children[i], 0)])
  {
    var above' := above + [Frame(s, i)];
    RetargetTop(t, above, Frame(s, 0), Frame(s, i));
    ChildInTree(t, Frame(s, i));
    assert above'[|above'| - 1] == Frame(s, i);
    if i < |t[s].children| {
      PushFrame(t, above', Frame(t[s].children[i], 0));
    }
  }

  // ---------------------------------------------------------------------
  // Where a new cursor starts
  // ---------------------------------------------------------------------

  function Last(stack: seq<Frame>): nat
    requires stack != []
  {
    stack[|stack| - 1].scope
  }

  lemma LastOfCons(f: Frame, rest: seq<Frame>)
    requires rest != []
    ensures Last([f] + rest) == Last(rest)
  {
  }

  /** A descent stays inside the scope it starts from. */
  lemma {:induction false} DescentStaysInside(t: Tree, s: nat, pos: nat)
    requires WellFormed(t) && s < |t|
    ensures var l := Last(StartStack(t, s, pos)); l < |t| && t[l].range.end <= t[s].range.end
    decreases |t| - s
  {
    var cs := t[s].children;
    var i := FirstNotBefore(t, cs, pos);
    ChildInTree(t, Frame(s, i));
    if i < |cs| && t[cs[i]].range.start <= pos {
      LastOfCons(Frame(s, i), StartStack(t, cs[i], pos));
      DescentStaysInside(t, cs[i], pos);
    }
  }

  /** A scope that ends at the position, under one that contains it. */
  predicate EndsAt(t: Tree, c: nat, pos: nat)
    requires WellFormed(t)
  {
    0 < c < |t| && t[c].range.end == pos && Contains(t, t[c].parent.value, pos)
  }

  lemma {:induction false} StartsInnermost(t: Tree, s: nat, pos: nat)
    requires WellFormed(t) && s < |t| && Contains(t, s, pos)
    requires forall c :: 0 < c < |t| ==> !EndsAt(t, c, pos)
    ensures Innermost(t, Last(StartStack(t, s, pos)), pos)
    decreases |t| - s
  {
    var cs := t[s].children;
    var i := FirstNotBefore(t, cs, pos);
    ChildInTree(t, Frame(s, i));
    if i < |cs| && t[cs[i]].range.start <= pos {
      assert !EndsAt(t, cs[i], pos);
      LastOfCons(Frame(s, i), StartStack(t, cs[i], pos));
      StartsInnermost(t, cs[i], pos);
    } else {
      assert Passed(t, Frame(s, i), pos);
      NoLaterChild(t, Frame(s, i), pos);
    }
  }

  /** The first child not before `pos`, when some child `c` reaches it. */
  lemma ReachingIndex(t: Tree, s: nat, c: nat, pos: nat) returns (k: nat)
    requires WellFormed(t) && s < |t| && 0 < c < |t| && t[c].parent == Some(s) && t[c].range.end >= pos
    ensures k < |t[s].children| && t[s].children[k] == c && FirstNotBefore(t, t[s].children, pos) <= k
  {
    assert c in t[s].children;
    k :| 0 <= k < |t[s].children| && t[s].children[k] == c;
  }

  lemma FirstReaching(t: Tree, s: nat, c: nat, pos: nat)
    requires WellFormed(t) && s < |t| && 0 < c < |t| && t[c].parent == Some(s) && t[c].range.end >= pos
    requires t[c].range.start <= pos
    ensures var cs := t[s].children;
      var i := FirstNotBefore(t, cs, pos);
      && i < |cs| && ChildOk(t, s, cs[i]) && t[cs[i]].range.start <= pos
      && (cs[i] == c || t[cs[i]].range.end == pos)
  {
    var cs := t[s].children;
    var i := FirstNotBefore(t, cs, pos);
    var k := ReachingIndex(t, s, c, pos);
    ChildInTree(t, Frame(s, i));
    assert i < k ==> Precedes(t, cs[i], cs[k]);
  }

  lemma {:induction false} StartsTooDeep(t: Tree, s: nat, p: nat, c: nat, pos: nat)
    requires WellFormed(t) && s < |t| && p < |t| && AncestorOrSelf(t, s, p) && Contains(t, p, pos)
    requires 0 < c < |t| && t[c].parent == Some(p) && t[c].range.end == pos
    ensures var l := Last(StartStack(t, s, pos)); l < |t| && !Contains(t, l, pos)
    decreases |t| - s
  {
    var c' := c;
    if s != p {
      c' := ChildTowards(t, s, p);
      AncestorContains(t, c', p, pos);
    }
    ParentEncloses(t, c');
    FirstReaching(t, s, c', pos);
    var i := FirstNotBefore(t, t[s].children, pos);
    var d := t[s].children[i];
    LastOfCons(Frame(s, i), StartStack(t, d, pos));
    if t[d].range.end == pos {
      DescentStaysInside(t, d, pos);
    } else {
      StartsTooDeep(t, d, p, c, pos);
    }
  }

  /** A fresh cursor stands on the innermost scope exactly when no scope under
      one that contains the position ends there; otherwise it stands on a scope
      that is already over, until the first `Advance`. */
  lemma CursorStartExact(t: Tree, pos: nat)
    requires WellFormed(t) && pos < U32_MAX
    ensures Innermost(t, Last(StartStack(t, ROOT, pos)), pos)
      <==> !(exists c :: 0 < c < |t| && EndsAt(t, c, pos))
  {
    if c :| 0 < c < |t| && EndsAt(t, c, pos) {
      var p := t[c].parent.value;
      RootIsAncestor(t, p);
      StartsTooDeep(t, ROOT, p, c, pos);
    } else {
      StartsInnermost(t, ROOT, pos);
    }
  }

  // ---------------------------------------------------------------------
  // References
  // ---------------------------------------------------------------------

  /** The scope `k` steps up from `s`, when every step may be taken. */
  function Upwards(t: Tree, s: nat, k: nat): Option<nat>
    requires RootOk(t) && ParentsOk(t) && s < |t|
    decreases k
  {
    if k == 0 then Some(s)
    else if !t[s].inherit || s == 0 then None
    else Upwards(t, t[s].parent.value, k - 1)
  }

  /** `s` sees `name` defined `k` inherited scopes up, and no nearer. */
  ghost predicate SeesAt(t: Tree, s: nat, name: string, k: nat)
    requires RootOk(t) && ParentsOk(t) && s < |t|
  {
    && Upwards(t, s, k).Some? && Upwards(t, s, k).value < |t|
    && name in t[Upwards(t, s, k).value].definitions
    && forall j :: 0 <= j < k ==>
         Upwards(t, s, j).Some? && Upwards(t, s, j).value < |t| && name !in t[Upwards(t, s, j).value].definitions
  }

  /** The nearest definition on the inherit chain, if there is one. */
  method LookupReference(t: Tree, scope: nat, name: string) returns (r: Option<Definition>)
    requires RootOk(t) && ParentsOk(t) && scope < |t|
    ensures r.Some? ==> exists k: nat ::
      SeesAt(t, scope, name, k) && t[Upwards(t, scope, k).value].definitions[name] == r.value
    ensures r.None? ==> forall k: nat :: !SeesAt(t, scope, name, k)
  {
    var s: nat, k: nat := scope, 0;
    while true
      invariant s < |t| && Upwards(t, scope, k) == Some(s)
      invariant forall j :: 0 <= j < k ==>
        && Upwards(t, scope, j).Some? && Upwards(t, scope, j).value < |t|
        && name !in t[Upwards(t, scope, j).value].definitions
      decreases s
    {
      if name in t[s].definitions {
        assert SeesAt(t, scope, name, k);
        return Some(t[s].definitions[name]);
      }
      UpwardsNext(t, scope, k);
      if !t[s].inherit || t[s].parent.None? {
        SeesNothing(t, scope, name, k);
        return None;
      }
      s, k := t[s].parent.value, k + 1;
    }
  }

  lemma SeesNothing(t: Tree, s: nat, name: string, k: nat)
    requires RootOk(t) && ParentsOk(t) && s < |t| && Upwards(t, s, k + 1).None?
    requires forall j: nat :: j <= k ==>
      && Upwards(t, s, j).Some? && Upwards(t, s, j).value < |t|
      && name !in t[Upwards(t, s, j).value].definitions
    ensures forall i: nat :: !SeesAt(t, s, name, i)
  {
    forall i: nat ensures !SeesAt(t, s, name, i) {
      if i > k { UpwardsStops(t, s, k + 1, i); }
    }
  }

  lemma {:induction false} UpwardsNext(t: Tree, s: nat, k: nat)
    requires RootOk(t) && ParentsOk(t) && s < |t| && Upwards(t, s, k).Some?
    ensures Upwards(t, s, k).value < |t|
    ensures var u := Upwards(t, s, k).value;
      Upwards(t, s, k + 1) == if !t[u].inherit || u == 0 then None else Some(t[u].parent.value)
    decreases k
  {
    if k > 0 { UpwardsNext(t, t[s].parent.value, k - 1); }
  }

  lemma {:induction false} UpwardsStops(t: Tree, s: nat, k: nat, i: nat)
    requires RootOk(t) && ParentsOk(t) && s < |t| && Upwards(t, s, k).None? && k <= i
    ensures Upwards(t, s, i).None?
    decreases k
  {
    if t[s].inherit && s > 0 && k > 0 { UpwardsStops(t, t[s].parent.value, k - 1, i - 1); }
  }
}
