/** Building the scope tree of a layer from the captures of its locals query
(crates/tree_house/src/locals.rs, `Locals::push` and `run_local_query`). */
module ScopeBuilder {
  import opened Prelude
  import opened Scopes

  datatype Capture =
    | ScopeCapture(range: Range, inherit: bool)
    | DefinitionCapture(range: Range, name: string, id: nat)
    | OtherCapture(range: Range)

  /** Captures in preorder, each nested in or after every earlier scope. */
  predicate InPreorder(caps: seq<Capture>) {
    && (forall i :: 0 <= i < |caps| ==>
          caps[i].range.start <= caps[i].range.end <= U32_MAX && caps[i].range.start < U32_MAX)
    && (forall i, j :: 0 <= i < j < |caps| ==> caps[i].range.start <= caps[j].range.start)
    && (forall i, j :: 0 <= i < j < |caps| && caps[i].ScopeCapture? ==>
          caps[j].range.start >= caps[i].range.end || caps[j].range.end <= caps[i].range.end)
  }

  /** `Locals::push`: append the scope and list it under its parent. */
  function Pushed(t: Tree, s: ScopeData): Tree
    requires s.parent.Some? && s.parent.value < |t|
  {
    var p := s.parent.value;
    t[p := t[p].(children := t[p].children + [|t|])] + [s]
  }

  class Locals {
    var scopes: Tree

    constructor ()
      ensures scopes == [ROOT_SCOPE]
    {
      scopes := [ROOT_SCOPE];
    }

    method Push(s: ScopeData) returns (id: nat)
      requires s.parent.Some? && s.parent.value < |scopes|
      modifies this
      ensures id == |old(scopes)| && scopes == Pushed(old(scopes), s)
    {
      id := |scopes|;
      var p := s.parent.value;
      scopes := scopes[p := scopes[p].(children := scopes[p].children + [id])];
      scopes := scopes + [s];
    }

    method Define(scope: nat, name: string, def: Definition)
      requires scope < |scopes|
      modifies this
      ensures scopes == Defined(old(scopes), scope, name, def)
    {
      scopes := scopes[scope := scopes[scope].(definitions := scopes[scope].definitions[name := def])];
    }
  }

  function Defined(t: Tree, s: nat, name: string, def: Definition): Tree
    requires s < |t|
  {
    t[s := t[s].(definitions := t[s].definitions[name := def])]
  }

  lemma PushedParents(t: Tree, d: ScopeData)
    requires WellFormed(t) && d.parent.Some? && d.parent.value < |t| && d.children == []
    ensures RootOk(Pushed(t, d)) && ParentsOk(Pushed(t, d))
  {
    var t', n, p := Pushed(t, d), |t|, d.parent.value;
    assert t'[p].children[|t[p].children|] == n;
    forall i | 0 < i < |t'|
      ensures t'[i].parent.Some? && t'[i].parent.value < i && i in t'[t'[i].parent.value].children
    {
      if i < n {
        var q := t[i].parent.value;
        assert i in t[q].children && t'[i].parent == t[i].parent;
        var k :| 0 <= k < |t[q].children| && t[q].children[k] == i;
        assert t'[q].children[k] == i;
      }
    }
  }

  lemma PushedChildren(t: Tree, d: ScopeData)
    requires WellFormed(t) && d.parent.Some? && d.parent.value < |t| && d.children == []
    requires t[d.parent.value].range.start <= d.range.start <= d.range.end <= t[d.parent.value].range.end
    ensures ChildrenOk(Pushed(t, d))
  {
    var t' := Pushed(t, d);
    forall p, k | 0 <= p < |t'| && 0 <= k < |t'[p].children| ensures ChildOk(t', p, t'[p].children[k]) {
      if p < |t| && k < |t[p].children| {
        assert ChildOk(t, p, t[p].children[k]);
      }
    }
  }

  lemma PushedWellFormed(t: Tree, d: ScopeData)
    requires WellFormed(t) && d.parent.Some? && d.parent.value < |t| && d.children == []
    requires t[d.parent.value].range.start <= d.range.start <= d.range.end <= t[d.parent.value].range.end
    requires forall k :: 0 <= k < |t[d.parent.value].children| ==>
      Done(t, t[d.parent.value].children[k], d.range.start)
    ensures WellFormed(Pushed(t, d))
  {
    PushedParents(t, d);
    PushedChildren(t, d);
    var t', n := Pushed(t, d), |t|;
    forall p, j, k | 0 <= p < |t'| && 0 <= j < k < |t'[p].children|
      ensures Precedes(t', t'[p].children[j], t'[p].children[k])
    {
      ChildInTree(t, Frame(if p < n then p else 0, j));
      if k < |t[p].children| {
        ChildInTree(t, Frame(p, k));
        assert Precedes(t, t[p].children[j], t[p].children[k]);
      } else {
        assert Done(t, t[p].children[j], d.range.start);
      }
    }
  }

  lemma {:induction false} PushedAncestors(t: Tree, d: ScopeData, a: nat, s: nat)
    requires WellFormed(t) && d.parent.Some? && d.parent.value < |t| && d.children == [] && s < |t|
    ensures RootOk(Pushed(t, d)) && ParentsOk(Pushed(t, d))
    ensures AncestorOrSelf(Pushed(t, d), a, s) == AncestorOrSelf(t, a, s)
    decreases s
  {
    PushedParents(t, d);
    if s > 0 && a != s { PushedAncestors(t, d, a, t[s].parent.value); }
  }

  predicate SameShape(t: Tree, t': Tree) {
    |t| == |t'| && forall i :: 0 <= i < |t| ==>
      t'[i].range == t[i].range && t'[i].children == t[i].children && t'[i].parent == t[i].parent
  }

  lemma SameShapeWellFormed(t: Tree, t': Tree)
    requires WellFormed(t) && SameShape(t, t')
    ensures WellFormed(t')
  {
    forall p, k | 0 <= p < |t'| && 0 <= k < |t'[p].children| ensures ChildOk(t', p, t'[p].children[k]) {
      assert ChildOk(t, p, t[p].children[k]);
    }
    forall p, j, k | 0 <= p < |t'| && 0 <= j < k < |t'[p].children|
      ensures Precedes(t', t'[p].children[j], t'[p].children[k])
    {
      assert Precedes(t, t[p].children[j], t[p].children[k]);
    }
  }

  lemma {:induction false} SameShapeAncestors(t: Tree, t': Tree, a: nat, s: nat)
    requires WellFormed(t) && SameShape(t, t') && WellFormed(t') && s < |t|
    ensures AncestorOrSelf(t', a, s) == AncestorOrSelf(t, a, s)
    decreases s
  {
    if s > 0 && a != s { SameShapeAncestors(t, t', a, t[s].parent.value); }
  }

  // ---------------------------------------------------------------------
  // The loop
  // ---------------------------------------------------------------------

  /** Where the first `|home|` captures went.  `origin[x]` is the capture that
      created scope `x`, `home[i]` the scope that was current for capture `i`. */
  ghost predicate ScopesPlaced(t: Tree, origin: seq<nat>, home: seq<nat>, caps: seq<Capture>) {
    && |origin| == |t| && |home| <= |caps|
    && (forall x :: 0 < x < |t| ==> ScopePlaced(t, origin, home, caps, x))
    && (forall i :: 0 <= i < |home| && caps[i].ScopeCapture? ==> Created(t, origin, i))
  }

  ghost predicate Created(t: Tree, origin: seq<nat>, i: nat)
    requires |origin| == |t|
  {
    exists x :: 0 < x < |t| && origin[x] == i
  }

  predicate ScopePlaced(t: Tree, origin: seq<nat>, home: seq<nat>, caps: seq<Capture>, x: nat)
    requires |origin| == |t| && |home| <= |caps| && x < |t|
  {
    && origin[x] < |home| && caps[origin[x]].ScopeCapture?
    && t[x].range == caps[origin[x]].range && t[x].inherit == caps[origin[x]].inherit
    && t[x].parent == Some(home[origin[x]])
  }

  /** Scope `x` existed when capture `i` arrived. */
  predicate Existed(t: Tree, origin: seq<nat>, x: nat, i: nat)
    requires |origin| == |t|
  {
    x < |t| && (x == ROOT || origin[x] < i)
  }

  /** The innermost of the scopes that existed: it encloses the capture, and
      everything else that held its start encloses it. */
  ghost predicate AtHome(t: Tree, origin: seq<nat>, r: Range, x: nat, i: nat)
    requires WellFormed(t) && |origin| == |t|
  {
    && Existed(t, origin, x, i) && Contains(t, x, r.start) && r.end <= t[x].range.end
    && forall y: nat :: Existed(t, origin, y, i) && Contains(t, y, r.start) ==> AncestorOrSelf(t, y, x)
  }

  ghost predicate AllAtHome(t: Tree, origin: seq<nat>, home: seq<nat>, caps: seq<Capture>)
    requires WellFormed(t) && |origin| == |t| && |home| <= |caps|
  {
    forall i :: 0 <= i < |home| ==> AtHome(t, origin, caps[i].range, home[i], i)
  }

  /** The last definition of `name` among the first captures that went to `x`. */
  function LastDefinition(caps: seq<Capture>, home: seq<nat>, x: nat, name: string): Option<Definition>
    requires |home| <= |caps|
  {
    if home == [] then None
    else
      var i := |home| - 1;
      if home[i] == x && caps[i].DefinitionCapture? && caps[i].name == name
      then Some(Definition(caps[i].id, caps[i].range))
      else LastDefinition(caps, home[..i], x, name)
  }

  ghost predicate DefinitionsPlaced(t: Tree, home: seq<nat>, caps: seq<Capture>)
    requires |home| <= |caps|
  {
    forall x, name :: 0 <= x < |t| ==> Finds(t[x].definitions, name) == LastDefinition(caps, home, x, name)
  }

  function Finds(defs: map<string, Definition>, name: string): Option<Definition> {
    if name in defs then Some(defs[name]) else None
  }

  /** Only the scopes around the current one are still open at `start`. */
  ghost predicate OthersClosed(t: Tree, s: nat, start: nat)
    requires WellFormed(t) && s < |t|
  {
    forall x :: 0 <= x < |t| ==>
      t[x].range.start <= start && (AncestorOrSelf(t, x, s) || t[x].range.end <= start)
  }

  lemma LeaveScope(t: Tree, s: nat, start: nat)
    requires WellFormed(t) && s < |t| && OthersClosed(t, s, start)
    requires t[s].range.end <= start < U32_MAX
    ensures s > 0 && OthersClosed(t, t[s].parent.value, start)
  {
  }

  lemma CurrentIsHome(t: Tree, origin: seq<nat>, home: seq<nat>, caps: seq<Capture>, s: nat)
    requires WellFormed(t) && InPreorder(caps) && ScopesPlaced(t, origin, home, caps) && |home| < |caps|
    requires s < |t| && OthersClosed(t, s, caps[|home|].range.start)
    requires caps[|home|].range.start < t[s].range.end
    ensures AtHome(t, origin, caps[|home|].range, s, |home|)
  {
    var i := |home|;
    if s > 0 {
      assert ScopePlaced(t, origin, home, caps, s);
    }
  }

  lemma PushKeepsHome(t: Tree, d: ScopeData, origin: seq<nat>, n: nat, r: Range, x: nat, i: nat)
    requires WellFormed(t) && |origin| == |t| && i <= n
    requires d.parent.Some? && d.parent.value < |t| && d.children == [] && WellFormed(Pushed(t, d))
    requires AtHome(t, origin, r, x, i)
    ensures AtHome(Pushed(t, d), origin + [n], r, x, i)
  {
    var t' := Pushed(t, d);
    forall y: nat | Existed(t', origin + [n], y, i) && Contains(t', y, r.start) ensures AncestorOrSelf(t', y, x) {
      assert y < |t| && t'[y].range == t[y].range;
      PushedAncestors(t, d, y, x);
    }
  }

  lemma DefineKeepsHome(t: Tree, t': Tree, origin: seq<nat>, r: Range, x: nat, i: nat)
    requires WellFormed(t) && WellFormed(t') && SameShape(t, t') && |origin| == |t|
    requires AtHome(t, origin, r, x, i)
    ensures AtHome(t', origin, r, x, i)
  {
    forall y: nat | Existed(t', origin, y, i) && Contains(t', y, r.start) ensures AncestorOrSelf(t', y, x) {
      SameShapeAncestors(t, t', y, x);
    }
  }

  /** The state of the loop after the captures `home` accounts for. */
  ghost predicate Built(t: Tree, origin: seq<nat>, home: seq<nat>, caps: seq<Capture>) {
    && WellFormed(t)
    && ScopesPlaced(t, origin, home, caps)
    && AllAtHome(t, origin, home, caps)
    && DefinitionsPlaced(t, home, caps)
  }

  lemma HomeOfNext(caps: seq<Capture>, home: seq<nat>, s: nat, x: nat, name: string)
    requires |home| < |caps|
    ensures LastDefinition(caps, home + [s], x, name) ==
      var c := caps[|home|];
      if s == x && c.DefinitionCapture? && c.name == name then Some(Definition(c.id, c.range))
      else LastDefinition(caps, home, x, name)
  {
    assert (home + [s])[..|home|] == home;
  }

  lemma PushScopes(t: Tree, origin: seq<nat>, home: seq<nat>, caps: seq<Capture>, s: nat, d: ScopeData)
    requires |t| > 0 && ScopesPlaced(t, origin, home, caps) && |home| < |caps| && caps[|home|].ScopeCapture? && s < |t|
    requires d == ScopeData(map[], caps[|home|].range, caps[|home|].inherit, [], Some(s))
    ensures ScopesPlaced(Pushed(t, d), origin + [|home|], home + [s], caps)
  {
    var t', origin', home', n := Pushed(t, d), origin + [|home|], home + [s], |home|;
    forall x | 0 < x < |t'| ensures ScopePlaced(t', origin', home', caps, x) {
      if x < |t| { assert ScopePlaced(t, origin, home, caps, x); }
    }
    forall i | 0 <= i < |home'| && caps[i].ScopeCapture? ensures Created(t', origin', i) {
      if i < n {
        assert Created(t, origin, i);
        var x :| 0 < x < |t| && origin[x] == i;
        assert origin'[x] == i;
      } else {
        assert origin'[|t|] == n;
      }
    }
  }

  lemma BuiltPush(t: Tree, origin: seq<nat>, home: seq<nat>, caps: seq<Capture>, s: nat, d: ScopeData)
    requires Built(t, origin, home, caps) && |home| < |caps| && caps[|home|].ScopeCapture?
    requires s < |t| && AtHome(t, origin, caps[|home|].range, s, |home|)
    requires d == ScopeData(map[], caps[|home|].range, caps[|home|].inherit, [], Some(s))
    requires WellFormed(Pushed(t, d))
    ensures Built(Pushed(t, d), origin + [|home|], home + [s], caps)
  {
    var t', origin', home', n := Pushed(t, d), origin + [|home|], home + [s], |home|;
    PushScopes(t, origin, home, caps, s, d);
    forall i | 0 <= i < |home'| ensures AtHome(t', origin', caps[i].range, home'[i], i) {
      PushKeepsHome(t, d, origin, n, caps[i].range, home'[i], i);
    }
    PushDefinitions(t, d, home, caps, s);
  }

  lemma PushDefinitions(t: Tree, d: ScopeData, home: seq<nat>, caps: seq<Capture>, s: nat)
    requires |home| < |caps| && !caps[|home|].DefinitionCapture? && DefinitionsPlaced(t, home, caps)
    requires d.parent.Some? && d.parent.value < |t| && d.definitions == map[]
    requires forall i :: 0 <= i < |home| ==> home[i] < |t|
    ensures DefinitionsPlaced(Pushed(t, d), home + [s], caps)
  {
    var t' := Pushed(t, d);
    forall x, name | 0 <= x < |t'|
      ensures Finds(t'[x].definitions, name) == LastDefinition(caps, home + [s], x, name)
    {
      HomeOfNext(caps, home, s, x, name);
      if x < |t| {
        assert Finds(t[x].definitions, name) == LastDefinition(caps, home, x, name);
      } else {
        NeverHome(caps, home, x, name);
      }
    }
  }

  lemma {:induction false} NeverHome(caps: seq<Capture>, home: seq<nat>, x: nat, name: string)
    requires |home| <= |caps| && forall i :: 0 <= i < |home| ==> home[i] != x
    ensures LastDefinition(caps, home, x, name) == None
  {
    if home != [] { NeverHome(caps, home[..|home| - 1], x, name); }
  }

  lemma SameScopes(t: Tree, t': Tree, origin: seq<nat>, home: seq<nat>, caps: seq<Capture>, s: nat)
    requires ScopesPlaced(t, origin, home, caps) && |home| < |caps| && !caps[|home|].ScopeCapture?
    requires SameShape(t, t') && forall i :: 0 <= i < |t| ==> t'[i].inherit == t[i].inherit
    ensures ScopesPlaced(t', origin, home + [s], caps)
  {
    var home' := home + [s];
    forall x | 0 < x < |t'| ensures ScopePlaced(t', origin, home', caps, x) {
      assert ScopePlaced(t, origin, home, caps, x);
    }
    forall i | 0 <= i < |home'| && caps[i].ScopeCapture? ensures Created(t', origin, i) {
      assert Created(t, origin, i);
      var x :| 0 < x < |t| && origin[x] == i;
    }
  }

  /** A capture that changes no scope but may define a name. */
  lemma BuiltSame(t: Tree, t': Tree, origin: seq<nat>, home: seq<nat>, caps: seq<Capture>, s: nat)
    requires Built(t, origin, home, caps) && |home| < |caps| && !caps[|home|].ScopeCapture?
    requires s < |t| && AtHome(t, origin, caps[|home|].range, s, |home|)
    requires t' == (var c := caps[|home|];
                    if c.DefinitionCapture? then Defined(t, s, c.name, Definition(c.id, c.range)) else t)
    ensures SameShape(t, t') && WellFormed(t')
    ensures Built(t', origin, home + [s], caps)
  {
    var home', c := home + [s], caps[|home|];
    SameShapeWellFormed(t, t');
    SameScopes(t, t', origin, home, caps, s);
    forall i | 0 <= i < |home'| ensures AtHome(t', origin, caps[i].range, home'[i], i) {
      DefineKeepsHome(t, t', origin, caps[i].range, home'[i], i);
    }
    SameDefinitions(t, t', home, caps, s);
  }

  lemma SameDefinitions(t: Tree, t': Tree, home: seq<nat>, caps: seq<Capture>, s: nat)
    requires |home| < |caps| && !caps[|home|].ScopeCapture? && DefinitionsPlaced(t, home, caps) && s < |t|
    requires t' == (var c := caps[|home|];
                    if c.DefinitionCapture? then Defined(t, s, c.name, Definition(c.id, c.range)) else t)
    ensures DefinitionsPlaced(t', home + [s], caps)
  {
    forall x, name | 0 <= x < |t'|
      ensures Finds(t'[x].definitions, name) == LastDefinition(caps, home + [s], x, name)
    {
      HomeOfNext(caps, home, s, x, name);
      assert Finds(t[x].definitions, name) == LastDefinition(caps, home, x, name);
    }
  }

  lemma OpenPushed(t: Tree, d: ScopeData, s: nat)
    requires WellFormed(t) && s < |t| && OthersClosed(t, s, d.range.start)
    requires d.parent == Some(s) && d.children == [] && WellFormed(Pushed(t, d))
    ensures OthersClosed(Pushed(t, d), |t|, d.range.start)
  {
    var t' := Pushed(t, d);
    forall x | 0 <= x < |t'|
      ensures t'[x].range.start <= d.range.start && (AncestorOrSelf(t', x, |t|) || t'[x].range.end <= d.range.start)
    {
      if x < |t| { PushedAncestors(t, d, x, s); }
    }
  }

  lemma OpenSame(t: Tree, t': Tree, s: nat, start: nat)
    requires WellFormed(t) && SameShape(t, t') && WellFormed(t') && s < |t| && OthersClosed(t, s, start)
    ensures OthersClosed(t', s, start)
  {
    forall x | 0 <= x < |t'|
      ensures t'[x].range.start <= start && (AncestorOrSelf(t', x, s) || t'[x].range.end <= start)
    {
      SameShapeAncestors(t, t', x, s);
    }
  }

  lemma ChildrenClosed(t: Tree, s: nat, start: nat)
    requires WellFormed(t) && s < |t| && OthersClosed(t, s, start)
    ensures forall k :: 0 <= k < |t[s].children| ==> Done(t, t[s].children[k], start)
  {
    forall k | 0 <= k < |t[s].children| ensures Done(t, t[s].children[k], start) {
      ChildInTree(t, Frame(s, k));
      NotAncestorOfParent(t, t[s].children[k], s);
    }
  }

  lemma {:induction false} NotAncestorOfParent(t: Tree, a: nat, s: nat)
    requires WellFormed(t) && s < |t| && a > s
    ensures !AncestorOrSelf(t, a, s)
    decreases s
  {
    if s > 0 { NotAncestorOfParent(t, a, t[s].parent.value); }
  }

  /** Tree and current scope after a capture, the ended scopes being left. */
  function Taken(t: Tree, s: nat, c: Capture): (Tree, nat)
    requires s < |t|
  {
    match c
    case ScopeCapture(range, inherit) => (Pushed(t, ScopeData(map[], range, inherit, [], Some(s))), |t|)
    case DefinitionCapture(range, name, id) => (Defined(t, s, name, Definition(id, range)), s)
    case OtherCapture(_) => (t, s)
  }

  /** The loop invariant at capture `|home|`. */
  ghost predicate Building(t: Tree, origin: seq<nat>, home: seq<nat>, caps: seq<Capture>, s: nat, start: nat) {
    Built(t, origin, home, caps) && s < |t| && OthersClosed(t, s, start)
  }

  lemma StartBuilding(caps: seq<Capture>)
    ensures Building([ROOT_SCOPE], [0], [], caps, ROOT, 0)
  {
  }

  lemma TakeCapture(t: Tree, origin: seq<nat>, home: seq<nat>, caps: seq<Capture>, s: nat)
    requires InPreorder(caps) && |home| < |caps|
    requires Building(t, origin, home, caps, s, caps[|home|].range.start)
    requires caps[|home|].range.start < t[s].range.end
    ensures var c := caps[|home|];
      var (t', s') := Taken(t, s, c);
      Building(t', if c.ScopeCapture? then origin + [|home|] else origin, home + [s], caps, s', c.range.start)
  {
    var c := caps[|home|];
    CurrentIsHome(t, origin, home, caps, s);
    if c.ScopeCapture? {
      var d := ScopeData(map[], c.range, c.inherit, [], Some(s));
      ChildrenClosed(t, s, c.range.start);
      PushedWellFormed(t, d);
      BuiltPush(t, origin, home, caps, s, d);
      OpenPushed(t, d, s);
    } else {
      var t' := Taken(t, s, c).0;
      BuiltSame(t, t', origin, home, caps, s);
      OpenSame(t, t', s, c.range.start);
    }
  }

  lemma StartLater(t: Tree, origin: seq<nat>, home: seq<nat>, caps: seq<Capture>, s: nat, start: nat, later: nat)
    requires Building(t, origin, home, caps, s, start) && start <= later
    ensures Building(t, origin, home, caps, s, later)
  {
  }

  lemma LeaveBuilding(t: Tree, origin: seq<nat>, home: seq<nat>, caps: seq<Capture>, s: nat, start: nat)
    requires Building(t, origin, home, caps, s, start) && t[s].range.end <= start < U32_MAX
    ensures s > 0 && t[s].parent.Some? && t[s].parent.value < s
    ensures Building(t, origin, home, caps, t[s].parent.value, start)
  {
    LeaveScope(t, s, start);
  }

  /** The finished tree accounts for every capture. */
  ghost predicate BuiltFrom(t: Tree, caps: seq<Capture>) {
    exists origin, home :: Built(t, origin, home, caps) && |home| == |caps|
  }

  /** Leaves the scopes that ended before `start`. */
  method LeaveEnded(t: Tree, from: nat, start: nat, ghost origin: seq<nat>, ghost home: seq<nat>,
                    ghost caps: seq<Capture>)
    returns (scope: nat)
    requires Building(t, origin, home, caps, from, start) && start < U32_MAX
    ensures Building(t, origin, home, caps, scope, start) && start < t[scope].range.end
  {
    scope := from;
    while start >= t[scope].range.end
      invariant Building(t, origin, home, caps, scope, start)
      decreases scope
    {
      LeaveBuilding(t, origin, home, caps, scope, start);
      scope := t[scope].parent.value;
    }
  }

  /** The scope-building loop of `run_local_query`: each capture leaves the
      scopes that ended before it, then opens a scope, defines a name, or
      neither. */
  method BuildLocals(caps: seq<Capture>) returns (t: Tree)
    requires InPreorder(caps)
    ensures WellFormed(t) && BuiltFrom(t, caps)
  {
    var locals := new Locals();
    ghost var origin: seq<nat>, home: seq<nat> := [0], [];
    var scope: nat, k := ROOT, 0;
    ghost var start: nat := 0;
    StartBuilding(caps);
    while k < |caps|
      invariant 0 <= k <= |caps| && |home| == k
      invariant Building(locals.scopes, origin, home, caps, scope, start)
      invariant k < |caps| ==> start <= caps[k].range.start
    {
      var c := caps[k];
      ghost var before := locals.scopes;
      StartLater(before, origin, home, caps, scope, start, c.range.start);
      scope := LeaveEnded(locals.scopes, scope, c.range.start, origin, home, caps);
      TakeCapture(before, origin, home, caps, scope);
      home := home + [scope];
      match c {
        case ScopeCapture(range, inherit) =>
          origin := origin + [k];
          scope := locals.Push(ScopeData(map[], range, inherit, [], Some(scope)));
        case DefinitionCapture(range, name, id) =>
          locals.Define(scope, name, Definition(id, range));
        case OtherCapture(_) =>
      }
      start := c.range.start;
      k := k + 1;
    }
    t := locals.scopes;
    BuiltAll(t, origin, home, caps, scope, start);
  }

  lemma BuiltAll(t: Tree, origin: seq<nat>, home: seq<nat>, caps: seq<Capture>, s: nat, start: nat)
    requires Building(t, origin, home, caps, s, start) && |home| == |caps|
    ensures WellFormed(t) && BuiltFrom(t, caps)
  {
    assert Built(t, origin, home, caps);
  }
}
