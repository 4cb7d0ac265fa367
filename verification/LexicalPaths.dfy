/** Lexical path normalisation (crates/editor/src/paths.rs, `normalize_lexical`).

A path is the list of its components; taking a path apart into components and
putting it together again is the standard library's work.
 */
module LexicalPaths {
  import opened Prelude

  datatype Component =
    | Prefix(name: string)
    | RootDir
    | CurDir
    | ParentDir
    | Normal(segment: string)

  /** What `Path::components` yields: a prefix only in front, and no normal
      segment that is empty or means a directory entry. */
  predicate IsPath(p: seq<Component>) {
    && (forall i :: 0 < i < |p| ==> !p[i].Prefix?)
    && (forall i :: 0 <= i < |p| && p[i].Normal? ==> p[i].segment != "" && p[i].segment != "." && p[i].segment != "..")
  }

  // ---------------------------------------------------------------------
  // Meaning
  // ---------------------------------------------------------------------

  /** A place: a drive and the segments from its root. */
  datatype Location = Location(drive: Option<string>, segments: seq<string>)

  /** The current directory of every drive. */
  type Dirs = Option<string> -> seq<string>

  function Drop(s: seq<string>): seq<string> { if s == [] then [] else s[..|s| - 1] }

  function Enter(at: Location, c: Component, dirs: Dirs): Location {
    match c
    case Prefix(name) => Location(Some(name), dirs(Some(name)))
    case RootDir => at.(segments := [])
    case CurDir => at
    case ParentDir => at.(segments := Drop(at.segments))
    case Normal(s) => at.(segments := at.segments + [s])
  }

  function Walk(at: Location, p: seq<Component>, dirs: Dirs): Location {
    if p == [] then at else Enter(Walk(at, p[..|p| - 1], dirs), p[|p| - 1], dirs)
  }

  /** Where a path leads, without following links. */
  function Resolve(p: seq<Component>, dirs: Dirs): Location {
    Walk(Location(None, dirs(None)), p, dirs)
  }

  // ---------------------------------------------------------------------
  // Normalisation
  // ---------------------------------------------------------------------

  datatype Norm = Norm(prefix: Option<string>, absolute: bool, stack: seq<string>)

  const START := Norm(None, false, [])

  function Take(n: Norm, c: Component): Norm {
    match c
    case Prefix(name) => n.(prefix := Some(name))
    case RootDir => n.(absolute := true, stack := [])
    case CurDir => n
    case ParentDir =>
      if n.stack != [] && n.stack[|n.stack| - 1] != ".." then n.(stack := n.stack[..|n.stack| - 1])
      else if !n.absolute then n.(stack := n.stack + [".."])
      else n
    case Normal(s) => n.(stack := n.stack + [s])
  }

  function Fold(p: seq<Component>): Norm {
    if p == [] then START else Take(Fold(p[..|p| - 1]), p[|p| - 1])
  }

  function Part(s: string): Component { if s == ".." then ParentDir else Normal(s) }

  function Parts(stack: seq<string>): seq<Component> {
    seq(|stack|, i requires 0 <= i < |stack| => Part(stack[i]))
  }

  function Head(n: Norm): seq<Component> {
    (if n.prefix.Some? then [Prefix(n.prefix.value)] else []) + (if n.absolute then [RootDir] else [])
  }

  function Rendered(n: Norm): seq<Component> {
    var out := Head(n) + Parts(n.stack);
    if out == [] then [CurDir] else out
  }

  function Normalized(p: seq<Component>): seq<Component> { Rendered(Fold(p)) }

  lemma FoldNext(p: seq<Component>, i: nat)
    requires i < |p|
    ensures Fold(p[..i + 1]) == Take(Fold(p[..i]), p[i])
  {
    assert p[..i + 1][..i] == p[..i];
  }

  method NormalizeLexical(p: seq<Component>) returns (out: seq<Component>)
    ensures out == Normalized(p)
  {
    var prefix: Option<string>, absolute, stack: seq<string> := None, false, [];
    var i := 0;
    while i < |p|
      invariant 0 <= i <= |p|
      invariant Norm(prefix, absolute, stack) == Fold(p[..i])
    {
      FoldNext(p, i);
      match p[i] {
        case Prefix(name) => prefix := Some(name);
        case RootDir =>
          absolute := true;
          stack := [];
        case CurDir =>
        case ParentDir =>
          if stack != [] && stack[|stack| - 1] != ".." {
            stack := stack[..|stack| - 1];
          } else if !absolute {
            stack := stack + [".."];
          }
        case Normal(s) => stack := stack + [s];
      }
      i := i + 1;
    }
    assert p[..i] == p;
    out := [];
    if prefix.Some? { out := out + [Prefix(prefix.value)]; }
    if absolute { out := out + [RootDir]; }
    ghost var head := out;
    assert head == Head(Norm(prefix, absolute, stack));
    var k := 0;
    while k < |stack|
      invariant 0 <= k <= |stack| && out == head + Parts(stack[..k])
    {
      assert Parts(stack[..k + 1]) == Parts(stack[..k]) + [Part(stack[k])];
      out := out + [Part(stack[k])];
      k := k + 1;
    }
    assert stack[..k] == stack;
    if out == [] { out := [CurDir]; }
  }

  // ---------------------------------------------------------------------
  // Shape of the result
  // ---------------------------------------------------------------------

  /** Parent steps only in front, and none at all below a root. */
  predicate StackOk(n: Norm) {
    && (forall i, j :: 0 <= i < j < |n.stack| && n.stack[j] == ".." ==> n.stack[i] == "..")
    && (n.absolute ==> forall i :: 0 <= i < |n.stack| ==> n.stack[i] != "..")
    && (forall i :: 0 <= i < |n.stack| ==> n.stack[i] != "" && n.stack[i] != ".")
  }

  lemma {:induction false} FoldOk(p: seq<Component>)
    requires IsPath(p)
    ensures StackOk(Fold(p))
  {
    if p != [] {
      FoldOk(p[..|p| - 1]);
      TakeOk(Fold(p[..|p| - 1]), p[|p| - 1]);
    }
  }

  lemma TakeOk(n: Norm, c: Component)
    requires StackOk(n)
    requires c.Normal? ==> c.segment != "" && c.segment != "." && c.segment != ".."
    ensures StackOk(Take(n, c))
  {
    if c.ParentDir? && !(n.stack != [] && n.stack[|n.stack| - 1] != "..") && !n.absolute {
      assert forall i :: 0 <= i < |n.stack| ==> n.stack[i] == "..";
    }
  }

  /** What each component of a rendering that is not empty comes from. */
  lemma RenderedAt(n: Norm, i: nat)
    requires Head(n) + Parts(n.stack) != [] && i < |Rendered(n)|
    ensures i < |Head(n)| ==> Rendered(n)[i] == Head(n)[i] && !Rendered(n)[i].Normal? && !Rendered(n)[i].ParentDir?
    ensures i < |Head(n)| ==> !Rendered(n)[i].CurDir? && (Rendered(n)[i].Prefix? ==> i == 0)
    ensures i >= |Head(n)| ==> i - |Head(n)| < |n.stack| && Rendered(n)[i] == Part(n.stack[i - |Head(n)|])
  {
  }

  lemma RenderedIsPath(n: Norm)
    requires StackOk(n)
    ensures IsPath(Rendered(n)) && (CurDir in Rendered(n) ==> Rendered(n) == [CurDir])
  {
    if Head(n) + Parts(n.stack) != [] {
      forall i: nat | i < |Rendered(n)|
        ensures !Rendered(n)[i].CurDir? && (i > 0 ==> !Rendered(n)[i].Prefix?)
        ensures Rendered(n)[i].Normal? ==> Rendered(n)[i].segment !in {"", ".", ".."}
      {
        RenderedAt(n, i);
      }
    }
  }

  lemma RenderedClimbs(n: Norm, i: nat, j: nat)
    requires StackOk(n) && i <= j < |Rendered(n)| && Rendered(n)[j] == ParentDir
    ensures !n.absolute && !Rendered(n)[i].Normal?
  {
    RenderedAt(n, i);
    RenderedAt(n, j);
  }

  lemma {:induction false} FoldAbsolute(p: seq<Component>)
    ensures Fold(p).absolute <==> RootDir in p
  {
    if p != [] {
      FoldAbsolute(p[..|p| - 1]);
      assert p == p[..|p| - 1] + [p[|p| - 1]];
    }
  }

  lemma RenderedRoot(n: Norm)
    ensures RootDir in Rendered(n) <==> n.absolute
  {
    if n.absolute { assert RootDir in Head(n); }
  }

  /** A path stays absolute or relative.  Absolute results climb nowhere;
      relative ones climb first and then only descend; an empty result is the
      current directory. */
  lemma NormalForm(p: seq<Component>)
    requires IsPath(p)
    ensures var out := Normalized(p);
      && IsPath(out)
      && (RootDir in out <==> RootDir in p)
      && (RootDir in out ==> ParentDir !in out)
      && (forall i, j :: 0 <= i < j < |out| && out[j] == ParentDir ==> !out[i].Normal?)
      && (CurDir in out ==> out == [CurDir])
  {
    FoldOk(p);
    var n, out := Fold(p), Normalized(p);
    RenderedIsPath(n);
    FoldAbsolute(p);
    RenderedRoot(n);
    if i :| 0 <= i < |out| && out[i] == ParentDir { RenderedClimbs(n, i, i); }
    forall i, j | 0 <= i < j < |out| && out[j] == ParentDir ensures !out[i].Normal? {
      RenderedClimbs(n, i, j);
    }
  }

  // ---------------------------------------------------------------------
  // Meaning is kept
  // ---------------------------------------------------------------------

  lemma {:induction false} WalkConcat(at: Location, p: seq<Component>, q: seq<Component>, dirs: Dirs)
    ensures Walk(at, p + q, dirs) == Walk(Walk(at, p, dirs), q, dirs)
  {
    if q == [] {
      assert p + q == p;
    } else {
      assert (p + q)[..|p + q| - 1] == p + q[..|q| - 1];
      WalkConcat(at, p, q[..|q| - 1], dirs);
    }
  }

  lemma WalkOne(at: Location, c: Component, dirs: Dirs)
    ensures Walk(at, [c], dirs) == Enter(at, c, dirs)
  {
    assert [c][..0] == [];
  }

  lemma PartsSnoc(stack: seq<string>, s: string)
    ensures Parts(stack + [s]) == Parts(stack) + [Part(s)]
  {
  }

  /** The place a normalisation state stands for. */
  function Place(n: Norm, dirs: Dirs): Location {
    var start := if n.absolute then [] else dirs(n.prefix);
    Walk(Location(n.prefix, start), Parts(n.stack), dirs)
  }

  lemma PlacePush(n: Norm, s: string, dirs: Dirs)
    ensures Place(n.(stack := n.stack + [s]), dirs) == Enter(Place(n, dirs), Part(s), dirs)
  {
    var start := Location(n.prefix, if n.absolute then [] else dirs(n.prefix));
    PartsSnoc(n.stack, s);
    WalkConcat(start, Parts(n.stack), [Part(s)], dirs);
    WalkOne(Walk(start, Parts(n.stack), dirs), Part(s), dirs);
  }

  lemma PlaceTake(n: Norm, c: Component, dirs: Dirs)
    requires StackOk(n) && !c.Prefix? && (c.Normal? ==> c.segment != "..")
    ensures Place(Take(n, c), dirs) == Enter(Place(n, dirs), c, dirs)
  {
    match c
    case RootDir =>
      WalkDrive(Location(n.prefix, if n.absolute then [] else dirs(n.prefix)), n.stack, dirs);
    case CurDir =>
    case Normal(s) => PlacePush(n, s, dirs);
    case ParentDir =>
      var k := |n.stack|;
      if k > 0 && n.stack[k - 1] != ".." {
        var below := n.(stack := n.stack[..k - 1]);
        assert n.stack == below.stack + [n.stack[k - 1]];
        PlacePush(below, n.stack[k - 1], dirs);
      } else if !n.absolute {
        PlacePush(n, "..", dirs);
      } else {
        assert n.stack == [];
      }
  }

  lemma {:induction false} WalkDrive(at: Location, stack: seq<string>, dirs: Dirs)
    ensures Walk(at, Parts(stack), dirs).drive == at.drive
  {
    if stack != [] {
      var n := |stack| - 1;
      assert Parts(stack)[..n] == Parts(stack[..n]);
      WalkDrive(at, stack[..n], dirs);
    }
  }

  lemma {:induction false} FoldPlace(p: seq<Component>, dirs: Dirs)
    requires IsPath(p)
    ensures Place(Fold(p), dirs) == Resolve(p, dirs)
  {
    if p != [] {
      var n := |p| - 1;
      FoldPlace(p[..n], dirs);
      FoldOk(p[..n]);
      if p[n].Prefix? {
        assert p[..n] == [];
      } else {
        PlaceTake(Fold(p[..n]), p[n], dirs);
      }
    }
  }

  lemma RenderedPlace(n: Norm, dirs: Dirs)
    ensures Resolve(Rendered(n), dirs) == Place(n, dirs)
  {
    var at, head, parts := Location(None, dirs(None)), Head(n), Parts(n.stack);
    WalkConcat(at, head, parts, dirs);
    if n.prefix.Some? {
      var pre := [Prefix(n.prefix.value)];
      WalkOne(at, pre[0], dirs);
      if n.absolute {
        WalkConcat(at, pre, [RootDir], dirs);
        WalkOne(Walk(at, pre, dirs), RootDir, dirs);
      }
    } else if n.absolute {
      WalkOne(at, RootDir, dirs);
    }
    if head + parts == [] { WalkOne(at, CurDir, dirs); }
  }

  /** A path and its normal form lead to the same place from everywhere. */
  lemma MeaningKept(p: seq<Component>, dirs: Dirs)
    requires IsPath(p)
    ensures Resolve(Normalized(p), dirs) == Resolve(p, dirs)
  {
    FoldPlace(p, dirs);
    RenderedPlace(Fold(p), dirs);
  }

  // ---------------------------------------------------------------------
  // Idempotence
  // ---------------------------------------------------------------------

  lemma {:induction false} FoldParts(head: seq<Component>, n: Norm)
    requires StackOk(n) && Fold(head) == n.(stack := [])
    ensures Fold(head + Parts(n.stack)) == n
    decreases |n.stack|
  {
    if n.stack == [] {
      assert head + Parts(n.stack) == head;
    } else {
      var k := |n.stack|;
      var below, s := n.(stack := n.stack[..k - 1]), n.stack[k - 1];
      FoldParts(head, below);
      assert n.stack == below.stack + [s];
      PartsSnoc(below.stack, s);
      FoldSnoc(head, Parts(below.stack), Part(s));
      TakePart(n);
    }
  }

  lemma FoldSnoc(head: seq<Component>, parts: seq<Component>, c: Component)
    ensures Fold(head + (parts + [c])) == Take(Fold(head + parts), c)
  {
    var p := head + (parts + [c]);
    assert p[..|p| - 1] == head + parts && p[|p| - 1] == c;
  }

  /** Reading back the next segment of a normal stack puts it back. */
  lemma TakePart(n: Norm)
    requires StackOk(n) && n.stack != []
    ensures var k := |n.stack|; Take(n.(stack := n.stack[..k - 1]), Part(n.stack[k - 1])) == n
  {
    var k := |n.stack|;
    assert n.stack == n.stack[..k - 1] + [n.stack[k - 1]];
    if n.stack[k - 1] == ".." && k > 1 { assert n.stack[k - 2] == ".."; }
  }

  lemma FoldHead(n: Norm)
    ensures Fold(Head(n)) == n.(stack := [])
  {
    var h := Head(n);
    if n.prefix.Some? && n.absolute {
      assert h[..1] == [Prefix(n.prefix.value)] && h[..1][..0] == [];
    } else if h != [] {
      assert h[..0] == [];
    }
  }

  lemma NormalizedTwice(p: seq<Component>)
    requires IsPath(p)
    ensures Normalized(Normalized(p)) == Normalized(p)
  {
    FoldOk(p);
    var n := Fold(p);
    FoldHead(n);
    FoldParts(Head(n), n);
    if Head(n) + Parts(n.stack) == [] { assert [CurDir][..0] == []; }
  }

  // ---------------------------------------------------------------------
  // Normal forms are canonical
  // ---------------------------------------------------------------------

  /** Number of leading parent steps. */
  function Climbs(stack: seq<string>): (k: nat)
    ensures k <= |stack|
  {
    if stack == [] || stack[0] != ".." then 0 else 1 + Climbs(stack[1..])
  }

  lemma {:induction false} ClimbsSplit(n: Norm)
    requires StackOk(n)
    ensures forall i :: 0 <= i < |n.stack| ==> (n.stack[i] == ".." <==> i < Climbs(n.stack))
    decreases |n.stack|
  {
    if n.stack != [] && n.stack[0] == ".." {
      var rest := n.(stack := n.stack[1..]);
      ClimbsSplit(rest);
      assert forall i :: 0 < i < |n.stack| ==> n.stack[i] == rest.stack[i - 1];
    }
  }

  /** Climbing off a long enough base and then descending. */
  lemma {:induction false} WalkParts(at: Location, stack: seq<string>, k: nat, dirs: Dirs)
    requires k <= |stack| && k <= |at.segments|
    requires forall i :: 0 <= i < |stack| ==> (stack[i] == ".." <==> i < k)
    ensures Walk(at, Parts(stack), dirs) == at.(segments := at.segments[..|at.segments| - k] + stack[k..])
    decreases |stack|
  {
    if stack == [] {
      assert at.segments[..|at.segments|] + [] == at.segments;
    } else {
      var n := |stack| - 1;
      var below := stack[..n];
      assert stack == below + [stack[n]];
      PartsSnoc(below, stack[n]);
      WalkConcat(at, Parts(below), [Part(stack[n])], dirs);
      WalkOne(Walk(at, Parts(below), dirs), Part(stack[n]), dirs);
      if k == |stack| {
        WalkParts(at, below, k - 1, dirs);
        var m := |at.segments|;
        assert below[k - 1..] == [] && stack[k..] == [];
        assert at.segments[..m - k + 1] + [] == at.segments[..m - k + 1];
        assert Drop(at.segments[..m - k + 1]) == at.segments[..m - k] + [];
      } else {
        WalkParts(at, below, k, dirs);
        assert stack[k..] == below[k..] + [stack[n]];
        Assoc(at.segments[..|at.segments| - k], below[k..], [stack[n]]);
      }
    }
  }

  function Base(marker: string, size: nat): seq<string> { seq(size, i => marker) }

  function DeepDirs(marker: string, size: nat): Dirs { (drive: Option<string>) => Base(marker, size) }

  lemma AbsolutePlace(n: Norm, dirs: Dirs)
    requires StackOk(n) && n.absolute
    ensures Place(n, dirs) == Location(n.prefix, n.stack)
  {
    WalkParts(Location(n.prefix, []), n.stack, 0, dirs);
    assert n.stack[0..] == n.stack && [] + n.stack == n.stack;
  }

  /** What a relative state means when every current directory is `size` markers deep. */
  lemma RelativePlace(n: Norm, marker: string, size: nat)
    requires StackOk(n) && !n.absolute && size > |n.stack|
    ensures Place(n, DeepDirs(marker, size))
         == Location(n.prefix, Base(marker, size - Climbs(n.stack)) + n.stack[Climbs(n.stack)..])
  {
    ClimbsSplit(n);
    var k := Climbs(n.stack);
    WalkParts(Location(n.prefix, Base(marker, size)), n.stack, k, DeepDirs(marker, size));
    assert Base(marker, size)[..size - k] == Base(marker, size - k);
  }

  lemma MarkersDiffer(marker: string, a: nat, b: nat, x: seq<string>, y: seq<string>)
    requires a < b && marker !in x
    ensures Base(marker, a) + x != Base(marker, b) + y
  {
    var l, r := Base(marker, a) + x, Base(marker, b) + y;
    if |x| > 0 {
      assert l[a] == x[0] && x[0] in x;
      assert r[a] == marker;
    }
  }

  /** Counting the markers in front tells the parts of the sum apart. */
  lemma MarkersTell(marker: string, a: nat, b: nat, x: seq<string>, y: seq<string>)
    requires marker !in x && marker !in y && Base(marker, a) + x == Base(marker, b) + y
    ensures a == b && x == y
  {
    if a < b { MarkersDiffer(marker, a, b, x, y); }
    if b < a { MarkersDiffer(marker, b, a, y, x); }
    assert (Base(marker, a) + x)[a..] == x && (Base(marker, b) + y)[b..] == y;
  }

  function Longer(stack: seq<string>): (n: nat)
    ensures forall i :: 0 <= i < |stack| ==> |stack[i]| < n
  {
    if stack == [] then 1
    else
      var m := Longer(stack[1..]);
      if |stack[0]| < m then m else |stack[0]| + 1
  }

  /** Different normal states differ from some choice of directories. */
  lemma StatesTellApart(n: Norm, m: Norm) returns (dirs: Dirs)
    requires StackOk(n) && StackOk(m)
    ensures Place(n, dirs) == Place(m, dirs) ==> n == m
  {
    var size := |n.stack| + |m.stack| + 1;
    var marker := seq(Longer(n.stack) + Longer(m.stack), i => 'x');
    dirs := DeepDirs(marker, size);
    assert marker !in n.stack && marker !in m.stack;
    if n.absolute && m.absolute {
      AbsolutePlace(n, dirs);
      AbsolutePlace(m, dirs);
    } else if n.absolute {
      RootedApart(n, m, marker, size);
    } else if m.absolute {
      RootedApart(m, n, marker, size);
    } else {
      RelativeApart(n, m, marker, size);
    }
  }

  lemma RootedApart(n: Norm, m: Norm, marker: string, size: nat)
    requires StackOk(n) && StackOk(m) && n.absolute && !m.absolute && size > |m.stack| && marker !in n.stack
    ensures Place(n, DeepDirs(marker, size)) != Place(m, DeepDirs(marker, size))
  {
    AbsolutePlace(n, DeepDirs(marker, size));
    RelativePlace(m, marker, size);
    var segments := Place(m, DeepDirs(marker, size)).segments;
    assert segments[0] == marker;
    assert marker in segments;
  }

  lemma RelativeApart(n: Norm, m: Norm, marker: string, size: nat)
    requires StackOk(n) && StackOk(m) && !n.absolute && !m.absolute && size > |n.stack| && size > |m.stack|
    requires marker !in n.stack && marker !in m.stack
    ensures Place(n, DeepDirs(marker, size)) == Place(m, DeepDirs(marker, size)) ==> n == m
  {
    RelativePlace(n, marker, size);
    RelativePlace(m, marker, size);
    var j, k := Climbs(n.stack), Climbs(m.stack);
    if Place(n, DeepDirs(marker, size)) == Place(m, DeepDirs(marker, size)) {
      MarkersTell(marker, size - j, size - k, n.stack[j..], m.stack[k..]);
      ClimbsSplit(n);
      ClimbsSplit(m);
      SameStack(n.stack, m.stack, j);
    }
  }

  lemma SameStack(x: seq<string>, y: seq<string>, k: nat)
    requires k <= |x| && k <= |y| && x[k..] == y[k..]
    requires forall i :: 0 <= i < k ==> x[i] == ".." && y[i] == ".."
    ensures x == y
  {
    assert x == x[..k] + x[k..] && y == y[..k] + y[k..];
    assert x[..k] == y[..k];
  }

  /** Two paths have the same normal form exactly when they lead to the same
      place from everywhere. */
  lemma FormsAreCanonical(p: seq<Component>, q: seq<Component>)
    requires IsPath(p) && IsPath(q)
    ensures Normalized(p) == Normalized(q) <==> forall dirs: Dirs :: Resolve(p, dirs) == Resolve(q, dirs)
  {
    FoldOk(p);
    FoldOk(q);
    if Normalized(p) == Normalized(q) {
      forall dirs: Dirs ensures Resolve(p, dirs) == Resolve(q, dirs) {
        MeaningKept(p, dirs);
        MeaningKept(q, dirs);
      }
    }
    if forall dirs: Dirs :: Resolve(p, dirs) == Resolve(q, dirs) {
      var dirs := StatesTellApart(Fold(p), Fold(q));
      FoldPlace(p, dirs);
      FoldPlace(q, dirs);
      assert Resolve(p, dirs) == Resolve(q, dirs);
    }
  }
}
