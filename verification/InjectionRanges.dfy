/** Ranges of an injected layer (crates/tree_house/src/injections_query.rs,
`intersect_ranges` and `intersect_ranges_impl`): the part of a node that lies
in the parent layer's ranges and outside the excluded children, found in one
sweep over the sorted lists. */
module InjectionRanges {

  datatype Range = Range(start: nat, end: nat)

  datatype Child = Child(range: Range, named: bool)

  datatype IncludedChildren = NoChildren | AllChildren | UnnamedChildren

  predicate In(r: Range, x: nat) { r.start <= x < r.end }

  predicate InSome(rs: seq<Range>, x: nat) {
    exists i :: 0 <= i < |rs| && In(rs[i], x)
  }

  /** Non-empty ranges with something between any two of them. */
  predicate Gapped(rs: seq<Range>) {
    && (forall i :: 0 <= i < |rs| ==> rs[i].start < rs[i].end)
    && (forall i, j :: 0 <= i < j < |rs| ==> rs[i].end < rs[j].start)
  }

  /** Sorted and disjoint; ranges may touch. */
  predicate Ordered(rs: seq<Range>) {
    && (forall i :: 0 <= i < |rs| ==> rs[i].start <= rs[i].end)
    && (forall i, j :: 0 <= i < j < |rs| ==> rs[i].end <= rs[j].start)
  }

  predicate AllNonEmpty(rs: seq<Range>) {
    forall i :: 0 <= i < |rs| ==> rs[i].start < rs[i].end
  }

  predicate Within(inner: Range, outer: Range) {
    outer.start <= inner.start && inner.end <= outer.end
  }

  /** Each range lies in the node and inside one parent range. */
  predicate Placed(excluded: seq<Range>, node: Range, parents: seq<Range>) {
    forall i :: 0 <= i < |excluded| ==> Within(excluded[i], node) && InOne(excluded[i], parents)
  }

  predicate InOne(r: Range, parents: seq<Range>) {
    exists k :: 0 <= k < |parents| && Within(r, parents[k])
  }

  /** The node does not end strictly between two parent ranges. */
  predicate EndsOutsideGaps(end: nat, parents: seq<Range>) {
    forall k :: 0 < k < |parents| ==> end <= parents[k - 1].end || parents[k].start <= end
  }

  predicate Wanted(node: Range, excluded: seq<Range>, parents: seq<Range>, x: nat) {
    In(node, x) && InSome(parents, x) && !InSome(excluded, x)
  }

  /** Exactly the wanted positions below `to`, as sorted non-empty ranges. */
  ghost predicate Swept(out: seq<Range>, node: Range, excluded: seq<Range>, parents: seq<Range>, to: nat) {
    && Ordered(out) && AllNonEmpty(out)
    && (forall i :: 0 <= i < |out| ==> out[i].end <= to)
    && (forall x: nat :: InSome(out, x) <==> x < to && Wanted(node, excluded, parents, x))
  }

  lemma InSomeConcat(rs: seq<Range>, r: Range, x: nat)
    ensures InSome(rs + [r], x) <==> InSome(rs, x) || In(r, x)
  {
    var all := rs + [r];
    if i :| 0 <= i < |rs| && In(rs[i], x) { assert In(all[i], x); }
    if In(r, x) { assert In(all[|rs|], x); }
  }

  /** Moving the sweep over positions that are all wanted. */
  lemma SweepWanted(out: seq<Range>, node: Range, excluded: seq<Range>, parents: seq<Range>, from: nat, to: nat)
    requires Swept(out, node, excluded, parents, from) && from <= to
    requires forall x: nat :: from <= x < to ==> Wanted(node, excluded, parents, x)
    ensures Swept(if from == to then out else out + [Range(from, to)], node, excluded, parents, to)
  {
    if from != to {
      var r := Range(from, to);
      forall x: nat ensures InSome(out + [r], x) <==> x < to && Wanted(node, excluded, parents, x) {
        InSomeConcat(out, r, x);
      }
    }
  }

  /** Moving it over positions of which none is wanted. */
  lemma SweepUnwanted(out: seq<Range>, node: Range, excluded: seq<Range>, parents: seq<Range>, from: nat, to: nat)
    requires Swept(out, node, excluded, parents, from) && from <= to
    requires forall x: nat :: from <= x < to ==> !Wanted(node, excluded, parents, x)
    ensures Swept(out, node, excluded, parents, to)
  {
  }

  /** Where the sweep stands: inside parent `k`, past the first `j` excluded
      ranges, with nothing between `start` and the next one. */
  ghost predicate Standing(node: Range, excluded: seq<Range>, parents: seq<Range>, start: nat, j: nat, k: nat) {
    && k < |parents| && j <= |excluded|
    && node.start <= start <= node.end && parents[k].start <= start <= parents[k].end
    && (forall i :: 0 <= i < j ==> excluded[i].end <= start)
    && (forall i :: j <= i < |excluded| ==> start <= excluded[i].start)
  }

  ghost predicate Inputs(node: Range, excluded: seq<Range>, parents: seq<Range>) {
    && Ordered(excluded) && AllNonEmpty(excluded) && Gapped(parents)
    && Placed(excluded, node, parents) && EndsOutsideGaps(node.end, parents)
  }

  /** An excluded range that starts in reach lies in the current parent. */
  lemma NextIsHere(node: Range, excluded: seq<Range>, parents: seq<Range>, start: nat, j: nat, k: nat)
    requires Inputs(node, excluded, parents) && Standing(node, excluded, parents, start, j, k)
    requires j < |excluded| && excluded[j].start <= parents[k].end
    ensures Within(excluded[j], parents[k]) && excluded[j].start < node.end
  {
    assert Within(excluded[j], node) && InOne(excluded[j], parents);
    var m :| 0 <= m < |parents| && Within(excluded[j], parents[m]);
    GapBetween(parents, m, k);
  }

  lemma GapBetween(parents: seq<Range>, m: nat, k: nat)
    requires Gapped(parents) && m < |parents| && k < |parents|
    ensures m < k ==> parents[m].start < parents[m].end < parents[k].start
    ensures k < m ==> parents[k].start < parents[k].end < parents[m].start
  {
  }

  lemma WantedBefore(node: Range, excluded: seq<Range>, parents: seq<Range>, start: nat, j: nat, k: nat, to: nat)
    requires Standing(node, excluded, parents, start, j, k)
    requires Ordered(excluded) && to <= parents[k].end && to <= node.end && (j < |excluded| ==> to <= excluded[j].start)
    ensures forall x: nat :: start <= x < to ==> Wanted(node, excluded, parents, x)
  {
    forall x: nat | start <= x < to ensures Wanted(node, excluded, parents, x) {
      assert In(parents[k], x);
    }
  }

  lemma UnwantedInside(node: Range, excluded: seq<Range>, parents: seq<Range>, j: nat)
    requires j < |excluded|
    ensures forall x: nat :: excluded[j].start <= x < excluded[j].end ==> !Wanted(node, excluded, parents, x)
  {
    forall x: nat | excluded[j].start <= x < excluded[j].end ensures !Wanted(node, excluded, parents, x) {
      assert In(excluded[j], x);
    }
  }

  lemma UnwantedInGap(node: Range, excluded: seq<Range>, parents: seq<Range>, k: nat, to: nat)
    requires Gapped(parents) && k < |parents| && (k + 1 < |parents| ==> to <= parents[k + 1].start)
    ensures forall x: nat :: parents[k].end <= x < to ==> !Wanted(node, excluded, parents, x)
  {
    forall x: nat | parents[k].end <= x < to ensures !Wanted(node, excluded, parents, x) {
      forall i | 0 <= i < |parents| ensures !In(parents[i], x) {
        GapBetween(parents, i, k);
        if k + 1 < |parents| { GapBetween(parents, i, k + 1); }
      }
    }
  }

  lemma NextSitsLater(node: Range, excluded: seq<Range>, parents: seq<Range>, start: nat, j: nat, k: nat)
    requires Inputs(node, excluded, parents) && Standing(node, excluded, parents, start, j, k)
    requires j < |excluded| ==> excluded[j].start > parents[k].end
    requires k + 1 < |parents| && parents[k].end < node.end
    ensures Standing(node, excluded, parents, parents[k + 1].start, j, k + 1)
  {
    assert parents[k].end < parents[k + 1].start;
    assert EndsOutsideGaps(node.end, parents);
    forall i | j <= i < |excluded| ensures parents[k + 1].start <= excluded[i].start {
      assert Within(excluded[i], node) && InOne(excluded[i], parents);
      var m :| 0 <= m < |parents| && Within(excluded[i], parents[m]);
      assert j < i ==> excluded[j].end <= excluded[i].start;
      GapBetween(parents, m, k);
      GapBetween(parents, m, k + 1);
    }
  }

  /** The sweep. */
  method IntersectRangesImpl(node: Range, excluded: seq<Range>, parents: seq<Range>) returns (out: seq<Range>)
    requires Inputs(node, excluded, parents) && node.start <= node.end
    requires parents != [] && In(parents[0], node.start)
    ensures Swept(out, node, excluded, parents, node.end)
  {
    out := [];
    var start: nat, j, k := node.start, 0, 0;
    while true
      invariant 0 <= j && 0 <= k && Standing(node, excluded, parents, start, j, k)
      invariant Swept(out, node, excluded, parents, start)
      decreases |excluded| - j + |parents| - k
    {
      var parent := parents[k];
      if j < |excluded| && excluded[j].start <= parent.end {
        var e := excluded[j];
        if e.start >= node.end { break; }
        NextIsHere(node, excluded, parents, start, j, k);
        WantedBefore(node, excluded, parents, start, j, k, e.start);
        SweepWanted(out, node, excluded, parents, start, e.start);
        if start != e.start {
          out := out + [Range(start, e.start)];
        }
        UnwantedInside(node, excluded, parents, j);
        SweepUnwanted(out, node, excluded, parents, e.start, e.end);
        start, j := e.end, j + 1;
      } else {
        if parent.end >= node.end {
          WantedBefore(node, excluded, parents, start, j, k, node.end);
          SweepWanted(out, node, excluded, parents, start, node.end);
          break;
        }
        WantedBefore(node, excluded, parents, start, j, k, parent.end);
        SweepWanted(out, node, excluded, parents, start, parent.end);
        if start != parent.end {
          out := out + [Range(start, parent.end)];
        }
        if k + 1 == |parents| {
          UnwantedInGap(node, excluded, parents, k, node.end);
          SweepUnwanted(out, node, excluded, parents, parent.end, node.end);
          return;
        }
        NextSitsLater(node, excluded, parents, start, j, k);
        UnwantedInGap(node, excluded, parents, k, parents[k + 1].start);
        SweepUnwanted(out, node, excluded, parents, parent.end, parents[k + 1].start);
        start, k := parents[k + 1].start, k + 1;
      }
    }
    if start != node.end {
      out := out + [Range(start, node.end)];
    }
  }

  // ---------------------------------------------------------------------
  // Choosing the children and the parent ranges
  // ---------------------------------------------------------------------

  predicate Excludes(included: IncludedChildren, c: Child) {
    match included
    case NoChildren => true
    case AllChildren => false
    case UnnamedChildren => c.named
  }

  /** The non-empty ranges of the excluded children, in order. */
  function ExcludedRanges(included: IncludedChildren, children: seq<Child>): seq<Range> {
    if children == [] then []
    else
      var rest := ExcludedRanges(included, children[1..]);
      var c := children[0];
      if Excludes(included, c) && c.range.start < c.range.end then [c.range] + rest else rest
  }

  predicate InExcluded(included: IncludedChildren, children: seq<Child>, x: nat) {
    exists i :: 0 <= i < |children| && Excludes(included, children[i]) && In(children[i].range, x)
  }

  /** The three modes: nothing of a child is kept, all of it is, or only that of
      unnamed children. */
  lemma ModesExclude(children: seq<Child>, x: nat)
    ensures InExcluded(NoChildren, children, x) <==>
      exists i :: 0 <= i < |children| && In(children[i].range, x)
    ensures !InExcluded(AllChildren, children, x)
    ensures InExcluded(UnnamedChildren, children, x) <==>
      exists i :: 0 <= i < |children| && In(children[i].range, x) && children[i].named
  {
    if i :| 0 <= i < |children| && In(children[i].range, x) {
      assert Excludes(NoChildren, children[i]) && In(children[i].range, x);
    }
    if i :| 0 <= i < |children| && In(children[i].range, x) && children[i].named {
      assert Excludes(UnnamedChildren, children[i]) && In(children[i].range, x);
    }
  }

  predicate ChildrenOrdered(children: seq<Child>) {
    && (forall i :: 0 <= i < |children| ==> children[i].range.start <= children[i].range.end)
    && (forall i, j :: 0 <= i < j < |children| ==> children[i].range.end <= children[j].range.start)
  }

  predicate ChildPlaced(c: Child, node: Range, parents: seq<Range>) {
    Within(c.range, node) && InOne(c.range, parents)
  }

  lemma {:induction false} ExcludedRangesOk(included: IncludedChildren, children: seq<Child>,
          node: Range, parents: seq<Range>)
    requires ChildrenOrdered(children)
    requires forall i :: 0 <= i < |children| && children[i].range.start < children[i].range.end ==>
      ChildPlaced(children[i], node, parents)
    ensures var ex := ExcludedRanges(included, children);
      && Ordered(ex) && AllNonEmpty(ex) && Placed(ex, node, parents)
      && (forall i :: 0 <= i < |ex| ==> children != [] && children[0].range.start <= ex[i].start)
      && (forall x: nat :: InSome(ex, x) <==> InExcluded(included, children, x))
  {
    if children != [] {
      var c, ex, rest := children[0], ExcludedRanges(included, children), ExcludedRanges(included, children[1..]);
      ExcludedRangesOk(included, children[1..], node, parents);
      forall i | 0 <= i < |rest| ensures c.range.end <= rest[i].start {
        assert children[1..][0] == children[1];
      }
      if ex != rest {
        assert ChildPlaced(c, node, parents);
      }
      forall x: nat ensures InSome(ex, x) <==> InExcluded(included, children, x) {
        ExcludedPoint(included, children, x);
      }
    }
  }

  lemma ExcludedPoint(included: IncludedChildren, children: seq<Child>, x: nat)
    requires children != []
    requires InSome(ExcludedRanges(included, children[1..]), x) <==> InExcluded(included, children[1..], x)
    ensures InSome(ExcludedRanges(included, children), x) <==> InExcluded(included, children, x)
  {
    var c, ex, rest := children[0], ExcludedRanges(included, children), ExcludedRanges(included, children[1..]);
    if InSome(ex, x) {
      var i :| 0 <= i < |ex| && In(ex[i], x);
      if ex != rest && i == 0 {
        assert In(children[0].range, x);
      } else {
        assert In(rest[if ex == rest then i else i - 1], x);
        var k :| 0 <= k < |children[1..]| && Excludes(included, children[1..][k]) && In(children[1..][k].range, x);
        assert children[k + 1] == children[1..][k];
      }
    }
    if InExcluded(included, children, x) {
      var i :| 0 <= i < |children| && Excludes(included, children[i]) && In(children[i].range, x);
      if i == 0 {
        assert In(ex[0], x);
      } else {
        assert children[1..][i - 1] == children[i];
        var k :| 0 <= k < |rest| && In(rest[k], x);
        assert In(ex[if ex == rest then k else k + 1], x);
      }
    }
  }

  /** Index of the first parent range that ends after `pos`. */
  function FirstEndingAfter(parents: seq<Range>, pos: nat): (i: nat)
    ensures i <= |parents|
    ensures forall k :: 0 <= k < i ==> parents[k].end <= pos
    ensures i < |parents| ==> parents[i].end > pos
  {
    if parents == [] || parents[0].end > pos then 0 else 1 + FirstEndingAfter(parents[1..], pos)
  }

  lemma SuffixPlaced(parents: seq<Range>, i: nat, node: Range, excluded: seq<Range>)
    requires Placed(excluded, node, parents) && AllNonEmpty(excluded) && i <= |parents|
    requires forall k :: 0 <= k < i ==> parents[k].end <= node.start
    ensures Placed(excluded, node, parents[i..])
  {
    forall e | 0 <= e < |excluded| ensures Within(excluded[e], node) && InOne(excluded[e], parents[i..]) {
      assert InOne(excluded[e], parents);
      var m :| 0 <= m < |parents| && Within(excluded[e], parents[m]);
      assert m >= i && parents[i..][m - i] == parents[m];
    }
  }

  lemma SuffixWanted(parents: seq<Range>, i: nat, node: Range, excluded: seq<Range>, x: nat)
    requires i <= |parents| && forall k :: 0 <= k < i ==> parents[k].end <= node.start
    ensures Wanted(node, excluded, parents[i..], x) <==> Wanted(node, excluded, parents, x)
  {
    var rest := parents[i..];
    if In(node, x) && InSome(parents, x) {
      var m :| 0 <= m < |parents| && In(parents[m], x);
      assert rest[m - i] == parents[m];
    }
    if InSome(rest, x) {
      var m :| 0 <= m < |rest| && In(rest[m], x);
      assert parents[m + i] == rest[m];
    }
  }

  lemma SuffixGapped(parents: seq<Range>, i: nat, end: nat)
    requires Gapped(parents) && EndsOutsideGaps(end, parents) && i <= |parents|
    ensures Gapped(parents[i..]) && EndsOutsideGaps(end, parents[i..])
  {
    var rest := parents[i..];
    forall k | 0 < k < |rest| ensures end <= rest[k - 1].end || rest[k].start <= end {
      assert rest[k - 1] == parents[i + k - 1] && rest[k] == parents[i + k];
    }
  }

  lemma SuffixFits(parents: seq<Range>, i: nat, node: Range, excluded: seq<Range>)
    requires Gapped(parents) && EndsOutsideGaps(node.end, parents) && Placed(excluded, node, parents)
    requires AllNonEmpty(excluded) && i < |parents| && forall k :: 0 <= k < i ==> parents[k].end <= node.start
    ensures Gapped(parents[i..]) && EndsOutsideGaps(node.end, parents[i..]) && Placed(excluded, node, parents[i..])
    ensures forall x: nat :: Wanted(node, excluded, parents[i..], x) <==> Wanted(node, excluded, parents, x)
  {
    SuffixGapped(parents, i, node.end);
    SuffixPlaced(parents, i, node, excluded);
    forall x: nat ensures Wanted(node, excluded, parents[i..], x) <==> Wanted(node, excluded, parents, x) {
      SuffixWanted(parents, i, node, excluded, x);
    }
  }

  /** The pushed ranges are sorted, non-empty and disjoint, and together they
      are the node, cut down to the parent ranges, without the excluded
      children. */
  method IntersectRanges(included: IncludedChildren, node: Range, children: seq<Child>, parents: seq<Range>)
    returns (out: seq<Range>)
    requires node.start <= node.end && InSome(parents, node.start)
    requires Gapped(parents) && EndsOutsideGaps(node.end, parents) && ChildrenOrdered(children)
    requires forall i :: 0 <= i < |children| && children[i].range.start < children[i].range.end ==>
      ChildPlaced(children[i], node, parents)
    ensures Ordered(out) && AllNonEmpty(out)
    ensures forall x: nat :: InSome(out, x) <==>
      In(node, x) && InSome(parents, x) && !InExcluded(included, children, x)
  {
    var i := FirstEndingAfter(parents, node.start);
    var excluded := ExcludedRanges(included, children);
    ExcludedRangesOk(included, children, node, parents);
    assert i < |parents| && In(parents[i], node.start) by {
      var m :| 0 <= m < |parents| && In(parents[m], node.start);
      if i < |parents| { GapBetween(parents, m, i); }
    }
    SuffixFits(parents, i, node, excluded);
    out := IntersectRangesImpl(node, excluded, parents[i..]);
    forall x: nat ensures InSome(out, x) <==>
      In(node, x) && InSome(parents, x) && !InExcluded(included, children, x)
    {
      assert InSome(out, x) <==> x < node.end && Wanted(node, excluded, parents[i..], x);
    }
  }
}
