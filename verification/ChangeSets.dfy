/** Operational-transform changesets (crates/primitives/src/transaction).

A changeset is a list of retain, delete and insert operations read from left
to right over a document.  The meaning of a list of operations is `Out`: the
text it produces from the exact stretch of document it consumes.  The loops of
the source are methods here, each proved against that meaning.
 */
module ChangeSets {
  import opened Prelude

  datatype Operation =
    | Retain(n: nat)
    | Delete(n: nat)
    | Insert(text: string)

  datatype Bias = Left | Right

  /** `len` and `lenAfter` are the cached input and output lengths. */
  datatype ChangeSet = ChangeSet(changes: seq<Operation>, len: nat, lenAfter: nat)

  const EMPTY := ChangeSet([], 0, 0)

  // ---------------------------------------------------------------------
  // Meaning
  // ---------------------------------------------------------------------

  function InSize(op: Operation): nat {
    match op
    case Retain(n) => n
    case Delete(n) => n
    case Insert(_) => 0
  }

  function OutSize(op: Operation): nat {
    match op
    case Retain(n) => n
    case Delete(_) => 0
    case Insert(t) => |t|
  }

  /** Number of source characters the operations read. */
  function InLen(ops: seq<Operation>): nat {
    if ops == [] then 0 else InSize(ops[0]) + InLen(ops[1..])
  }

  /** Number of characters the operations produce. */
  function OutLen(ops: seq<Operation>): nat {
    if ops == [] then 0 else OutSize(ops[0]) + OutLen(ops[1..])
  }

  function OutOf(op: Operation, s: string): string
    requires |s| == InSize(op)
  {
    match op
    case Retain(_) => s
    case Delete(_) => []
    case Insert(t) => t
  }

  /** The text produced from `s`, the stretch of document the operations read. */
  function Out(ops: seq<Operation>, s: string): (r: string)
    requires |s| == InLen(ops)
    ensures |r| == OutLen(ops)
  {
    if ops == [] then []
    else
      var k := InSize(ops[0]);
      OutOf(ops[0], s[..k]) + Out(ops[1..], s[k..])
  }

  /** What the source's builder keeps: nothing has length zero, neighbours of
      the same kind are merged, and no insertion directly follows a deletion. */
  predicate Canonical(ops: seq<Operation>) {
    && (forall i :: 0 <= i < |ops| ==> InSize(ops[i]) + OutSize(ops[i]) > 0)
    && (forall i :: 0 < i < |ops| ==> Follows(ops[i - 1], ops[i]))
  }

  predicate Follows(before: Operation, after: Operation) {
    match after
    case Retain(_) => !before.Retain?
    case Delete(_) => !before.Delete?
    case Insert(_) => before.Retain?
  }

  /** The invariant of a changeset: canonical operations and exact caches. */
  predicate Valid(c: ChangeSet) {
    Canonical(c.changes) && c.len == InLen(c.changes) && c.lenAfter == OutLen(c.changes)
  }

  /** The document after the operations; text beyond the last one stays. */
  function AppliedOps(ops: seq<Operation>, doc: string): string
    requires InLen(ops) <= |doc|
  {
    Out(ops, doc[..InLen(ops)]) + doc[InLen(ops)..]
  }

  function Applied(c: ChangeSet, doc: string): string
    requires InLen(c.changes) <= |doc|
  {
    AppliedOps(c.changes, doc)
  }

  // ---------------------------------------------------------------------
  // Concatenation laws
  // ---------------------------------------------------------------------

  lemma {:induction false} LenConcat(a: seq<Operation>, b: seq<Operation>)
    ensures InLen(a + b) == InLen(a) + InLen(b)
    ensures OutLen(a + b) == OutLen(a) + OutLen(b)
  {
    if a == [] {
      assert a + b == b;
    } else {
      assert (a + b)[1..] == a[1..] + b;
      LenConcat(a[1..], b);
    }
  }

  lemma {:induction false} OutConcat(a: seq<Operation>, b: seq<Operation>, x: string, y: string)
    requires |x| == InLen(a) && |y| == InLen(b)
    ensures InLen(a + b) == |x + y|
    ensures Out(a + b, x + y) == Out(a, x) + Out(b, y)
  {
    LenConcat(a, b);
    if a == [] {
      assert a + b == b && x + y == y;
    } else {
      var k := InSize(a[0]);
      assert (a + b)[1..] == a[1..] + b;
      assert (x + y)[..k] == x[..k] && (x + y)[k..] == x[k..] + y;
      OutConcat(a[1..], b, x[k..], y);
      Assoc(OutOf(a[0], x[..k]), Out(a[1..], x[k..]), Out(b, y));
    }
  }

  lemma OutFirst(ops: seq<Operation>, x: string, y: string)
    requires ops != [] && |x| == InSize(ops[0]) && |y| == InLen(ops[1..])
    ensures Out(ops, x + y) == OutOf(ops[0], x) + Out(ops[1..], y)
  {
    assert (x + y)[..|x|] == x && (x + y)[|x|..] == y;
  }

  lemma OutSnoc(p: seq<Operation>, op: Operation, x: string, y: string)
    requires |x| == InLen(p) && |y| == InSize(op)
    ensures InLen(p + [op]) == |x + y|
    ensures Out(p + [op], x + y) == Out(p, x) + OutOf(op, y)
  {
    assert [op][1..] == [];
    assert y[..|y|] == y && y[|y|..] == [];
    OutConcat(p, [op], x, y);
  }

  /** Replacing `mid` by `text`: the insertion may stand before or after the
      deletion. */
  lemma PlainEdit(head: string, mid: string, tail: string, text: string)
    ensures var doc, keep := head + (mid + tail), [Retain(|tail|)];
      var before := [Retain(|head|)] + ([Insert(text)] + ([Delete(|mid|)] + keep));
      var after := [Retain(|head|)] + ([Delete(|mid|)] + ([Insert(text)] + keep));
      && InLen(before) == InLen(after) == |doc|
      && Out(before, doc) == Out(after, doc) == head + (text + tail)
  {
    var keep := [Retain(|tail|)];
    OutOne(Retain(|tail|), tail);
    InsertThenDelete(mid, tail, text, keep);
    OutCons(Retain(|head|), [Insert(text)] + ([Delete(|mid|)] + keep), head, mid + tail);
    OutCons(Retain(|head|), [Delete(|mid|)] + ([Insert(text)] + keep), head, mid + tail);
  }

  lemma InsertThenDelete(mid: string, tail: string, text: string, keep: seq<Operation>)
    requires InLen(keep) == |tail| && Out(keep, tail) == tail
    ensures var before := [Insert(text)] + ([Delete(|mid|)] + keep);
      var after := [Delete(|mid|)] + ([Insert(text)] + keep);
      && InLen(before) == InLen(after) == |mid + tail|
      && Out(before, mid + tail) == Out(after, mid + tail) == text + tail
  {
    OutCons(Delete(|mid|), keep, mid, tail);
    OutCons(Insert(text), [Delete(|mid|)] + keep, "", mid + tail);
    OutCons(Insert(text), keep, "", tail);
    OutCons(Delete(|mid|), [Insert(text)] + keep, mid, tail);
    assert "" + (mid + tail) == mid + tail && "" + tail == tail && [] + (text + tail) == text + tail;
  }

  lemma OutOne(op: Operation, x: string)
    requires |x| == InSize(op)
    ensures InLen([op]) == |x| && Out([op], x) == OutOf(op, x)
  {
    OutCons(op, [], x, "");
    assert [op] + [] == [op] && x + "" == x && OutOf(op, x) + "" == OutOf(op, x);
  }

  lemma OutCons(op: Operation, ops: seq<Operation>, x: string, y: string)
    requires |x| == InSize(op) && |y| == InLen(ops)
    ensures InLen([op] + ops) == |x + y| && Out([op] + ops, x + y) == OutOf(op, x) + Out(ops, y)
  {
    var all := [op] + ops;
    assert all[0] == op && all[1..] == ops;
    assert (x + y)[..|x|] == x && (x + y)[|x|..] == y;
  }

  // ---------------------------------------------------------------------
  // The builder
  // ---------------------------------------------------------------------

  /** Appends an operation the way `retain`, `delete` and `insert` do: drop it
      when empty, merge it with a neighbour of its kind, and keep an insertion
      in front of a trailing deletion. */
  function PushOp(ops: seq<Operation>, op: Operation): seq<Operation> {
    var n := |ops|;
    match op
    case Retain(k) =>
      if k == 0 then ops
      else if n > 0 && ops[n - 1].Retain? then ops[..n - 1] + [Retain(ops[n - 1].n + k)]
      else ops + [op]
    case Delete(k) =>
      if k == 0 then ops
      else if n > 0 && ops[n - 1].Delete? then ops[..n - 1] + [Delete(ops[n - 1].n + k)]
      else ops + [op]
    case Insert(t) =>
      if t == [] then ops
      else if n > 0 && ops[n - 1].Insert? then ops[..n - 1] + [Insert(ops[n - 1].text + t)]
      else if n > 1 && ops[n - 1].Delete? && ops[n - 2].Insert? then
        ops[..n - 2] + [Insert(ops[n - 2].text + t), ops[n - 1]]
      else if n > 0 && ops[n - 1].Delete? then ops[..n - 1] + [op, ops[n - 1]]
      else ops + [op]
  }

  function Push(c: ChangeSet, op: Operation): ChangeSet {
    ChangeSet(PushOp(c.changes, op), c.len + InSize(op), c.lenAfter + OutSize(op))
  }

  lemma PushOpCanonical(ops: seq<Operation>, op: Operation)
    requires Canonical(ops)
    ensures Canonical(PushOp(ops, op))
  {
    var n := |ops|;
    if op.Insert? && op.text != [] && n > 1 && ops[n - 1].Delete? && !ops[n - 2].Insert? {
      assert Follows(ops[n - 2], ops[n - 1]);
    }
    var r := PushOp(ops, op);
    forall i | 0 < i < |r| ensures Follows(r[i - 1], r[i]) {
      if i < n { assert Follows(ops[i - 1], ops[i]); }
    }
  }

  /** Merging two neighbours of one kind into `joined`. */
  lemma OutMerge(p: seq<Operation>, last: Operation, op: Operation, joined: Operation, x: string, y: string, z: string)
    requires |x| == InLen(p) && |y| == InSize(last) && |z| == InSize(op)
    requires
      || (last.Retain? && op.Retain? && joined == Retain(last.n + op.n))
      || (last.Delete? && op.Delete? && joined == Delete(last.n + op.n))
      || (last.Insert? && op.Insert? && joined == Insert(last.text + op.text))
    ensures InLen(p + [last]) == |x + y|
    ensures InLen(p + [joined]) == |x + y + z|
    ensures Out(p + [joined], x + y + z) == Out(p + [last], x + y) + OutOf(op, z)
  {
    OutSnoc(p, last, x, y);
    OutSnoc(p, joined, x, y + z);
    Assoc(x, y, z);
    Assoc(Out(p, x), OutOf(last, y), OutOf(op, z));
  }

  /** Moving an insertion in front of a trailing deletion. */
  lemma OutSwap(p: seq<Operation>, t: string, d: Operation, x: string, y: string)
    requires d.Delete? && |x| == InLen(p) && |y| == d.n
    ensures InLen(p + [d]) == |x + y| == InLen(p + [Insert(t)] + [d])
    ensures Out(p + [Insert(t)] + [d], x + y) == Out(p + [d], x + y) + t
  {
    OutSnoc(p, d, x, y);
    OutSnoc(p, Insert(t), x, []);
    assert x + [] == x;
    OutSnoc(p + [Insert(t)], d, x, y);
  }

  /** Pushing through the builder means appending: the merging and the swap
      with a trailing deletion never change the text produced. */
  lemma PushOpMeaning(ops: seq<Operation>, op: Operation, x: string, y: string)
    requires |x| == InLen(ops) && |y| == InSize(op)
    ensures InLen(PushOp(ops, op)) == |x + y|
    ensures Out(PushOp(ops, op), x + y) == Out(ops, x) + OutOf(op, y)
  {
    var n, r := |ops|, PushOp(ops, op);
    if InSize(op) + OutSize(op) == 0 {
      assert y == [] && OutOf(op, y) == [];
      assert x + y == x;
    } else if r == ops + [op] {
      OutSnoc(ops, op, x, y);
    } else {
      var p, last := ops[..n - 1], ops[n - 1];
      assert ops == p + [last];
      LenConcat(p, [last]);
      var k := InLen(p);
      assert x == x[..k] + x[k..];
      if op.Insert? && last.Delete? {
        assert x + y == x;
        PushBeforeDelete(ops, op.text, x);
      } else {
        assert r == p + [r[n - 1]];
        OutMerge(p, last, op, r[n - 1], x[..k], x[k..], y);
      }
    }
  }

  lemma PushIntoInsert(q: seq<Operation>, ins: Operation, d: Operation, t: string, x: string, y: string)
    requires ins.Insert? && d.Delete? && |x| == InLen(q + [ins]) && |y| == d.n
    ensures InLen(q + [ins] + [d]) == |x + y| == InLen(q + [Insert(ins.text + t)] + [d])
    ensures Out(q + [Insert(ins.text + t)] + [d], x + y) == Out(q + [ins] + [d], x + y) + t
  {
    LenConcat(q, [ins]);
    OutSwap(q, ins.text, d, x, y);
    OutSwap(q, ins.text + t, d, x, y);
    Assoc(Out(q + [d], x + y), ins.text, t);
  }

  lemma PushBeforeDelete(ops: seq<Operation>, t: string, s: string)
    requires ops != [] && ops[|ops| - 1].Delete? && t != [] && |s| == InLen(ops)
    ensures InLen(PushOp(ops, Insert(t))) == |s|
    ensures Out(PushOp(ops, Insert(t)), s) == Out(ops, s) + t
  {
    var n, r := |ops|, PushOp(ops, Insert(t));
    var p, d := ops[..n - 1], ops[n - 1];
    assert ops == p + [d];
    LenConcat(p, [d]);
    var k := InLen(p);
    assert s == s[..k] + s[k..];
    if n > 1 && ops[n - 2].Insert? {
      assert p == ops[..n - 2] + [ops[n - 2]];
      assert r == ops[..n - 2] + [Insert(ops[n - 2].text + t)] + [d];
      PushIntoInsert(ops[..n - 2], ops[n - 2], d, t, s[..k], s[k..]);
      SameMeaning(ops, ops[..n - 2] + [ops[n - 2]] + [d], r, ops[..n - 2] + [Insert(ops[n - 2].text + t)] + [d], s, t);
    } else {
      OutSwap(p, t, d, s[..k], s[k..]);
      SameMeaning(ops, p + [d], r, p + [Insert(t)] + [d], s, t);
    }
  }

  lemma SameMeaning(ops: seq<Operation>, ops': seq<Operation>, r: seq<Operation>, r': seq<Operation>,
                    s: string, t: string)
    requires ops == ops' && r == r' && InLen(ops') == |s| == InLen(r')
    requires Out(r', s) == Out(ops', s) + t
    ensures InLen(r) == |s| && Out(r, s) == Out(ops, s) + t
  {
  }

  /** Every push keeps the changeset invariant. */
  lemma PushValid(c: ChangeSet, op: Operation)
    requires Valid(c)
    ensures Valid(Push(c, op))
  {
    PushOpCanonical(c.changes, op);
    var x, y := seq(InLen(c.changes), i => ' '), seq(InSize(op), i => ' ');
    PushOpMeaning(c.changes, op, x, y);
  }

  // ---------------------------------------------------------------------
  // apply
  // ---------------------------------------------------------------------

  lemma AppliedStep(ops: seq<Operation>, s: string)
    requires ops != [] && InLen(ops) <= |s|
    ensures InLen(ops[1..]) <= |s[InSize(ops[0])..]|
    ensures AppliedOps(ops, s)
         == OutOf(ops[0], s[..InSize(ops[0])]) + AppliedOps(ops[1..], s[InSize(ops[0])..])
  {
    var j, k := InSize(ops[0]), InLen(ops);
    var t := s[j..];
    assert s[..k][..j] == s[..j] && s[..k][j..] == t[..k - j] && s[k..] == t[k - j..];
    Assoc(OutOf(ops[0], s[..j]), Out(ops[1..], t[..k - j]), s[k..]);
  }

  /** Buffer and position after editing in place with one operation. */
  function EditAt(r: string, pos: nat, op: Operation): (string, nat)
    requires pos + InSize(op) <= |r|
  {
    match op
    case Retain(n) => (r, pos + n)
    case Delete(n) => (r[..pos] + r[pos + n..], pos)
    case Insert(t) => (r[..pos] + t + r[pos..], pos + |t|)
  }

  lemma EditAtParts(r: string, pos: nat, op: Operation)
    requires pos + InSize(op) <= |r|
    ensures var (r', pos') := EditAt(r, pos, op);
      && pos' <= |r'|
      && r'[..pos'] == r[..pos] + OutOf(op, r[pos..pos + InSize(op)])
      && r'[pos'..] == r[pos + InSize(op)..]
  {
  }

  /** The finished text, seen from the middle of an in-place edit. */
  ghost function Finished(r: string, pos: nat, ops: seq<Operation>): string
    requires pos <= |r| && InLen(ops) <= |r| - pos
  {
    r[..pos] + AppliedOps(ops, r[pos..])
  }

  lemma EditAtMeaning(r: string, pos: nat, ops: seq<Operation>)
    requires pos <= |r| && ops != [] && InLen(ops) <= |r| - pos
    ensures var (r', pos') := EditAt(r, pos, ops[0]);
      && pos' <= |r'| && InLen(ops[1..]) <= |r'| - pos'
      && Finished(r', pos', ops[1..]) == Finished(r, pos, ops)
  {
    var (r', pos') := EditAt(r, pos, ops[0]);
    EditAtParts(r, pos, ops[0]);
    RestParts(r, pos, InSize(ops[0]));
    AppliedStep(ops, r[pos..]);
    FinishedStep(r, pos, ops, OutOf(ops[0], r[pos..pos + InSize(ops[0])]), r', pos', ops[1..]);
  }

  lemma FinishedStep(r: string, pos: nat, ops: seq<Operation>, o: string, r': string, pos': nat, rest: seq<Operation>)
    requires pos <= |r| && InLen(ops) <= |r| - pos && pos' <= |r'| && InLen(rest) <= |r'| - pos'
    requires r'[..pos'] == r[..pos] + o && AppliedOps(ops, r[pos..]) == o + AppliedOps(rest, r'[pos'..])
    ensures Finished(r', pos', rest) == Finished(r, pos, ops)
  {
    Assoc(r[..pos], o, AppliedOps(rest, r'[pos'..]));
  }

  lemma RestParts(r: string, pos: nat, k: nat)
    requires pos + k <= |r|
    ensures r[pos..][..k] == r[pos..pos + k] && r[pos..][k..] == r[pos + k..]
  {
  }

  /** `goal` is what the rest of the operations makes of the buffer. */
  ghost predicate Towards(goal: string, r: string, pos: nat, ops: seq<Operation>) {
    pos <= |r| && InLen(ops) <= |r| - pos && Finished(r, pos, ops) == goal
  }

  lemma TowardsStep(goal: string, r: string, pos: nat, ops: seq<Operation>)
    requires Towards(goal, r, pos, ops) && ops != []
    ensures pos + InSize(ops[0]) <= |r|
    ensures var (r', pos') := EditAt(r, pos, ops[0]); Towards(goal, r', pos', ops[1..])
  {
    EditAtMeaning(r, pos, ops);
  }

  lemma TowardsStart(c: ChangeSet, doc: string)
    requires InLen(c.changes) <= |doc|
    ensures Towards(Applied(c, doc), doc, 0, c.changes)
  {
    assert doc[0..] == doc && doc[..0] == [];
  }

  lemma TowardsEnd(goal: string, r: string, pos: nat)
    requires Towards(goal, r, pos, [])
    ensures r == goal
  {
    assert r[pos..][..0] == [] && r[pos..][0..] == r[pos..];
    assert r[..pos] + r[pos..] == r;
  }

  /** Editing the document in place, one operation at a time. */
  method Apply(c: ChangeSet, doc: string) returns (r: string)
    requires InLen(c.changes) <= |doc|
    ensures r == Applied(c, doc)
  {
    r := doc;
    ghost var goal := Applied(c, doc);
    TowardsStart(c, doc);
    var ops, pos, i := c.changes, 0, 0;
    ghost var rest := ops;
    while i < |ops|
      invariant 0 <= i <= |ops| && 0 <= pos
      invariant rest == ops[i..] && Towards(goal, r, pos, rest)
    {
      var op := ops[i];
      TowardsStep(goal, r, pos, rest);
      ghost var next := EditAt(r, pos, op);
      rest := rest[1..];
      match op {
        case Retain(n) => pos := pos + n;
        case Delete(n) => r := r[..pos] + r[pos + n..];
        case Insert(t) => r, pos := r[..pos] + t + r[pos..], pos + |t|;
      }
      assert (r, pos) == next;
      i := i + 1;
    }
    TowardsEnd(goal, r, pos);
  }

  // ---------------------------------------------------------------------
  // invert
  // ---------------------------------------------------------------------

  lemma InLenPrefix(ops: seq<Operation>, i: nat)
    requires i <= |ops|
    ensures InLen(ops) == InLen(ops[..i]) + InLen(ops[i..])
    ensures OutLen(ops) == OutLen(ops[..i]) + OutLen(ops[i..])
  {
    assert ops == ops[..i] + ops[i..];
    LenConcat(ops[..i], ops[i..]);
  }

  /** The operation that undoes `op`, which reads `gone` from the document. */
  function Undo(op: Operation, gone: string): Operation
    requires |gone| == InSize(op)
  {
    match op
    case Retain(n) => Retain(n)
    case Delete(_) => Insert(gone)
    case Insert(t) => Delete(|t|)
  }

  lemma UndoStep(ops: seq<Operation>, op: Operation, inv: seq<Operation>, x: string, y: string)
    requires |x| == InLen(ops) && |y| == InSize(op)
    requires InLen(inv) == OutLen(ops) && Out(inv, Out(ops, x)) == x
    ensures InLen(ops + [op]) == |x + y|
    ensures InLen(PushOp(inv, Undo(op, y))) == OutLen(ops + [op])
    ensures Out(PushOp(inv, Undo(op, y)), Out(ops + [op], x + y)) == x + y
  {
    OutSnoc(ops, op, x, y);
    PushOpMeaning(inv, Undo(op, y), Out(ops, x), OutOf(op, y));
  }

  /** `inv` takes what `ops` makes of `x` back to `x`. */
  ghost predicate Undoes(inv: ChangeSet, ops: seq<Operation>, x: string) {
    && Valid(inv) && inv.len == OutLen(ops) && inv.lenAfter == InLen(ops) == |x|
    && Out(inv.changes, Out(ops, x)) == x
  }

  lemma UndoesStep(inv: ChangeSet, next: ChangeSet, ops: seq<Operation>, op: Operation, x: string, y: string)
    requires Undoes(inv, ops, x) && |y| == InSize(op) && next == Push(inv, Undo(op, y))
    ensures Undoes(next, ops + [op], x + y)
  {
    UndoStep(ops, op, inv.changes, x, y);
    PushValid(inv, Undo(op, y));
    LenConcat(ops, [op]);
  }

  /** One turn of the loop in `invert`. */
  method UndoNext(r: ChangeSet, op: Operation, gone: string, ghost ops: seq<Operation>, ghost x: string)
    returns (next: ChangeSet)
    requires Undoes(r, ops, x) && |gone| == InSize(op)
    ensures Undoes(next, ops + [op], x + gone)
  {
    var undo;
    match op {
      case Retain(n) => undo := Retain(n);
      case Delete(_) => undo := Insert(gone);
      case Insert(t) => undo := Delete(|t|);
    }
    next := Push(r, undo);
    UndoesStep(r, next, ops, op, x, gone);
  }

  /** The inverse undoes the change on every document it applies to. */
  method Invert(c: ChangeSet, doc: string) returns (r: ChangeSet)
    requires Valid(c) && c.len <= |doc|
    ensures Valid(r) && r.len == c.lenAfter && r.lenAfter == c.len
    ensures Applied(r, Applied(c, doc)) == doc
  {
    r := EMPTY;
    var ops, pos, i := c.changes, 0, 0;
    ghost var done: seq<Operation>, read: string := [], [];
    while i < |ops|
      invariant 0 <= i && 0 <= pos && |done| == i && |read| == pos && done <= ops && read <= doc
      invariant Undoes(r, done, read)
    {
      var op := ops[i];
      NextFits(r, done, read, ops);
      var gone := doc[pos..pos + InSize(op)];
      r := UndoNext(r, op, gone, done, read);
      LongerPrefix(done, [op], ops);
      LongerPrefix(read, gone, doc);
      done, read := done + [op], read + gone;
      pos, i := pos + InSize(op), i + 1;
    }
    UndoneAll(c, r, done, read, doc);
  }

  lemma LongerPrefix<T>(s: seq<T>, more: seq<T>, all: seq<T>)
    requires s <= all && |s| + |more| <= |all| && more == all[|s|..|s| + |more|]
    ensures s + more <= all
  {
  }

  lemma NextFits(inv: ChangeSet, done: seq<Operation>, read: string, ops: seq<Operation>)
    requires done <= ops && |done| < |ops| && Undoes(inv, done, read)
    ensures |read| + InSize(ops[|done|]) <= InLen(ops)
  {
    assert done == ops[..|done|];
    InLenPrefix(ops, |done|);
  }

  lemma WholePrefix<T>(s: seq<T>, all: seq<T>)
    requires s <= all
    ensures s == all[..|s|] && (|s| == |all| ==> s == all)
  {
  }

  lemma UndoneAll(c: ChangeSet, inv: ChangeSet, done: seq<Operation>, read: string, doc: string)
    requires Valid(c) && done <= c.changes && |done| == |c.changes| && read <= doc && Undoes(inv, done, read)
    ensures inv.len == c.lenAfter && inv.lenAfter == c.len && Valid(inv)
    ensures Applied(inv, Applied(c, doc)) == doc
  {
    WholePrefix(done, c.changes);
    WholePrefix(read, doc);
    RoundTrip(c.changes, inv.changes, doc);
  }

  lemma RoundTrip(ops: seq<Operation>, inv: seq<Operation>, doc: string)
    requires InLen(ops) <= |doc| && InLen(inv) == OutLen(ops)
    requires Out(inv, Out(ops, doc[..InLen(ops)])) == doc[..InLen(ops)]
    ensures AppliedOps(inv, AppliedOps(ops, doc)) == doc
  {
    var k := InLen(ops);
    var o := Out(ops, doc[..k]);
    assert (o + doc[k..])[..|o|] == o && (o + doc[k..])[|o|..] == doc[k..];
    assert doc[..k] + doc[k..] == doc;
  }

  // ---------------------------------------------------------------------
  // compose
  // ---------------------------------------------------------------------

  predicate NonEmptyOps(ops: seq<Operation>) {
    forall i :: 0 <= i < |ops| ==> InSize(ops[i]) + OutSize(ops[i]) > 0
  }

  function Min(a: nat, b: nat): nat { if a < b then a else b }

  /** What is left of the list after `k` characters of its first operation. */
  function Advance(ops: seq<Operation>, k: nat): seq<Operation>
    requires ops != [] && k <= InSize(ops[0]) + OutSize(ops[0])
    requires ops[0].Retain? ==> k <= ops[0].n
  {
    match ops[0]
    case Retain(n) => if n > k then [Retain(n - k)] + ops[1..] else ops[1..]
    case Delete(n) => if n > k then [Delete(n - k)] + ops[1..] else ops[1..]
    case Insert(t) => if |t| > k then [Insert(t[k..])] + ops[1..] else ops[1..]
  }

  /** The operation emitted when `a` produces `k` characters that `b` reads. */
  function Meet(a: Operation, b: Operation, k: nat): Operation
    requires !a.Delete? && !b.Insert? && k <= OutSize(a) && k <= InSize(b)
  {
    match (a, b)
    case (Retain(_), Retain(_)) => Retain(k)
    case (Retain(_), Delete(_)) => Delete(k)
    case (Insert(t), Retain(_)) => Insert(t[..k])
    case (_, _) => Insert([])
  }

  predicate Matched(a: seq<Operation>, b: seq<Operation>) {
    NonEmptyOps(a) && NonEmptyOps(b) && OutLen(a) == InLen(b)
  }

  /** One value per iteration of the source's loop: deletions of the first list
      and insertions of the second go straight through, everything else is
      paired up character by character. */
  function ComposedFrom(done: seq<Operation>, a: seq<Operation>, b: seq<Operation>): seq<Operation>
    requires Matched(a, b)
    decreases |a| + |b| + OutLen(a)
  {
    if a != [] && a[0].Delete? then ComposedFrom(PushOp(done, a[0]), a[1..], b)
    else if b != [] && b[0].Insert? then ComposedFrom(PushOp(done, b[0]), a, b[1..])
    else if a == [] then done
    else
      var k := Min(OutSize(a[0]), InSize(b[0]));
      AdvanceLens(a, k);
      AdvanceLens(b, k);
      ComposedFrom(PushOp(done, Meet(a[0], b[0], k)), Advance(a, k), Advance(b, k))
  }

  lemma AdvanceLens(ops: seq<Operation>, k: nat)
    requires ops != [] && NonEmptyOps(ops)
    requires k <= InSize(ops[0]) || k <= OutSize(ops[0])
    requires ops[0].Retain? ==> k <= ops[0].n
    ensures NonEmptyOps(Advance(ops, k)) && |Advance(ops, k)| <= |ops|
    ensures OutLen(Advance(ops, k)) == OutLen(ops) - (if ops[0].Delete? then 0 else k)
    ensures InLen(Advance(ops, k)) == InLen(ops) - (if ops[0].Insert? then 0 else k)
  {
    var r := Advance(ops, k);
    if r != ops[1..] {
      assert r[1..] == ops[1..];
    }
  }

  /** Part of the first operation is used up. */
  lemma OutAdvancePart(a: seq<Operation>, k: nat, u: string, x: string, y: string)
    requires a != [] && !a[0].Delete? && k < OutSize(a[0])
    requires |u| == (if a[0].Retain? then k else 0) && |u| + |x| == InSize(a[0]) && |y| == InLen(a[1..])
    ensures InLen(Advance(a, k)) == |x + y|
    ensures Out(a, u + x + y) == (if a[0].Retain? then u else a[0].text[..k]) + Out(Advance(a, k), x + y)
  {
    var r, rest := Advance(a, k), Out(a[1..], y);
    assert r[1..] == a[1..];
    assert (u + x + y)[..InSize(a[0])] == u + x && (u + x + y)[InSize(a[0])..] == y;
    assert (x + y)[..|x|] == x && (x + y)[|x|..] == y;
    if a[0].Retain? {
      Assoc(u, x, rest);
    } else {
      assert a[0].text == a[0].text[..k] + a[0].text[k..];
      Assoc(a[0].text[..k], a[0].text[k..], rest);
    }
  }

  /** All of it is. */
  lemma OutAdvanceWhole(a: seq<Operation>, u: string, s: string)
    requires a != [] && !a[0].Delete? && |u| == InSize(a[0]) && |s| == InLen(a[1..])
    ensures Out(a, u + s) == (if a[0].Retain? then u else a[0].text[..OutSize(a[0])]) + Out(a[1..], s)
  {
    assert (u + s)[..|u|] == u && (u + s)[|u|..] == s;
    if a[0].Insert? { assert a[0].text[..|a[0].text|] == a[0].text; }
  }

  lemma OutAdvanceFirst(a: seq<Operation>, k: nat, u: string, s: string)
    requires a != [] && NonEmptyOps(a) && !a[0].Delete? && k <= OutSize(a[0])
    requires |u| == (if a[0].Retain? then k else 0) && |u| + |s| == InLen(a)
    ensures InLen(Advance(a, k)) == |s|
    ensures Out(a, u + s) == (if a[0].Retain? then u else a[0].text[..k]) + Out(Advance(a, k), s)
  {
    var j := InSize(a[0]) - |u|;
    if k == OutSize(a[0]) {
      OutAdvanceWhole(a, u, s);
    } else {
      OutAdvancePart(a, k, u, s[..j], s[j..]);
      Rejoined(u, s, j);
    }
  }

  lemma Rejoined(u: string, s: string, j: nat)
    requires j <= |s|
    ensures u + s[..j] + s[j..] == u + s && s[..j] + s[j..] == s
  {
    assert s[..j] + s[j..] == s;
    Assoc(u, s[..j], s[j..]);
  }

  lemma OutAdvanceSecond(b: seq<Operation>, k: nat, u: string, s: string)
    requires b != [] && NonEmptyOps(b) && !b[0].Insert? && k <= InSize(b[0])
    requires |u| == k && |u| + |s| == InLen(b)
    ensures InLen(Advance(b, k)) == |s|
    ensures Out(b, u + s) == (if b[0].Retain? then u else []) + Out(Advance(b, k), s)
  {
    AdvanceLens(b, k);
    if b[0].Retain? {
      OutAdvanceFirst(b, k, u, s);
    } else {
      var j := b[0].n - k;
      DeletePart(b, k, u, s[..j], s[j..]);
      Assoc(u, s[..j], s[j..]);
      assert s[..j] + s[j..] == s;
    }
  }

  /** A deletion that is partly or wholly used up produces nothing. */
  lemma DeletePart(b: seq<Operation>, k: nat, u: string, v: string, y: string)
    requires b != [] && b[0].Delete? && |u| == k && |u| + |v| == b[0].n && |y| == InLen(b[1..])
    ensures InLen(Advance(b, k)) == |v + y|
    ensures Out(b, u + v + y) == [] + Out(Advance(b, k), v + y)
  {
    OutFirst(b, u + v, y);
    var r := Advance(b, k);
    if |v| == 0 {
      assert v + y == y;
    } else {
      assert r[1..] == b[1..];
      OutFirst(r, v, y);
    }
  }

  lemma OutAfterDelete(b: seq<Operation>, s: string)
    requires b != [] && b[0].Delete? && |s| == InLen(b)
    ensures Out(b, s) == Out(b[1..], s[b[0].n..])
  {
    var t := Out(b[1..], s[b[0].n..]);
    assert [] + t == t;
  }

  lemma MeetStep(a: seq<Operation>, b: seq<Operation>, k: nat, u: string, s: string)
    requires Matched(a, b) && a != [] && b != [] && !a[0].Delete? && !b[0].Insert?
    requires k <= OutSize(a[0]) && k <= InSize(b[0])
    requires |u| == InSize(Meet(a[0], b[0], k)) && |u| + |s| == InLen(a)
    requires a[0].Insert? ==> u == []
    ensures Matched(Advance(a, k), Advance(b, k)) && InLen(Advance(a, k)) == |s|
    ensures Out(b, Out(a, u + s))
         == OutOf(Meet(a[0], b[0], k), u) + Out(Advance(b, k), Out(Advance(a, k), s))
  {
    AdvanceLens(a, k);
    AdvanceLens(b, k);
    OutAdvanceFirst(a, k, u, s);
    var mid := if a[0].Retain? then u else a[0].text[..k];
    OutAdvanceSecond(b, k, mid, Out(Advance(a, k), s));
  }

  /** Composition is function composition: from any point of the loop, the
      finished list does to the unread text what the two lists do in turn. */
  lemma {:induction false} ComposedMeaning(done: seq<Operation>, a: seq<Operation>, b: seq<Operation>,
          x: string, s: string)
    requires Matched(a, b) && |x| == InLen(done) && |s| == InLen(a)
    ensures InLen(ComposedFrom(done, a, b)) == |x + s|
    ensures Out(ComposedFrom(done, a, b), x + s) == Out(done, x) + Out(b, Out(a, s))
    decreases |a| + |b| + OutLen(a)
  {
    if a != [] && a[0].Delete? {
      ComposedDelete(done, a, b, x, s);
    } else if b != [] && b[0].Insert? {
      ComposedInsert(done, a, b, x, s);
    } else if a == [] {
      assert x + s == x && b == [];
      assert Out(done, x) + [] == Out(done, x);
    } else {
      ComposedMeet(done, a, b, x, s);
    }
  }

  lemma {:induction false} ComposedDelete(done: seq<Operation>, a: seq<Operation>, b: seq<Operation>,
          x: string, s: string)
    requires Matched(a, b) && |x| == InLen(done) && |s| == InLen(a)
    requires a != [] && a[0].Delete?
    ensures InLen(ComposedFrom(done, a, b)) == |x + s|
    ensures Out(ComposedFrom(done, a, b), x + s) == Out(done, x) + Out(b, Out(a, s))
    decreases |a| + |b| + OutLen(a), 0
  {
    var n := a[0].n;
    var u, rest := s[..n], s[n..];
    assert s == u + rest;
    PushOpMeaning(done, a[0], x, u);
    ComposedMeaning(PushOp(done, a[0]), a[1..], b, x + u, rest);
    OutAfterDelete(a, s);
    Assoc(x, u, rest);
    assert Out(done, x) + [] == Out(done, x);
  }

  lemma {:induction false} ComposedInsert(done: seq<Operation>, a: seq<Operation>, b: seq<Operation>,
          x: string, s: string)
    requires Matched(a, b) && |x| == InLen(done) && |s| == InLen(a)
    requires !(a != [] && a[0].Delete?) && b != [] && b[0].Insert?
    ensures InLen(ComposedFrom(done, a, b)) == |x + s|
    ensures Out(ComposedFrom(done, a, b), x + s) == Out(done, x) + Out(b, Out(a, s))
    decreases |a| + |b| + OutLen(a), 0
  {
    PushOpMeaning(done, b[0], x, []);
    assert x + [] == x;
    ComposedMeaning(PushOp(done, b[0]), a, b[1..], x, s);
    OutAfterInsert(b, Out(a, s));
    Assoc(Out(done, x), b[0].text, Out(b[1..], Out(a, s)));
  }

  lemma OutAfterInsert(b: seq<Operation>, s: string)
    requires b != [] && b[0].Insert? && |s| == InLen(b)
    ensures Out(b, s) == b[0].text + Out(b[1..], s)
  {
    assert s[0..] == s;
  }

  lemma {:induction false} ComposedMeet(done: seq<Operation>, a: seq<Operation>, b: seq<Operation>,
          x: string, s: string)
    requires Matched(a, b) && |x| == InLen(done) && |s| == InLen(a)
    requires a != [] && b != [] && !a[0].Delete? && !b[0].Insert?
    ensures InLen(ComposedFrom(done, a, b)) == |x + s|
    ensures Out(ComposedFrom(done, a, b), x + s) == Out(done, x) + Out(b, Out(a, s))
    decreases |a| + |b| + OutLen(a), 0
  {
    var k := Min(OutSize(a[0]), InSize(b[0]));
    AdvanceLens(a, k);
    AdvanceLens(b, k);
    var meet, a', b' := Meet(a[0], b[0], k), Advance(a, k), Advance(b, k);
    var u, rest := s[..InSize(meet)], s[InSize(meet)..];
    assert s == u + rest;
    MeetStep(a, b, k, u, rest);
    PushOpMeaning(done, meet, x, u);
    ComposedMeaning(PushOp(done, meet), a', b', x + u, rest);
    Assoc(x, u, rest);
    Assoc(Out(done, x), OutOf(meet, u), Out(b', Out(a', rest)));
  }

  lemma {:induction false} ComposedValid(done: seq<Operation>, a: seq<Operation>, b: seq<Operation>)
    requires Matched(a, b) && Canonical(done)
    ensures Canonical(ComposedFrom(done, a, b))
    decreases |a| + |b| + OutLen(a)
  {
    if a != [] && a[0].Delete? {
      PushOpCanonical(done, a[0]);
      ComposedValid(PushOp(done, a[0]), a[1..], b);
    } else if b != [] && b[0].Insert? {
      PushOpCanonical(done, b[0]);
      ComposedValid(PushOp(done, b[0]), a, b[1..]);
    } else if a != [] {
      var k := Min(OutSize(a[0]), InSize(b[0]));
      AdvanceLens(a, k);
      AdvanceLens(b, k);
      PushOpCanonical(done, Meet(a[0], b[0], k));
      ComposedValid(PushOp(done, Meet(a[0], b[0], k)), Advance(a, k), Advance(b, k));
    }
  }

  lemma HeadsExist(a: seq<Operation>, b: seq<Operation>)
    requires Matched(a, b) && (a != [] || b != [])
    requires !(a != [] && a[0].Delete?) && !(b != [] && b[0].Insert?)
    ensures a != [] && b != [] && OutSize(a[0]) > 0 && InSize(b[0]) > 0
  {
  }

  lemma MeetHeads(a: seq<Operation>, b: seq<Operation>)
    requires Matched(a, b) && (a != [] || b != [])
    requires !(a != [] && a[0].Delete?) && !(b != [] && b[0].Insert?)
    ensures a != [] && b != []
    ensures var k := Min(OutSize(a[0]), InSize(b[0]));
      && k > 0 && Matched(Advance(a, k), Advance(b, k))
      && |Advance(a, k)| <= |a| && |Advance(b, k)| <= |b|
      && OutLen(Advance(a, k)) == OutLen(a) - k
      && InLen(Advance(a, k)) == InLen(a) - InSize(Meet(a[0], b[0], k))
      && OutLen(Advance(b, k)) == OutLen(b) - OutSize(Meet(a[0], b[0], k))
  {
    HeadsExist(a, b);
    var k := Min(OutSize(a[0]), InSize(b[0]));
    AdvanceLens(a, k);
    AdvanceLens(b, k);
  }

  /** The source's loop; it never reaches its two `unreachable!` arms. */
  method ComposeOps(first: seq<Operation>, second: seq<Operation>) returns (r: ChangeSet)
    requires Matched(first, second)
    ensures r.changes == ComposedFrom([], first, second)
    ensures r.len == InLen(first) && r.lenAfter == OutLen(second)
  {
    r := EMPTY;
    var a, b := first, second;
    while a != [] || b != []
      invariant Matched(a, b)
      invariant r.len + InLen(a) == InLen(first) && r.lenAfter + OutLen(b) == OutLen(second)
      invariant ComposedFrom(r.changes, a, b) == ComposedFrom([], first, second)
      decreases |a| + |b| + OutLen(a)
    {
      if a != [] && a[0].Delete? {
        r, a := Push(r, a[0]), a[1..];
      } else if b != [] && b[0].Insert? {
        r, b := Push(r, b[0]), b[1..];
      } else {
        MeetHeads(a, b);
        var k := Min(OutSize(a[0]), InSize(b[0]));
        r, a, b := Push(r, Meet(a[0], b[0], k)), Advance(a, k), Advance(b, k);
      }
    }
  }

  /** The composition does to every document what the two changes do one after
      the other. */
  method Compose(first: ChangeSet, second: ChangeSet) returns (r: ChangeSet)
    requires Valid(first) && Valid(second)
    requires first.lenAfter == second.len
    ensures r == Composition(first, second)
    ensures Valid(r) && r.len == first.len && r.lenAfter == second.lenAfter
    ensures forall doc: string :: |doc| >= first.len ==>
      Applied(r, doc) == Applied(second, Applied(first, doc))
  {
    r := ComposeOps(first.changes, second.changes);
    CompositionCorrect(first, second);
  }

  /** `Compose` as a value. */
  function Composition(first: ChangeSet, second: ChangeSet): ChangeSet
    requires Valid(first) && Valid(second)
    requires first.lenAfter == second.len
  {
    ChangeSet(ComposedFrom([], first.changes, second.changes), first.len, second.lenAfter)
  }

  lemma CompositionApplies(first: ChangeSet, second: ChangeSet, doc: string)
    requires Valid(first) && Valid(second) && first.lenAfter == second.len
    requires |doc| >= first.len
    ensures Valid(Composition(first, second))
    ensures Applied(Composition(first, second), doc) == Applied(second, Applied(first, doc))
  {
    var c := ComposedFrom([], first.changes, second.changes);
    var s, rest := doc[..first.len], doc[first.len..];
    ComposedValid([], first.changes, second.changes);
    ComposedMeaning([], first.changes, second.changes, [], s);
    assert [] + s == s;
    var mid := Out(first.changes, s);
    assert (mid + rest)[..second.len] == mid && (mid + rest)[second.len..] == rest;
    assert [] + Out(second.changes, mid) == Out(second.changes, mid);
  }

  lemma CompositionCorrect(first: ChangeSet, second: ChangeSet)
    requires Valid(first) && Valid(second) && first.lenAfter == second.len
    ensures Valid(Composition(first, second))
    ensures forall doc: string :: |doc| >= first.len ==>
      Applied(Composition(first, second), doc) == Applied(second, Applied(first, doc))
  {
    CompositionApplies(first, second, seq(first.len, i => ' '));
    forall doc: string | |doc| >= first.len
      ensures Applied(Composition(first, second), doc) == Applied(second, Applied(first, doc))
    {
      CompositionApplies(first, second, doc);
    }
  }

  // ---------------------------------------------------------------------
  // map_pos
  // ---------------------------------------------------------------------

  /** Where a position of the source document ends up. */
  function MapPos(ops: seq<Operation>, p: nat, bias: Bias): nat {
    if ops == [] then p
    else match ops[0]
      case Insert(t) => if p == 0 && bias.Left? then 0 else |t| + MapPos(ops[1..], p, bias)
      case Retain(n) => if p < n then p else n + MapPos(ops[1..], p - n, bias)
      case Delete(n) => if p < n then 0 else MapPos(ops[1..], p - n, bias)
  }

  /** The character at `p` survives the change. */
  predicate Kept(ops: seq<Operation>, p: nat) {
    if ops == [] then true
    else match ops[0]
      case Insert(_) => Kept(ops[1..], p)
      case Retain(n) => p < n || Kept(ops[1..], p - n)
      case Delete(n) => p >= n && Kept(ops[1..], p - n)
  }

  method MapPosition(c: ChangeSet, pos: nat, bias: Bias) returns (r: nat)
    ensures r == MapPos(c.changes, pos, bias)
  {
    var ops, oldPos, newPos, i := c.changes, 0, 0, 0;
    assert ops[0..] == ops;
    while i < |ops|
      invariant 0 <= i <= |ops| && oldPos <= pos
      invariant newPos + MapPos(ops[i..], pos - oldPos, bias) == MapPos(ops, pos, bias)
    {
      assert ops[i..][1..] == ops[i + 1..];
      match ops[i] {
        case Insert(t) =>
          if oldPos == pos && bias == Left { return newPos; }
          newPos := newPos + |t|;
        case Retain(n) =>
          if oldPos + n > pos { return newPos + (pos - oldPos); }
          oldPos, newPos := oldPos + n, newPos + n;
        case Delete(n) =>
          if oldPos + n > pos { return newPos; }
          oldPos := oldPos + n;
      }
      i := i + 1;
    }
    r := newPos + (pos - oldPos);
  }

  predicate FoundAt(text: string, i: nat, c: char) { i < |text| && text[i] == c }

  /** A kept character is found again at its right-biased position. */
  lemma MapPosFollows(ops: seq<Operation>, s: string, p: nat)
    requires |s| == InLen(ops) && p < |s| && Kept(ops, p)
    ensures MapPos(ops, p, Right) < OutLen(ops)
    ensures Out(ops, s)[MapPos(ops, p, Right)] == s[p]
  {
    KeptIsFound(ops, s, p);
  }

  lemma {:induction false} KeptIsFound(ops: seq<Operation>, s: string, p: nat)
    requires |s| == InLen(ops) && p < |s| && Kept(ops, p)
    ensures FoundAt(Out(ops, s), MapPos(ops, p, Right), s[p])
  {
    var k := InSize(ops[0]);
    var rest := Out(ops[1..], s[k..]);
    KeptStep(ops, p);
    if p >= k {
      KeptIsFound(ops[1..], s[k..], p - k);
      FoundBehind(OutOf(ops[0], s[..k]), rest, MapPos(ops[1..], p - k, Right), s[p]);
    } else {
      FoundInFront(s[..k], rest, p, s[p]);
    }
  }

  lemma FoundBehind(x: string, y: string, i: nat, c: char)
    requires FoundAt(y, i, c)
    ensures FoundAt(x + y, |x| + i, c)
  {
  }

  lemma FoundInFront(x: string, y: string, i: nat, c: char)
    requires FoundAt(x, i, c)
    ensures FoundAt(x + y, i, c)
  {
  }

  lemma KeptStep(ops: seq<Operation>, p: nat)
    requires ops != [] && Kept(ops, p)
    ensures p < InSize(ops[0]) ==> ops[0].Retain? && MapPos(ops, p, Right) == p
    ensures p >= InSize(ops[0]) ==>
      var q: nat := p - InSize(ops[0]);
      Kept(ops[1..], q) && MapPos(ops, p, Right) == OutSize(ops[0]) + MapPos(ops[1..], q, Right)
  {
  }

  /** Left bias follows the character before the position. */
  lemma {:induction false} MapPosLeft(ops: seq<Operation>, p: nat)
    requires p < InLen(ops) && Kept(ops, p)
    ensures MapPos(ops, p + 1, Left) == MapPos(ops, p, Right) + 1
  {
    var k := InSize(ops[0]);
    if p < k {
      MapPosStart(ops[1..]);
    } else {
      MapPosLeft(ops[1..], p - k);
    }
  }

  lemma {:induction false} MapPosStart(ops: seq<Operation>)
    ensures MapPos(ops, 0, Left) == 0
  {
    if ops != [] && InSize(ops[0]) == 0 && !ops[0].Insert? {
      MapPosStart(ops[1..]);
    }
  }

  /** Mapping keeps the order of positions, the two biases enclose what was
      inserted at the position, and the result stays inside the new text. */
  lemma {:induction false} MapPosOrder(ops: seq<Operation>, p: nat, q: nat, bias: Bias)
    requires p <= q
    ensures MapPos(ops, p, bias) <= MapPos(ops, q, bias)
    ensures MapPos(ops, p, Left) <= MapPos(ops, p, Right)
    ensures p <= InLen(ops) ==> MapPos(ops, p, bias) <= OutLen(ops)
  {
    if ops != [] {
      var k := InSize(ops[0]);
      if p >= k {
        MapPosOrder(ops[1..], p - k, q - k, bias);
      }
    }
  }

  /** Two lists keep the same characters and move them to the same places. */
  predicate SameFlow(x: seq<Operation>, y: seq<Operation>, p: nat) {
    Kept(x, p) == Kept(y, p) && (Kept(x, p) ==> MapPos(x, p, Right) == MapPos(y, p, Right))
  }

  lemma {:induction false} FlowConcat(a: seq<Operation>, b: seq<Operation>, p: nat)
    ensures p < InLen(a) ==> SameFlow(a + b, a, p)
    ensures p >= InLen(a) ==> Kept(a + b, p) == Kept(b, p - InLen(a))
    ensures p >= InLen(a) ==> MapPos(a + b, p, Right) == OutLen(a) + MapPos(b, p - InLen(a), Right)
  {
    if a == [] {
      assert a + b == b;
    } else {
      assert (a + b)[1..] == a[1..] + b;
      if p >= InSize(a[0]) { FlowConcat(a[1..], b, p - InSize(a[0])); }
    }
  }

  lemma FlowSameTail(q: seq<Operation>, x: seq<Operation>, y: seq<Operation>, p: nat)
    requires p >= InLen(q) ==> SameFlow(x, y, p - InLen(q))
    ensures SameFlow(q + x, q + y, p)
  {
    FlowConcat(q, x, p);
    FlowConcat(q, y, p);
  }

  lemma FlowSingle(op: Operation, p: nat)
    ensures Kept([op], p) == (op.Delete? ==> p >= op.n)
    ensures Kept([op], p) ==> MapPos([op], p, Right) == OutSize(op) + p - InSize(op) || (op.Retain? && p < op.n)
    ensures Kept([op], p) && op.Retain? ==> MapPos([op], p, Right) == p
  {
    assert [op][1..] == [];
  }

  /** Through the builder, an operation moves characters as if appended. */
  lemma PushFlow(ops: seq<Operation>, op: Operation, p: nat)
    ensures SameFlow(PushOp(ops, op), ops + [op], p)
  {
    var n, r := |ops|, PushOp(ops, op);
    if InSize(op) + OutSize(op) == 0 {
      FlowConcat(ops, [op], p);
      FlowConcat(ops, [], p);
      assert ops + [] == ops;
      if p >= InLen(ops) { FlowSingle(op, p - InLen(ops)); }
    } else if r != ops + [op] {
      var q, last := ops[..n - 1], ops[n - 1];
      assert ops == q + [last];
      if op.Insert? && last.Delete? && n > 1 && ops[n - 2].Insert? {
        var q', ins := ops[..n - 2], ops[n - 2];
        assert ops + [op] == q' + ([ins] + ([last] + [op]));
        assert r == q' + ([Insert(ins.text + op.text)] + [last]);
        FlowIntoInsert(q', ins, last, op, p);
      } else if op.Insert? && last.Delete? {
        assert ops + [op] == q + ([last] + [op]) && r == q + ([op] + [last]);
        FlowBefore(q, last, op, p);
      } else {
        assert ops + [op] == q + ([last] + [op]) && r == q + [r[n - 1]];
        FlowOnto(q, last, op, r[n - 1], p);
      }
    }
  }

  lemma FlowIntoInsert(q: seq<Operation>, ins: Operation, del: Operation, op: Operation, p: nat)
    requires ins.Insert? && del.Delete? && op.Insert?
    ensures SameFlow(q + ([Insert(ins.text + op.text)] + [del]), q + ([ins] + ([del] + [op])), p)
  {
    if p >= InLen(q) { FlowInsDelIns(ins, del, op, p - InLen(q)); }
    FlowSameTail(q, [Insert(ins.text + op.text)] + [del], [ins] + ([del] + [op]), p);
  }

  lemma FlowBefore(q: seq<Operation>, del: Operation, op: Operation, p: nat)
    requires del.Delete? && op.Insert?
    ensures SameFlow(q + ([op] + [del]), q + ([del] + [op]), p)
  {
    if p >= InLen(q) { FlowSwap(op, del, p - InLen(q)); }
    FlowSameTail(q, [op] + [del], [del] + [op], p);
  }

  lemma FlowOnto(q: seq<Operation>, last: Operation, op: Operation, joined: Operation, p: nat)
    requires
      || (last.Retain? && op.Retain? && joined == Retain(last.n + op.n))
      || (last.Delete? && op.Delete? && joined == Delete(last.n + op.n))
      || (last.Insert? && op.Insert? && joined == Insert(last.text + op.text))
    ensures SameFlow(q + [joined], q + ([last] + [op]), p)
  {
    if p >= InLen(q) { FlowMerge(last, op, joined, p - InLen(q)); }
    FlowSameTail(q, [joined], [last] + [op], p);
  }

  lemma FlowMerge(last: Operation, op: Operation, joined: Operation, p: nat)
    requires
      || (last.Retain? && op.Retain? && joined == Retain(last.n + op.n))
      || (last.Delete? && op.Delete? && joined == Delete(last.n + op.n))
      || (last.Insert? && op.Insert? && joined == Insert(last.text + op.text))
    ensures SameFlow([joined], [last] + [op], p)
  {
    FlowConcat([last], [op], p);
    FlowSingle(joined, p);
    FlowSingle(last, p);
    if p >= InSize(last) { FlowSingle(op, p - InSize(last)); }
  }

  lemma FlowSwap(ins: Operation, del: Operation, p: nat)
    requires ins.Insert? && del.Delete?
    ensures SameFlow([ins] + [del], [del] + [ins], p)
  {
    FlowConcat([ins], [del], p);
    FlowConcat([del], [ins], p);
    FlowSingle(del, p);
    if p >= del.n { FlowSingle(ins, p - del.n); }
  }

  lemma FlowInsDelIns(a: Operation, del: Operation, b: Operation, p: nat)
    requires a.Insert? && del.Delete? && b.Insert?
    ensures SameFlow([Insert(a.text + b.text)] + [del], [a] + ([del] + [b]), p)
  {
    FlowConcat([Insert(a.text + b.text)], [del], p);
    FlowConcat([a], [del] + [b], p);
    FlowConcat([del], [b], p);
    FlowSingle(del, p);
    if p >= del.n { FlowSingle(b, p - del.n); }
  }

  /** Skipping text a list produces, or reads, at its front. */
  lemma FlowAdvance(ops: seq<Operation>, k: nat, p: nat)
    requires ops != [] && NonEmptyOps(ops)
    requires !ops[0].Insert? ==> k <= ops[0].n
    requires ops[0].Insert? ==> k <= |ops[0].text|
    ensures ops[0].Insert? ==> Kept(ops, p) == Kept(Advance(ops, k), p)
    ensures ops[0].Insert? ==> MapPos(ops, p, Right) == k + MapPos(Advance(ops, k), p, Right)
    ensures !ops[0].Insert? && p >= k ==> Kept(ops, p) == Kept(Advance(ops, k), p - k)
    ensures ops[0].Retain? && p >= k ==> MapPos(ops, p, Right) == k + MapPos(Advance(ops, k), p - k, Right)
    ensures ops[0].Delete? && p >= k ==> MapPos(ops, p, Right) == MapPos(Advance(ops, k), p - k, Right)
  {
    var r := Advance(ops, k);
    if r != ops[1..] { assert r[1..] == ops[1..]; }
  }

  /** The composition moves a character as the two changes do in turn. */
  predicate FlowsThrough(c: seq<Operation>, i: nat, o: nat, a: seq<Operation>, b: seq<Operation>, p: nat) {
    var m := MapPos(a, p, Right);
    && Kept(c, i + p) == (Kept(a, p) && Kept(b, m))
    && (Kept(c, i + p) ==> MapPos(c, i + p, Right) == o + MapPos(b, m, Right))
  }

  lemma PushLens(ops: seq<Operation>, op: Operation)
    ensures InLen(PushOp(ops, op)) == InLen(ops) + InSize(op)
    ensures OutLen(PushOp(ops, op)) == OutLen(ops) + OutSize(op)
  {
    PushOpMeaning(ops, op, seq(InLen(ops), i => ' '), seq(InSize(op), i => ' '));
  }

  /** Where a character stands after one more push: already placed, inside the
      pushed operation, or still unread. */
  lemma PushPlaces(done: seq<Operation>, op: Operation, p: nat)
    ensures InLen(PushOp(done, op)) == InLen(done) + InSize(op)
    ensures OutLen(PushOp(done, op)) == OutLen(done) + OutSize(op)
    ensures p < InLen(done) ==> SameFlow(PushOp(done, op), done, p)
    ensures InLen(done) <= p < InLen(done) + InSize(op) ==>
      && Kept(PushOp(done, op), p) == op.Retain?
      && (op.Retain? ==> MapPos(PushOp(done, op), p, Right) == OutLen(done) + p - InLen(done))
  {
    PushLens(done, op);
    PushFlow(done, op, p);
    FlowConcat(done, [op], p);
    if p >= InLen(done) { FlowSingle(op, p - InLen(done)); }
  }

  /** Emitting `e` accounts for how the lists `a`, `b` carry the character at
      `q`, with `a'`, `b'` left over. */
  predicate Emits(e: Operation, a: seq<Operation>, b: seq<Operation>, a': seq<Operation>, b': seq<Operation>, q: nat) {
    var m := MapPos(a, q, Right);
    var flows := Kept(a, q) && Kept(b, m);
    if q < InSize(e) then
      flows == e.Retain? && (flows ==> MapPos(b, m, Right) == q)
    else
      var m' := MapPos(a', q - InSize(e), Right);
      && flows == (Kept(a', q - InSize(e)) && Kept(b', m'))
      && (flows ==> MapPos(b, m, Right) == OutSize(e) + MapPos(b', m', Right))
  }

  predicate Carries(c: seq<Operation>, done: seq<Operation>, a: seq<Operation>, b: seq<Operation>, p: nat) {
    if p < InLen(done) then SameFlow(c, done, p)
    else FlowsThrough(c, InLen(done), OutLen(done), a, b, p - InLen(done))
  }

  lemma CarriesBack(c: seq<Operation>, done: seq<Operation>, e: Operation,
                    a: seq<Operation>, b: seq<Operation>, a': seq<Operation>, b': seq<Operation>, p: nat)
    requires Carries(c, PushOp(done, e), a', b', p)
    requires p >= InLen(done) ==> Emits(e, a, b, a', b', p - InLen(done))
    ensures Carries(c, done, a, b, p)
  {
    PushPlaces(done, e, p);
  }

  lemma MeetEmits(a: seq<Operation>, b: seq<Operation>, k: nat, q: nat)
    requires Matched(a, b) && a != [] && b != [] && !a[0].Delete? && !b[0].Insert?
    requires k <= OutSize(a[0]) && k <= InSize(b[0])
    ensures Emits(Meet(a[0], b[0], k), a, b, Advance(a, k), Advance(b, k), q)
  {
    var m := MapPos(a, q, Right);
    FlowAdvance(a, k, q);
    FlowAdvance(b, k, m);
  }

  /** Composition keeps exactly the characters that both changes keep, and
      carries each of them to the same place. */
  lemma {:induction false} ComposedFlow(done: seq<Operation>, a: seq<Operation>, b: seq<Operation>, p: nat)
    requires Matched(a, b)
    ensures Carries(ComposedFrom(done, a, b), done, a, b, p)
    decreases |a| + |b| + OutLen(a)
  {
    var c := ComposedFrom(done, a, b);
    if a != [] && a[0].Delete? {
      ComposedFlow(PushOp(done, a[0]), a[1..], b, p);
      CarriesBack(c, done, a[0], a, b, a[1..], b, p);
    } else if b != [] && b[0].Insert? {
      ComposedFlow(PushOp(done, b[0]), a, b[1..], p);
      CarriesBack(c, done, b[0], a, b, a, b[1..], p);
    } else if a == [] {
      FlowConcat(done, [], p);
      assert done + [] == done && b == [];
    } else {
      MeetHeads(a, b);
      var k := Min(OutSize(a[0]), InSize(b[0]));
      ComposedFlow(PushOp(done, Meet(a[0], b[0], k)), Advance(a, k), Advance(b, k), p);
      MeetCarries(c, done, a, b, k, p);
    }
  }

  lemma MeetCarries(c: seq<Operation>, done: seq<Operation>, a: seq<Operation>, b: seq<Operation>, k: nat, p: nat)
    requires Matched(a, b) && a != [] && b != [] && !a[0].Delete? && !b[0].Insert?
    requires k <= OutSize(a[0]) && k <= InSize(b[0])
    requires Carries(c, PushOp(done, Meet(a[0], b[0], k)), Advance(a, k), Advance(b, k), p)
    ensures Carries(c, done, a, b, p)
  {
    if p >= InLen(done) { MeetEmits(a, b, k, p - InLen(done)); }
    CarriesBack(c, done, Meet(a[0], b[0], k), a, b, Advance(a, k), Advance(b, k), p);
  }

  /** The law for whole changesets. */
  lemma CompositionFlow(first: ChangeSet, second: ChangeSet, p: nat)
    requires Valid(first) && Valid(second) && first.lenAfter == second.len
    ensures var c, m := Composition(first, second).changes, MapPos(first.changes, p, Right);
      && Kept(c, p) == (Kept(first.changes, p) && Kept(second.changes, m))
      && (Kept(c, p) ==> MapPos(c, p, Right) == MapPos(second.changes, m, Right))
  {
    ComposedFlow([], first.changes, second.changes, p);
  }

  lemma {:induction false} PastTheEnd(ops: seq<Operation>, p: nat)
    requires p >= InLen(ops)
    ensures Kept(ops, p) && MapPos(ops, p, Right) == OutLen(ops) + (p - InLen(ops))
  {
    if ops != [] { PastTheEnd(ops[1..], p - InSize(ops[0])); }
  }

  /** The character at `p` survives both changes. */
  predicate Survives(first: seq<Operation>, second: seq<Operation>, p: nat) {
    Kept(first, p) && Kept(second, MapPos(first, p, Right))
  }

  /** The first survivor from `p` on; there is one at the end at the latest. */
  function NextSurvivor(first: seq<Operation>, second: seq<Operation>, p: nat): (q: nat)
    requires OutLen(first) == InLen(second)
    ensures p <= q && Survives(first, second, q)
    ensures forall j: nat :: p <= j < q ==> !Survives(first, second, j)
    decreases InLen(first) - p
  {
    if Survives(first, second, p) then p
    else
      EndSurvives(first, second, p);
      NextSurvivor(first, second, p + 1)
  }

  lemma EndSurvives(first: seq<Operation>, second: seq<Operation>, p: nat)
    requires OutLen(first) == InLen(second)
    ensures p >= InLen(first) ==> Survives(first, second, p)
  {
    if p >= InLen(first) {
      PastTheEnd(first, p);
      PastTheEnd(second, MapPos(first, p, Right));
    }
  }

  lemma CanonicalTail(ops: seq<Operation>)
    requires Canonical(ops) && ops != []
    ensures Canonical(ops[1..])
    ensures ops[0].Delete? && |ops| > 1 ==> ops[1].Retain? && ops[1].n > 0
  {
    forall i | 0 < i < |ops[1..]| ensures Follows(ops[1..][i - 1], ops[1..][i]) {
      assert Follows(ops[i], ops[i + 1]);
    }
    if |ops| > 1 { assert Follows(ops[0], ops[1]) && InSize(ops[1]) + OutSize(ops[1]) > 0; }
  }

  /** In a canonical list nothing is inserted behind a deletion, so a deleted
      position goes where the next kept one goes. */
  lemma {:induction false} DeletedGoesNext(ops: seq<Operation>, p: nat, q: nat)
    requires Canonical(ops) && p <= q && Kept(ops, q)
    requires forall j: nat :: p <= j < q ==> !Kept(ops, j)
    ensures MapPos(ops, p, Right) == MapPos(ops, q, Right)
  {
    if p < q {
      assert !Kept(ops, p);
      CanonicalTail(ops);
      var n := InSize(ops[0]);
      if p < n {
        assert Kept(ops, n);
        assert q == n;
      } else {
        forall j: nat | p - n <= j < q - n ensures !Kept(ops[1..], j) {
          assert !Kept(ops, j + n);
        }
        DeletedGoesNext(ops[1..], p - n, q - n);
      }
    }
  }

  /** `c` treats the character at `p` as `a` followed by `b` does. */
  predicate CarriedAlike(c: seq<Operation>, a: seq<Operation>, b: seq<Operation>, p: nat) {
    && Kept(c, p) == Survives(a, b, p)
    && (Kept(c, p) ==> MapPos(c, p, Right) == MapPos(b, MapPos(a, p, Right), Right))
  }

  lemma PositionThrough(c: seq<Operation>, a: seq<Operation>, b: seq<Operation>, p: nat)
    requires Canonical(c) && OutLen(a) == InLen(b) && forall j: nat :: CarriedAlike(c, a, b, j)
    ensures MapPos(c, p, Right) == MapPos(b, MapPos(a, NextSurvivor(a, b, p), Right), Right)
  {
    var q := NextSurvivor(a, b, p);
    assert CarriedAlike(c, a, b, q);
    forall j: nat | p <= j < q ensures !Kept(c, j) {
      assert CarriedAlike(c, a, b, j);
    }
    DeletedGoesNext(c, p, q);
  }

  /** Where the composition sends any position, kept or deleted, and so exactly
      when that is where the two changes in a row send it. */
  lemma ComposedPosition(first: ChangeSet, second: ChangeSet, p: nat)
    requires Valid(first) && Valid(second) && first.lenAfter == second.len
    ensures var a, b, c := first.changes, second.changes, Composition(first, second).changes;
      var through := MapPos(b, MapPos(a, p, Right), Right);
      var next := MapPos(b, MapPos(a, NextSurvivor(a, b, p), Right), Right);
      && MapPos(c, p, Right) == next
      && (MapPos(c, p, Right) == through <==> through == next)
  {
    var a, b, c := first.changes, second.changes, Composition(first, second).changes;
    CompositionCorrect(first, second);
    forall j: nat ensures CarriedAlike(c, a, b, j) {
      CompositionFlow(first, second, j);
    }
    PositionThrough(c, a, b, p);
  }

  /** The left-biased position behind a deleted character. */
  lemma {:induction false} DeletedLeft(ops: seq<Operation>, p: nat)
    requires !Kept(ops, p)
    ensures MapPos(ops, p + 1, Left) == MapPos(ops, p, Right)
  {
    var n := InSize(ops[0]);
    if p >= n {
      DeletedLeft(ops[1..], p - n);
    } else if p + 1 == n {
      MapPosStart(ops[1..]);
    }
  }

  lemma {:induction false} KeptInside(ops: seq<Operation>, p: nat)
    requires p < InLen(ops) && Kept(ops, p)
    ensures MapPos(ops, p, Right) < OutLen(ops)
  {
    if p >= InSize(ops[0]) { KeptInside(ops[1..], p - InSize(ops[0])); }
  }

  lemma LeftThrough(a: seq<Operation>, b: seq<Operation>, p: nat)
    requires OutLen(a) == InLen(b) && p < InLen(a) && Survives(a, b, p)
    ensures MapPos(b, MapPos(a, p + 1, Left), Left) == MapPos(b, MapPos(a, p, Right), Right) + 1
  {
    MapPosLeft(a, p);
    KeptInside(a, p);
    MapPosLeft(b, MapPos(a, p, Right));
  }

  lemma LeftBehind(c: seq<Operation>, a: seq<Operation>, b: seq<Operation>, p: nat)
    requires OutLen(a) == InLen(b) && InLen(c) == InLen(a) && p < InLen(a) && CarriedAlike(c, a, b, p)
    requires MapPos(c, p, Right) == MapPos(b, MapPos(a, NextSurvivor(a, b, p), Right), Right)
    ensures MapPos(c, p + 1, Left) ==
      if Survives(a, b, p) then MapPos(b, MapPos(a, p + 1, Left), Left)
      else MapPos(b, MapPos(a, NextSurvivor(a, b, p + 1), Right), Right)
  {
    if Survives(a, b, p) {
      LeftThrough(a, b, p);
      MapPosLeft(c, p);
    } else {
      DeletedLeft(c, p);
    }
  }

  lemma ComposedBehind(first: ChangeSet, second: ChangeSet, p: nat)
    requires Valid(first) && Valid(second) && first.lenAfter == second.len && p < first.len
    ensures var a, b := first.changes, second.changes;
      MapPos(Composition(first, second).changes, p + 1, Left) ==
      if Survives(a, b, p) then MapPos(b, MapPos(a, p + 1, Left), Left)
      else MapPos(b, MapPos(a, NextSurvivor(a, b, p + 1), Right), Right)
  {
    CompositionCorrect(first, second);
    CompositionFlow(first, second, p);
    ComposedPosition(first, second, p);
    LeftBehind(Composition(first, second).changes, first.changes, second.changes, p);
  }

  /** The same with left bias.  The law holds at the start and behind every
      character that survives; behind a deleted one the composition goes where
      the next survivor goes. */
  lemma ComposedPositionLeft(first: ChangeSet, second: ChangeSet, p: nat)
    requires Valid(first) && Valid(second) && first.lenAfter == second.len && p <= first.len
    ensures var a, b, c := first.changes, second.changes, Composition(first, second).changes;
      var through := MapPos(b, MapPos(a, p, Left), Left);
      var next := MapPos(b, MapPos(a, NextSurvivor(a, b, p), Right), Right);
      && (p == 0 || Survives(a, b, p - 1) ==> MapPos(c, p, Left) == through)
      && (p > 0 && !Survives(a, b, p - 1) ==>
            MapPos(c, p, Left) == next && (MapPos(c, p, Left) == through <==> through == next))
  {
    if p == 0 {
      MapPosStart(first.changes);
      MapPosStart(second.changes);
      MapPosStart(Composition(first, second).changes);
    } else {
      ComposedBehind(first, second, p - 1);
    }
  }

  /** The law does not extend to characters that are deleted: an insertion is
      kept in front of a deletion it followed. */
  lemma DeletedCharacterMayShift()
    ensures
      var first := ChangeSet([Retain(1), Insert("x"), Retain(1)], 2, 3);
      var second := ChangeSet([Delete(1), Retain(2)], 3, 2);
      && Valid(first) && Valid(second)
      && MapPos(second.changes, MapPos(first.changes, 0, Right), Right) == 0
      && MapPos(Composition(first, second).changes, 0, Right) == 1
      && MapPos(second.changes, MapPos(first.changes, 1, Left), Left) == 0
      && MapPos(Composition(first, second).changes, 1, Left) == 1
  {
    ShiftedComposition();
    var first, second := [Retain(1), Insert("x"), Retain(1)], [Delete(1), Retain(2)];
    assert first[1..] == [Insert("x"), Retain(1)] && [Insert("x"), Retain(1)][1..] == [Retain(1)];
    assert second[1..] == [Retain(2)];
  }

  lemma ShiftedComposition()
    ensures var first, second := [Retain(1), Insert("x"), Retain(1)], [Delete(1), Retain(2)];
      Matched(first, second) && ComposedFrom([], first, second) == [Insert("x"), Delete(1), Retain(1)]
  {
    var first, second := [Retain(1), Insert("x"), Retain(1)], [Delete(1), Retain(2)];
    assert first[1..] == [Insert("x"), Retain(1)] && second[1..] == [Retain(2)];
    ShiftedTail();
    assert OutLen(first) == 3 && InLen(second) == 3;
    assert Advance(first, 1) == [Insert("x"), Retain(1)] && Advance(second, 1) == [Retain(2)];
    assert PushOp([], Delete(1)) == [Delete(1)];
  }

  lemma ShiftedTail()
    ensures Matched([Insert("x"), Retain(1)], [Retain(2)])
    ensures OutLen([Insert("x"), Retain(1)]) == 2 == InLen([Retain(2)])
    ensures ComposedFrom([Delete(1)], [Insert("x"), Retain(1)], [Retain(2)]) == [Insert("x"), Delete(1), Retain(1)]
  {
    var a := [Insert("x"), Retain(1)];
    assert a[1..] == [Retain(1)] && OutLen([Retain(1)]) == 1;
    assert Advance(a, 1) == [Retain(1)] && Advance([Retain(2)], 1) == [Retain(1)];
    assert PushOp([Delete(1)], Insert("x")) == [Insert("x"), Delete(1)];
    assert PushOp([Insert("x"), Delete(1)], Retain(1)) == [Insert("x"), Delete(1), Retain(1)];
    assert ComposedFrom([Insert("x"), Delete(1)], [Retain(1)], [Retain(1)]) == [Insert("x"), Delete(1), Retain(1)];
    assert Meet(Insert("x"), Retain(2), 1) == Insert("x") by { assert "x"[..1] == "x"; }
  }
}
