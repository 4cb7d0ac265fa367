/** Canonical invocation records: constructors and the validating normaliser
(crates/invocation/src/schema.rs), and their agreement with the effect decoder
(crates/invocation/src/nu.rs). */
module InvocationSchema {
  import opened Prelude
  import opened NuValues
  import opened NuEffects

  datatype Limits = Limits(maxInvocations: nat, maxArgs: nat, maxStringLen: nat, maxActionCount: nat)

  const DEFAULT_LIMITS := Limits(256, 64, 4096, 10_000)

  /** A decode budget that shares the limits, as the defaults do. */
  predicate Shares(b: Budget, limits: Limits) {
    && b.maxArgs == limits.maxArgs
    && b.maxStringLen == limits.maxStringLen
    && b.maxActionCount == limits.maxActionCount
  }

  // ---------------------------------------------------------------------
  // Constructors
  // ---------------------------------------------------------------------

  function CharValue(c: Option<char>): Value { if c.Some? then Str([c.value]) else Nothing }

  function ActionRecord(name: string, count: int, extend: bool, register: Option<char>, charArg: Option<char>): Rec {
    [Field(KIND, Str(KIND_ACTION)), Field(NAME, Str(name)), Field(COUNT, Int(count)), Field(EXTEND, Bool(extend)),
     Field(REGISTER, CharValue(register))]
    + (if charArg.Some? then [Field(CHAR, Str([charArg.value]))] else [])
  }

  function InvocationRecord(kind: string, name: string, args: seq<string>): Rec {
    [Field(KIND, Str(kind)), Field(NAME, Str(name)), Field(ARGS, List(Strings(args)))]
  }

  /** The record of an invocation; no record names the registry-only route. */
  function RecordOf(i: Invocation): Rec {
    if IsAction(i) then ActionRecord(i.name, i.count, i.extend, i.register, CharArg(i))
    else InvocationRecord(KindText(KindOf(i)), i.name, i.args)
  }

  /** As `xeno effect dispatch` tags it. */
  function Tagged(rec: Rec): Rec { Push(rec, TYPE, Str(DISPATCH)) }

  // ---------------------------------------------------------------------
  // The validator
  // ---------------------------------------------------------------------

  function ValString(v: Option<Value>, limits: Limits): (r: Result<string, Rejected>)
    ensures r.Ok? ==> v == Some(Str(r.value)) && ByteLen(r.value) <= limits.maxStringLen
  {
    match v
    case Some(Str(s)) => if ByteLen(s) > limits.maxStringLen then Err(Rejected.Rejected) else Ok(s)
    case _ => Err(Rejected.Rejected)
  }

  function AtMost(count: nat, limits: Limits): Result<nat, Rejected> {
    if count > limits.maxActionCount then Err(Rejected.Rejected) else Ok(count)
  }

  /** A missing count is one, and so is any count below one. */
  function ValCount(v: Option<Value>, limits: Limits): Result<nat, Rejected> {
    match v
    case None => AtMost(1, limits)
    case Some(Nothing) => AtMost(1, limits)
    case Some(Int(n)) => AtMost(if n < 1 then 1 else n, limits)
    case Some(_) => Err(Rejected.Rejected)
  }

  function ValChar(v: Option<Value>): Result<Option<char>, Rejected> {
    match v
    case None => Ok(None)
    case Some(Nothing) => Ok(None)
    case Some(Str(s)) => if |s| != 1 then Err(Rejected.Rejected) else Ok(Some(s[0]))
    case Some(_) => Err(Rejected.Rejected)
  }

  function ValArgs(v: Option<Value>, limits: Limits): Result<seq<string>, Rejected> {
    match v
    case None => Ok([])
    case Some(Nothing) => Ok([])
    case Some(List(items)) =>
      if |items| > limits.maxArgs then Err(Rejected.Rejected) else Texts(items, limits.maxStringLen)
    case Some(_) => Err(Rejected.Rejected)
  }

  /** The loop of `val_optional_string_list`. */
  method CollectArgs(items: seq<Value>, limits: Limits) returns (r: Result<seq<string>, Rejected>)
    ensures r == Texts(items, limits.maxStringLen)
  {
    var out: seq<string> := [];
    for i := 0 to |items|
      invariant |out| == i
      invariant forall j :: 0 <= j < i ==> TextFits(items[j], limits.maxStringLen) && items[j] == Str(out[j])
    {
      if !items[i].Str? || ByteLen(items[i].s) > limits.maxStringLen {
        TextsRefuse(items, i, limits.maxStringLen);
        return Err(Rejected.Rejected);
      }
      out := out + [items[i].s];
    }
    TextsAre(items, out, limits.maxStringLen);
    r := Ok(out);
  }

  /** The invocation whose record an action is normalised to. */
  function NormalAction(name: string, f: DispatchFields, limits: Limits): Result<Invocation, Rejected> {
    var count, extend := ValCount(f.count, limits), OptionalBool(f.extend);
    var register, charArg := ValChar(f.register), ValChar(f.charArg);
    if count.Err? || extend.Err? || register.Err? || charArg.Err? then Err(Rejected.Rejected)
    else Ok(MakeAction(name, count.value, extend.value == Some(true), register.value, charArg.value))
  }

  function Normal(f: DispatchFields, limits: Limits): Result<Invocation, Rejected> {
    var kind, name := ValString(f.kind, limits), ValString(f.name, limits);
    if kind.Err? || name.Err? || name.value == "" then Err(Rejected.Rejected)
    else NormalKind(ParseKind(kind.value), name.value, f, limits)
  }

  function NormalKind(kind: Option<Kind>, name: string, f: DispatchFields, limits: Limits):
    Result<Invocation, Rejected>
  {
    match kind
    case Some(ActionKind) => NormalAction(name, f, limits)
    case Some(k) =>
      var args := ValArgs(f.args, limits);
      if args.Err? then Err(Rejected.Rejected) else Ok(MakeWithArgs(k, name, args.value))
    case None => Err(Rejected.Rejected)
  }

  /** `validate_invocation_record`. */
  function Validate(rec: Rec, limits: Limits): Result<Rec, Rejected> {
    var i := Normal(FieldsOf(rec), limits);
    if i.Err? then Err(Rejected.Rejected) else Ok(RecordOf(i.value))
  }

  // ---------------------------------------------------------------------
  // Reading constructed records
  // ---------------------------------------------------------------------

  lemma {:induction false} GetAt(rec: Rec, i: nat, key: string)
    requires UniqueKeys(rec) && i < |rec| && rec[i].key == key
    ensures Get(rec, key) == Some(rec[i].value)
  {
    if i > 0 {
      assert rec[0].key != rec[i].key;
      GetAt(rec[1..], i - 1, key);
    }
  }

  predicate HasKey(rec: Rec, key: string) { exists i :: 0 <= i < |rec| && rec[i].key == key }

  lemma GetNone(rec: Rec, key: string)
    requires !HasKey(rec, key)
    ensures Get(rec, key) == None
  {
    if Get(rec, key).Some? { assert HasKey(rec, key); }
  }

  lemma KeysDiffer()
    ensures KIND != NAME && KIND != ARGS && KIND != COUNT && KIND != EXTEND && KIND != REGISTER && KIND != CHAR
    ensures NAME != ARGS && NAME != COUNT && NAME != EXTEND && NAME != REGISTER && NAME != CHAR
    ensures ARGS != COUNT && ARGS != EXTEND && ARGS != REGISTER && ARGS != CHAR
    ensures COUNT != EXTEND && COUNT != REGISTER && COUNT != CHAR
    ensures EXTEND != REGISTER && EXTEND != CHAR && REGISTER != CHAR
    ensures TYPE !in {KIND, NAME, ARGS, COUNT, EXTEND, REGISTER, CHAR}
  {
    assert KIND[0] == 'k' && NAME[0] == 'n' && ARGS[0] == 'a' && CHAR[0] == 'c' && TYPE[0] == 't';
    assert |COUNT| == 5 && |EXTEND| == 6 && |REGISTER| == 8;
  }

  function FieldsOfAction(i: Invocation): DispatchFields
    requires IsAction(i)
  {
    DispatchFields(Some(Str(KIND_ACTION)), Some(Str(i.name)), None, Some(Int(i.count)), Some(Bool(i.extend)),
                   Some(CharValue(i.register)), if CharArg(i).Some? then Some(Str([CharArg(i).value])) else None)
  }

  lemma ActionFields(i: Invocation)
    requires IsAction(i)
    ensures FieldsOf(RecordOf(i)) == FieldsOfAction(i) && Get(RecordOf(i), TYPE) == None
  {
    var rec := RecordOf(i);
    ActionKeys(i);
    GetAt(rec, 0, KIND);
    GetAt(rec, 1, NAME);
    GetAt(rec, 2, COUNT);
    GetAt(rec, 3, EXTEND);
    GetAt(rec, 4, REGISTER);
    if CharArg(i).Some? { GetAt(rec, 5, CHAR); } else { GetNone(rec, CHAR); }
    GetNone(rec, ARGS);
    GetNone(rec, TYPE);
  }

  lemma ActionKeys(i: Invocation)
    requires IsAction(i)
    ensures var rec := RecordOf(i);
      && |rec| == (if CharArg(i).Some? then 6 else 5) && UniqueKeys(rec)
      && rec[0] == Field(KIND, Str(KIND_ACTION)) && rec[1] == Field(NAME, Str(i.name))
      && rec[2] == Field(COUNT, Int(i.count)) && rec[3] == Field(EXTEND, Bool(i.extend))
      && rec[4] == Field(REGISTER, CharValue(i.register))
      && (CharArg(i).Some? ==> rec[5] == Field(CHAR, Str([CharArg(i).value])))
      && !HasKey(rec, ARGS) && !HasKey(rec, TYPE) && (CharArg(i).None? ==> !HasKey(rec, CHAR))
  {
    KeysDiffer();
    UniqueSix(RecordOf(i), KIND, NAME, COUNT, EXTEND, REGISTER, CHAR);
  }

  lemma UniqueSix(rec: Rec, a: string, b: string, c: string, d: string, e: string, f: string)
    requires 5 <= |rec| <= 6
    requires rec[0].key == a && rec[1].key == b && rec[2].key == c && rec[3].key == d && rec[4].key == e
    requires |rec| == 6 ==> rec[5].key == f
    requires a !in {b, c, d, e, f} && b !in {c, d, e, f} && c !in {d, e, f} && d !in {e, f} && e != f
    ensures UniqueKeys(rec)
  {
  }

  function FieldsWithArgs(i: Invocation): DispatchFields
    requires !IsAction(i)
  {
    DispatchFields(Some(Str(KindText(KindOf(i)))), Some(Str(i.name)), Some(List(Strings(i.args))),
                   None, None, None, None)
  }

  lemma ArgsFields(i: Invocation)
    requires !IsAction(i)
    ensures FieldsOf(RecordOf(i)) == FieldsWithArgs(i) && Get(RecordOf(i), TYPE) == None
  {
    var rec := RecordOf(i);
    ArgsKeys(i);
    GetAt(rec, 0, KIND);
    GetAt(rec, 1, NAME);
    GetAt(rec, 2, ARGS);
    GetNone(rec, COUNT);
    GetNone(rec, EXTEND);
    GetNone(rec, REGISTER);
    GetNone(rec, CHAR);
    GetNone(rec, TYPE);
  }

  lemma ArgsKeys(i: Invocation)
    requires !IsAction(i)
    ensures var rec := RecordOf(i);
      && |rec| == 3 && UniqueKeys(rec)
      && rec[0].key == KIND && rec[1].key == NAME && rec[2].key == ARGS
      && !HasKey(rec, COUNT) && !HasKey(rec, EXTEND) && !HasKey(rec, REGISTER)
      && !HasKey(rec, CHAR) && !HasKey(rec, TYPE)
  {
    KeysDiffer();
  }

  lemma TextsOfStrings(args: seq<string>, maxLen: nat)
    ensures Texts(Strings(args), maxLen).Ok? <==> forall i :: 0 <= i < |args| ==> ByteLen(args[i]) <= maxLen
    ensures Texts(Strings(args), maxLen).Ok? ==> Texts(Strings(args), maxLen).value == args
  {
    var items := Strings(args);
    assert forall i :: 0 <= i < |args| ==> (TextFits(items[i], maxLen) <==> ByteLen(args[i]) <= maxLen);
    if Texts(items, maxLen).Ok? {
      forall i | 0 <= i < |args| ensures Texts(items, maxLen).value[i] == args[i] {
        assert items[i] == Str(args[i]);
      }
    }
  }

  // ---------------------------------------------------------------------
  // What the validator returns
  // ---------------------------------------------------------------------

  predicate Short(s: string, limits: Limits) { ByteLen(s) <= limits.maxStringLen }

  predicate ArgsShort(args: seq<string>, limits: Limits) {
    |args| <= limits.maxArgs && forall i :: 0 <= i < |args| ==> ByteLen(args[i]) <= limits.maxStringLen
  }

  /** The invocations whose records are in normal form. */
  predicate Admissible(i: Invocation, limits: Limits) {
    && Short(KindText(KindOf(i)), limits) && Short(i.name, limits) && i.name != ""
    && (IsAction(i) ==> 1 <= i.count <= limits.maxActionCount)
    && (!IsAction(i) ==> ArgsShort(i.args, limits) && !(i.Command? && i.route.Registry?))
  }

  lemma ActionAdmissible(name: string, f: DispatchFields, limits: Limits)
    requires Short(KIND_ACTION, limits) && Short(name, limits) && name != ""
    ensures NormalAction(name, f, limits).Ok? ==> Admissible(NormalAction(name, f, limits).value, limits)
  {
    var i := NormalAction(name, f, limits);
    assert i.Ok? ==> KindText(KindOf(i.value)) == KIND_ACTION && i.value.name == name;
  }

  lemma ArgsAdmissible(k: Kind, name: string, args: seq<string>, limits: Limits)
    requires !k.ActionKind? && Short(KindText(k), limits) && Short(name, limits) && name != ""
    requires ArgsShort(args, limits)
    ensures Admissible(MakeWithArgs(k, name, args), limits)
  {
    assert KindOf(MakeWithArgs(k, name, args)) == k;
  }

  /** Every validated record is the record of an admissible invocation. */
  lemma NormalAdmissible(f: DispatchFields, limits: Limits)
    ensures Normal(f, limits).Ok? ==> Admissible(Normal(f, limits).value, limits)
  {
    var kind, name := ValString(f.kind, limits), ValString(f.name, limits);
    if kind.Ok? && name.Ok? && name.value != "" {
      match ParseKind(kind.value)
      case Some(ActionKind) => ActionAdmissible(name.value, f, limits);
      case Some(k) =>
        ArgsAreShort(f.args, limits);
        if ValArgs(f.args, limits).Ok? { ArgsAdmissible(k, name.value, ValArgs(f.args, limits).value, limits); }
      case None =>
    }
  }

  lemma ArgsAreShort(v: Option<Value>, limits: Limits)
    ensures ValArgs(v, limits).Ok? ==> ArgsShort(ValArgs(v, limits).value, limits)
  {
    if ValArgs(v, limits).Ok? && v.Some? && v.value.List? {
      var items := v.value.items;
      assert forall i :: 0 <= i < |items| ==> TextFits(items[i], limits.maxStringLen);
    }
  }

  lemma NormalOfAction(i: Invocation, limits: Limits)
    requires IsAction(i) && Admissible(i, limits)
    ensures Normal(FieldsOfAction(i), limits) == Ok(i)
  {
    KindRoundTrip(ActionKind);
    var f := FieldsOfAction(i);
    assert ValChar(f.register) == Ok(i.register) && ValChar(f.charArg) == Ok(CharArg(i));
    assert NormalAction(i.name, f, limits) == Ok(i);
  }

  lemma NormalOfKind(f: DispatchFields, k: Kind, text: string, name: string, args: seq<string>, limits: Limits)
    requires !k.ActionKind? && ParseKind(text) == Some(k)
    requires Short(text, limits) && Short(name, limits) && name != "" && ArgsShort(args, limits)
    requires f.kind == Some(Str(text)) && f.name == Some(Str(name)) && f.args == Some(List(Strings(args)))
    ensures Normal(f, limits) == Ok(MakeWithArgs(k, name, args))
  {
    TextsOfStrings(args, limits.maxStringLen);
    assert ValArgs(f.args, limits) == Ok(args);
  }

  lemma NormalWithArgs(i: Invocation, limits: Limits)
    requires !IsAction(i) && Admissible(i, limits)
    ensures Normal(FieldsWithArgs(i), limits) == Ok(i)
  {
    KindRoundTrip(KindOf(i));
    NormalOfKind(FieldsWithArgs(i), KindOf(i), KindText(KindOf(i)), i.name, i.args, limits);
  }

  /** Normal form is a fixed point. */
  lemma NormalOfRecord(i: Invocation, limits: Limits)
    requires Admissible(i, limits)
    ensures Normal(FieldsOf(RecordOf(i)), limits) == Ok(i)
  {
    if IsAction(i) {
      ActionFields(i);
      NormalOfAction(i, limits);
    } else {
      ArgsFields(i);
      NormalWithArgs(i, limits);
    }
  }

  /** Validation is idempotent. */
  lemma ValidateTwice(rec: Rec, limits: Limits)
    requires Validate(rec, limits).Ok?
    ensures Validate(Validate(rec, limits).value, limits) == Validate(rec, limits)
  {
    NormalAdmissible(FieldsOf(rec), limits);
    NormalOfRecord(Normal(FieldsOf(rec), limits).value, limits);
  }

  // ---------------------------------------------------------------------
  // Agreement with the decoder
  // ---------------------------------------------------------------------

  /** Where the two readings of the same fields differ: the validator raises a
      negative count to one and does not measure the character fields, and it
      wants a raised count within the limit too. */
  predicate NegativeCount(f: DispatchFields) { f.count.Some? && f.count.value.Int? && f.count.value.n < 0 }

  predicate CharFits(v: Option<Value>, limits: Limits) {
    v.Some? && v.value.Str? ==> ByteLen(v.value.s) <= limits.maxStringLen
  }

  predicate Measured(f: DispatchFields, limits: Limits) {
    !NegativeCount(f) && CharFits(f.register, limits) && CharFits(f.charArg, limits)
  }

  lemma SameAction(name: string, f: DispatchFields, limits: Limits, b: Budget)
    requires Shares(b, limits)
    ensures NormalAction(name, f, limits).Ok? ==> (DecodeAction(name, f, b).Ok? <==> Measured(f, limits))
    ensures DecodeAction(name, f, b).Ok? ==> (NormalAction(name, f, limits).Ok? <==> limits.maxActionCount >= 1)
    ensures NormalAction(name, f, limits).Ok? && DecodeAction(name, f, b).Ok? ==>
      NormalAction(name, f, limits) == DecodeAction(name, f, b)
  {
    assert OptionalChar(f.register, b).Ok? <==> ValChar(f.register).Ok? && CharFits(f.register, limits);
    assert OptionalChar(f.charArg, b).Ok? <==> ValChar(f.charArg).Ok? && CharFits(f.charArg, limits);
    assert OptionalCount(f.count, b).Ok? && limits.maxActionCount >= 1 ==> ValCount(f.count, limits).Ok?;
    assert ValCount(f.count, limits).Ok? ==> limits.maxActionCount >= 1;
    assert ValCount(f.count, limits).Ok? ==> (OptionalCount(f.count, b).Ok? <==> !NegativeCount(f));
  }

  lemma SameArgs(v: Option<Value>, limits: Limits, b: Budget)
    requires Shares(b, limits)
    ensures ValArgs(v, limits) == OptionalTexts(v, b)
  {
  }

  lemma SameText(v: Option<Value>, limits: Limits, b: Budget)
    requires Shares(b, limits)
    ensures RequiredText(v, b, false) ==
      if ValString(v, limits).Ok? && ValString(v, limits).value != "" then ValString(v, limits)
      else Err(Rejected.Rejected)
  {
  }

  predicate SaysAction(f: DispatchFields) { f.kind == Some(Str(KIND_ACTION)) }

  lemma SaysKind(f: DispatchFields, text: string)
    requires f.kind == Some(Str(text))
    ensures SaysAction(f) <==> ParseKind(text) == Some(ActionKind)
    ensures text == "" ==> ParseKind(text) == None
  {
    if ParseKind(text).Some? { KindRoundTrip(ParseKind(text).value); }
  }

  /** The validator and the decoder read the same invocation out of the same
      fields; for all fields and limits, when one of them does, the other does
      exactly under the condition given. */
  lemma SameReading(f: DispatchFields, limits: Limits, b: Budget)
    requires Shares(b, limits)
    ensures Normal(f, limits).Ok? ==> (DecodeFields(f, b).Ok? <==> SaysAction(f) ==> Measured(f, limits))
    ensures DecodeFields(f, b).Ok? ==> (Normal(f, limits).Ok? <==> SaysAction(f) ==> limits.maxActionCount >= 1)
    ensures Normal(f, limits).Ok? && DecodeFields(f, b).Ok? ==> Normal(f, limits) == DecodeFields(f, b)
  {
    var kind, name := ValString(f.kind, limits), ValString(f.name, limits);
    SameText(f.kind, limits, b);
    SameText(f.name, limits, b);
    if kind.Ok? && name.Ok? && name.value != "" {
      SaysKind(f, kind.value);
      SameKind(ParseKind(kind.value), name.value, f, limits, b);
    }
  }

  lemma SameKind(kind: Option<Kind>, name: string, f: DispatchFields, limits: Limits, b: Budget)
    requires Shares(b, limits)
    ensures var n, d := NormalKind(kind, name, f, limits), DecodeKind(kind, name, f, b);
      && (n.Ok? ==> (d.Ok? <==> kind == Some(ActionKind) ==> Measured(f, limits)))
      && (d.Ok? ==> (n.Ok? <==> kind == Some(ActionKind) ==> limits.maxActionCount >= 1))
      && (n.Ok? && d.Ok? ==> n == d)
  {
    match kind
    case Some(ActionKind) => SameAction(name, f, limits, b);
    case Some(_) => SameArgs(f.args, limits, b);
    case None =>
  }

  lemma DispatchLen()
    ensures ByteLen(DISPATCH) == 8
  {
    calc {
      ByteLen("dispatch");
      { assert "dispatch"[1..] == "ispatch"; }
      1 + ByteLen("ispatch");
      { assert "ispatch"[1..] == "spatch"; }
      2 + ByteLen("spatch");
      { assert "spatch"[1..] == "patch"; }
      3 + ByteLen("patch");
      { assert "patch"[1..] == "atch"; }
      4 + ByteLen("atch");
      { assert "atch"[1..] == "tch"; }
      5 + ByteLen("tch");
      { assert "tch"[1..] == "ch"; }
      6 + ByteLen("ch");
      { assert "ch"[1..] == "h"; }
      7 + ByteLen("h");
      { assert "h"[1..] == ""; }
      8;
    }
  }

  /** The tag adds a type and leaves the invocation's fields alone. */
  lemma TaggedFields(rec: Rec)
    requires Get(rec, TYPE) == None
    ensures FieldsOf(Tagged(rec)) == FieldsOf(rec) && Get(Tagged(rec), TYPE) == Some(Str(DISPATCH))
  {
    KeysDiffer();
    GetPush(rec, TYPE, Str(DISPATCH), TYPE);
    GetPush(rec, TYPE, Str(DISPATCH), KIND);
    GetPush(rec, TYPE, Str(DISPATCH), NAME);
    GetPush(rec, TYPE, Str(DISPATCH), ARGS);
    GetPush(rec, TYPE, Str(DISPATCH), COUNT);
    GetPush(rec, TYPE, Str(DISPATCH), EXTEND);
    GetPush(rec, TYPE, Str(DISPATCH), REGISTER);
    GetPush(rec, TYPE, Str(DISPATCH), CHAR);
  }

  lemma TaggedDecodes(rec: Rec, b: Budget, surface: Surface)
    requires Get(rec, TYPE) == None
    ensures b.maxStringLen < 8 ==> DecodeRecord(Tagged(rec), b, surface).Err?
    ensures b.maxStringLen >= 8 && DecodeDispatch(rec, b).Ok? ==>
      DecodeRecord(Tagged(rec), b, surface) == Ok(Dispatch(DecodeDispatch(rec, b).value))
  {
    TaggedFields(rec);
    DispatchTyped(Tagged(rec), b, surface);
  }

  lemma DispatchTyped(rec: Rec, b: Budget, surface: Surface)
    requires Get(rec, TYPE) == Some(Str(DISPATCH))
    ensures b.maxStringLen < 8 ==> DecodeRecord(rec, b, surface).Err?
    ensures b.maxStringLen >= 8 ==> DecodeRecord(rec, b, surface) == DecodeTyped(DispatchType, rec, b, surface)
  {
    DispatchLen();
    assert |DISPATCH| == 8;
    assert RequiredText(Get(rec, TYPE), b, false) ==
           if b.maxStringLen < 8 then Err(Rejected.Rejected) else Ok(DISPATCH);
  }

  lemma RecordIsMeasured(i: Invocation, limits: Limits)
    requires limits.maxStringLen >= 8
    ensures SaysAction(FieldsOf(RecordOf(i))) ==> Measured(FieldsOf(RecordOf(i)), limits)
    ensures Get(RecordOf(i), TYPE) == None
  {
    if IsAction(i) {
      ActionFields(i);
      if i.register.Some? { OneChar(i.register.value); }
      if i.ActionWithChar? { OneChar(i.charArg); }
    } else {
      ArgsFields(i);
      KindRoundTrip(KindOf(i));
      SaysKind(FieldsOf(RecordOf(i)), KindText(KindOf(i)));
    }
  }

  lemma DecodeRecordOf(i: Invocation, limits: Limits, b: Budget, surface: Surface)
    requires Admissible(i, limits) && Shares(b, limits) && limits.maxStringLen >= 8
    ensures DecodeRecord(Tagged(RecordOf(i)), b, surface) == Ok(Dispatch(i))
  {
    NormalOfRecord(i, limits);
    RecordIsMeasured(i, limits);
    SameReading(FieldsOf(RecordOf(i)), limits, b);
    TaggedDecodes(RecordOf(i), b, surface);
  }

  /** A validated record, tagged, decodes to the invocation whose record it is,
      exactly when the limits leave room for the tag itself. */
  lemma ValidatedDecodes(rec: Rec, limits: Limits, b: Budget, surface: Surface) returns (i: Invocation)
    requires Validate(rec, limits).Ok? && Shares(b, limits)
    ensures Validate(rec, limits) == Ok(RecordOf(i))
    ensures DecodeRecord(Tagged(RecordOf(i)), b, surface).Ok? <==> limits.maxStringLen >= 8
    ensures limits.maxStringLen >= 8 ==> DecodeRecord(Tagged(RecordOf(i)), b, surface) == Ok(Dispatch(i))
  {
    i := Normal(FieldsOf(rec), limits).value;
    NormalAdmissible(FieldsOf(rec), limits);
    if limits.maxStringLen >= 8 {
      DecodeRecordOf(i, limits, b, surface);
    } else {
      if IsAction(i) { ActionFields(i); } else { ArgsFields(i); }
      TaggedDecodes(RecordOf(i), b, surface);
    }
  }

  /** Whatever the decoder dispatches, the validator accepts and normalises to the
      record of that invocation, which decodes to it again: always for commands
      and macros, and for actions exactly when the limits admit a count of one. */
  lemma DecodedValidates(rec: Rec, i: Invocation, limits: Limits, b: Budget, surface: Surface)
    requires Shares(b, limits)
    ensures DecodeRecord(rec, b, surface) == Ok(Dispatch(i)) ==>
      && (Validate(rec, limits).Ok? <==> SaysAction(FieldsOf(rec)) ==> limits.maxActionCount >= 1)
      && (Validate(rec, limits).Ok? ==>
            && Validate(rec, limits) == Ok(RecordOf(i))
            && DecodeRecord(Tagged(RecordOf(i)), b, surface) == Ok(Dispatch(i)))
  {
    if DecodeRecord(rec, b, surface) == Ok(Dispatch(i)) {
      DispatchOnly(rec, i, b, surface);
      SameReading(FieldsOf(rec), limits, b);
      if Validate(rec, limits).Ok? {
        NormalAdmissible(FieldsOf(rec), limits);
        DecodeRecordOf(i, limits, b, surface);
      }
    }
  }

  lemma DispatchOnly(rec: Rec, i: Invocation, b: Budget, surface: Surface)
    ensures DecodeRecord(rec, b, surface) == Ok(Dispatch(i)) ==>
      DecodeDispatch(rec, b) == Ok(i) && b.maxStringLen >= 8
  {
    var text := RequiredText(Get(rec, TYPE), b, false);
    if text.Ok? {
      DispatchText(text.value);
      match ParseType(text.value)
      case Some(kind) => TypeTells(kind, rec, i, b, surface);
      case None =>
    }
  }

  lemma DispatchText(text: string)
    ensures ParseType(text) == Some(DispatchType) ==> ByteLen(text) == 8
  {
    if text == DISPATCH { DispatchLen(); }
  }

  lemma TypeTells(kind: EffectType, rec: Rec, i: Invocation, b: Budget, surface: Surface)
    ensures DecodeTyped(kind, rec, b, surface) == Ok(Dispatch(i)) ==>
      kind.DispatchType? && DecodeDispatch(rec, b) == Ok(i)
  {
    match kind
    case DispatchType =>
    case _ =>
  }

  /** For instance, every negative count under the default limits. */
  lemma NegativeCountIsRaised(f: DispatchFields)
    requires NegativeCount(f) && SaysAction(f) && Normal(f, DEFAULT_LIMITS).Ok?
    ensures Normal(f, DEFAULT_LIMITS).value.count == 1 && DecodeFields(f, MACRO_DEFAULTS).Err?
  {
    KindRoundTrip(ActionKind);
    SameReading(f, DEFAULT_LIMITS, MACRO_DEFAULTS);
  }
}
