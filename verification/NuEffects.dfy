/** Decoding the return value of a Nu macro or hook into typed effects
(crates/invocation/src/nu.rs).

The decoder is the class `DecodeState`.  Its field readers and record decoders are
proved against `DecodeRecord`, its traversal against `Flatten`, which knows no
budget.  Error texts are reduced to `Rejected`.
 */
module NuEffects {
  import opened Prelude
  import opened NuValues

  const MAX_SCHEDULE_DELAY_MS := 3_600_000
  const EFFECT_SCHEMA_VERSION := 1

  const TYPE := "type"
  const EFFECTS := "effects"
  const SCHEMA_VERSION := "schema_version"
  const WARNINGS := "warnings"
  const DISPATCH := "dispatch"

  datatype Budget = Budget(maxEffects: nat, maxStringLen: nat, maxArgs: nat, maxActionCount: nat, maxNodes: nat)

  datatype Surface = Macro | Hook

  datatype NotifyLevel = Debug | Info | Warn | Error | Success

  datatype EditOp = ReplaceSelection | ReplaceLine

  datatype Effect =
    | Dispatch(invocation: Invocation)
    | Notify(level: NotifyLevel, message: string)
    | StopPropagation
    | EditText(op: EditOp, text: string)
    | SetClipboard(text: string)
    | StateSet(key: string, value: string)
    | StateUnset(key: string)
    | ScheduleSet(key: string, delayMs: nat, macroName: string, args: seq<string>)
    | ScheduleCancel(key: string)

  datatype Rejected = Rejected

  // ---------------------------------------------------------------------
  // Field readers
  // ---------------------------------------------------------------------

  function RequiredText(v: Option<Value>, b: Budget, allowEmpty: bool): (r: Result<string, Rejected>)
    ensures r.Ok? ==> v == Some(Str(r.value)) && ByteLen(r.value) <= b.maxStringLen
    ensures r.Ok? && !allowEmpty ==> r.value != ""
  {
    match v
    case Some(Str(s)) =>
      if ByteLen(s) > b.maxStringLen || (s == "" && !allowEmpty) then Err(Rejected.Rejected) else Ok(s)
    case _ => Err(Rejected.Rejected)
  }

  function RequiredU64(v: Option<Value>): (r: Result<nat, Rejected>)
    ensures r.Ok? ==> v == Some(Int(r.value))
  {
    match v
    case Some(Int(n)) => if n >= 0 then Ok(n) else Err(Rejected.Rejected)
    case _ => Err(Rejected.Rejected)
  }

  function OptionalCount(v: Option<Value>, b: Budget): (r: Result<Option<nat>, Rejected>)
    ensures r.Ok? && r.value.Some? ==> r.value.value <= b.maxActionCount
  {
    match v
    case None => Ok(None)
    case Some(Nothing) => Ok(None)
    case Some(Int(n)) => if n < 0 || n > b.maxActionCount then Err(Rejected.Rejected) else Ok(Some(n))
    case Some(_) => Err(Rejected.Rejected)
  }

  function OptionalBool(v: Option<Value>): Result<Option<bool>, Rejected> {
    match v
    case None => Ok(None)
    case Some(Nothing) => Ok(None)
    case Some(Bool(flag)) => Ok(Some(flag))
    case Some(_) => Err(Rejected.Rejected)
  }

  function OptionalChar(v: Option<Value>, b: Budget): Result<Option<char>, Rejected> {
    match v
    case None => Ok(None)
    case Some(Nothing) => Ok(None)
    case Some(Str(s)) =>
      if ByteLen(s) > b.maxStringLen || |s| != 1 then Err(Rejected.Rejected) else Ok(Some(s[0]))
    case Some(_) => Err(Rejected.Rejected)
  }

  predicate TextFits(v: Value, maxLen: nat) { v.Str? && ByteLen(v.s) <= maxLen }

  /** The strings of a list, each within the limit. */
  function Texts(items: seq<Value>, maxLen: nat): (r: Result<seq<string>, Rejected>)
    ensures r.Ok? <==> forall i :: 0 <= i < |items| ==> TextFits(items[i], maxLen)
    ensures r.Ok? ==> |r.value| == |items|
    ensures r.Ok? ==> forall i :: 0 <= i < |items| ==> items[i] == Str(r.value[i])
  {
    if items == [] then Ok([])
    else if !TextFits(items[0], maxLen) then Err(Rejected.Rejected)
    else
      var rest := Texts(items[1..], maxLen);
      if rest.Err? then rest else Ok([items[0].s] + rest.value)
  }

  lemma TextsRefuse(items: seq<Value>, i: nat, maxLen: nat)
    requires i < |items| && !TextFits(items[i], maxLen)
    ensures Texts(items, maxLen) == Err(Rejected.Rejected)
  {
    assert Texts(items, maxLen).error.Rejected?;
  }

  lemma TextsAre(items: seq<Value>, out: seq<string>, maxLen: nat)
    requires |out| == |items|
    requires forall j :: 0 <= j < |items| ==> TextFits(items[j], maxLen) && items[j] == Str(out[j])
    ensures Texts(items, maxLen) == Ok(out)
  {
    var whole := Texts(items, maxLen);
    assert forall j :: 0 <= j < |items| ==> items[j] == Str(out[j]) && items[j] == Str(whole.value[j]);
    assert out == whole.value;
  }

  function OptionalTexts(v: Option<Value>, b: Budget): (r: Result<seq<string>, Rejected>)
    ensures r.Ok? ==> |r.value| <= b.maxArgs
    ensures r.Ok? ==> forall i :: 0 <= i < |r.value| ==> ByteLen(r.value[i]) <= b.maxStringLen
  {
    match v
    case None => Ok([])
    case Some(Nothing) => Ok([])
    case Some(List(items)) =>
      if |items| > b.maxArgs then Err(Rejected.Rejected) else Texts(items, b.maxStringLen)
    case Some(_) => Err(Rejected.Rejected)
  }

  // ---------------------------------------------------------------------
  // One effect record
  // ---------------------------------------------------------------------

  function Max1(n: nat): nat { if n < 1 then 1 else n }

  /** The fields an invocation is read from. */
  datatype DispatchFields = DispatchFields(
    kind: Option<Value>, name: Option<Value>, args: Option<Value>, count: Option<Value>,
    extend: Option<Value>, register: Option<Value>, charArg: Option<Value>)

  function FieldsOf(rec: Rec): DispatchFields {
    DispatchFields(Get(rec, KIND), Get(rec, NAME), Get(rec, ARGS), Get(rec, COUNT),
                   Get(rec, EXTEND), Get(rec, REGISTER), Get(rec, CHAR))
  }

  function MakeAction(name: string, count: nat, extend: bool, register: Option<char>, charArg: Option<char>):
    Invocation
  {
    if charArg.Some? then ActionWithChar(name, count, extend, register, charArg.value)
    else Action(name, count, extend, register)
  }

  function DecodeAction(name: string, f: DispatchFields, b: Budget): Result<Invocation, Rejected> {
    var count, extend := OptionalCount(f.count, b), OptionalBool(f.extend);
    var register, charArg := OptionalChar(f.register, b), OptionalChar(f.charArg, b);
    if count.Err? || extend.Err? || register.Err? || charArg.Err? then Err(Rejected.Rejected)
    else
      var n := if count.value.Some? then Max1(count.value.value) else 1;
      Ok(MakeAction(name, n, extend.value == Some(true), register.value, charArg.value))
  }

  function MakeWithArgs(kind: Kind, name: string, args: seq<string>): Invocation
    requires !kind.ActionKind?
  {
    match kind
    case CommandKind => Command(name, args, Auto)
    case EditorKind => Command(name, args, Editor)
    case NuKind => NuMacro(name, args)
  }

  function DecodeFields(f: DispatchFields, b: Budget): Result<Invocation, Rejected> {
    var kind, name := RequiredText(f.kind, b, false), RequiredText(f.name, b, false);
    if kind.Err? || name.Err? then Err(Rejected.Rejected) else DecodeKind(ParseKind(kind.value), name.value, f, b)
  }

  function DecodeKind(kind: Option<Kind>, name: string, f: DispatchFields, b: Budget): Result<Invocation, Rejected> {
    match kind
    case Some(ActionKind) => DecodeAction(name, f, b)
    case Some(k) =>
      var args := OptionalTexts(f.args, b);
      if args.Err? then Err(Rejected.Rejected) else Ok(MakeWithArgs(k, name, args.value))
    case None => Err(Rejected.Rejected)
  }

  /** `decode_dispatch_invocation`. */
  function DecodeDispatch(rec: Rec, b: Budget): Result<Invocation, Rejected> { DecodeFields(FieldsOf(rec), b) }

  function ParseLevel(s: string): Option<NotifyLevel> {
    if s == "debug" then Some(Debug)
    else if s == "info" then Some(Info)
    else if s == "warn" then Some(Warn)
    else if s == "error" then Some(Error)
    else if s == "success" then Some(Success)
    else None
  }

  function DecodeNotify(rec: Rec, b: Budget): Result<Effect, Rejected> {
    var level, message := RequiredText(Get(rec, "level"), b, false), RequiredText(Get(rec, "message"), b, false);
    if level.Err? || ParseLevel(level.value).None? || message.Err? then Err(Rejected.Rejected)
    else Ok(Notify(ParseLevel(level.value).value, message.value))
  }

  function DecodeStateOp(rec: Rec, b: Budget): Result<Effect, Rejected> {
    var op, key := RequiredText(Get(rec, "op"), b, false), RequiredText(Get(rec, "key"), b, false);
    if op.Err? || key.Err? then Err(Rejected.Rejected)
    else if op.value == "set" then
      var value := RequiredText(Get(rec, "value"), b, true);
      if value.Err? then Err(Rejected.Rejected) else Ok(StateSet(key.value, value.value))
    else if op.value == "unset" then Ok(StateUnset(key.value))
    else Err(Rejected.Rejected)
  }

  function DecodeSchedule(rec: Rec, b: Budget): Result<Effect, Rejected> {
    var op, key := RequiredText(Get(rec, "op"), b, false), RequiredText(Get(rec, "key"), b, false);
    if op.Err? || key.Err? then Err(Rejected.Rejected)
    else if op.value == "set" then
      var delay, name := RequiredU64(Get(rec, "delay_ms")), RequiredText(Get(rec, "macro"), b, false);
      var args := OptionalTexts(Get(rec, ARGS), b);
      if delay.Err? || delay.value > MAX_SCHEDULE_DELAY_MS || name.Err? || args.Err? then Err(Rejected.Rejected)
      else Ok(ScheduleSet(key.value, delay.value, name.value, args.value))
    else if op.value == "cancel" then Ok(ScheduleCancel(key.value))
    else Err(Rejected.Rejected)
  }

  predicate OneLine(text: string) { '\n' !in text && '\r' !in text }

  function ParseEditOp(s: string): Option<EditOp> {
    if s == "replace_selection" then Some(ReplaceSelection)
    else if s == "replace_line" then Some(ReplaceLine)
    else None
  }

  function DecodeEdit(rec: Rec, b: Budget): Result<Effect, Rejected> {
    var op, text := RequiredText(Get(rec, "op"), b, false), RequiredText(Get(rec, "text"), b, true);
    if op.Err? || ParseEditOp(op.value).None? || text.Err? then Err(Rejected.Rejected)
    else if ParseEditOp(op.value).value.ReplaceLine? && !OneLine(text.value) then Err(Rejected.Rejected)
    else Ok(EditText(ParseEditOp(op.value).value, text.value))
  }

  datatype EffectType = DispatchType | NotifyType | StopType | ClipboardType | StateType | ScheduleType | EditType

  function ParseType(s: string): Option<EffectType> {
    if s == DISPATCH then Some(DispatchType)
    else if s == "notify" then Some(NotifyType)
    else if s == "stop" then Some(StopType)
    else if s == "clipboard" then Some(ClipboardType)
    else if s == "state" then Some(StateType)
    else if s == "schedule" then Some(ScheduleType)
    else if s == "edit" then Some(EditType)
    else None
  }

  function DecodeTyped(kind: EffectType, rec: Rec, b: Budget, surface: Surface): Result<Effect, Rejected> {
    match kind
    case DispatchType =>
      var i := DecodeDispatch(rec, b);
      if i.Err? then Err(Rejected.Rejected) else Ok(Dispatch(i.value))
    case NotifyType => DecodeNotify(rec, b)
    case StopType => if surface.Hook? then Ok(StopPropagation) else Err(Rejected.Rejected)
    case ClipboardType =>
      var text := RequiredText(Get(rec, "text"), b, true);
      if text.Err? then Err(Rejected.Rejected) else Ok(SetClipboard(text.value))
    case StateType => DecodeStateOp(rec, b)
    case ScheduleType => DecodeSchedule(rec, b)
    case EditType => DecodeEdit(rec, b)
  }

  /** `decode_effect_record`; a record with a kind and no type is refused like any
      other without a type. */
  function DecodeRecord(rec: Rec, b: Budget, surface: Surface): Result<Effect, Rejected> {
    var kind := RequiredText(Get(rec, TYPE), b, false);
    if kind.Err? then Err(Rejected.Rejected)
    else
      match ParseType(kind.value)
      case Some(k) => DecodeTyped(k, rec, b, surface)
      case None => Err(Rejected.Rejected)
  }

  // ---------------------------------------------------------------------
  // Limits
  // ---------------------------------------------------------------------

  predicate Fits(s: string, b: Budget) { ByteLen(s) <= b.maxStringLen }

  predicate Named(s: string, b: Budget) { s != "" && Fits(s, b) }

  predicate ArgsFit(args: seq<string>, b: Budget) {
    |args| <= b.maxArgs && forall i :: 0 <= i < |args| ==> Fits(args[i], b)
  }

  predicate InvocationFits(i: Invocation, b: Budget) {
    && Named(i.name, b)
    && match i
       case Action(_, count, _, _) => 1 <= count <= Max1(b.maxActionCount)
       case ActionWithChar(_, count, _, _, _) => 1 <= count <= Max1(b.maxActionCount)
       case Command(_, args, route) => ArgsFit(args, b) && !route.Registry?
       case NuMacro(_, args) => ArgsFit(args, b)
  }

  /** Everything an effect carries is within the budget, and a stop effect only
      comes from a hook. */
  predicate EffectFits(e: Effect, b: Budget, surface: Surface) {
    match e
    case Dispatch(i) => InvocationFits(i, b)
    case Notify(_, message) => Named(message, b)
    case StopPropagation => surface.Hook?
    case EditText(op, text) => Fits(text, b) && (op.ReplaceLine? ==> OneLine(text))
    case SetClipboard(text) => Fits(text, b)
    case StateSet(key, value) => Named(key, b) && Fits(value, b)
    case StateUnset(key) => Named(key, b)
    case ScheduleSet(key, delay, name, args) =>
      Named(key, b) && delay <= MAX_SCHEDULE_DELAY_MS && Named(name, b) && ArgsFit(args, b)
    case ScheduleCancel(key) => Named(key, b)
  }

  lemma ActionFits(name: string, f: DispatchFields, b: Budget)
    requires Named(name, b)
    ensures DecodeAction(name, f, b).Ok? ==> InvocationFits(DecodeAction(name, f, b).value, b)
  {
  }

  lemma DispatchFits(f: DispatchFields, b: Budget)
    ensures DecodeFields(f, b).Ok? ==> InvocationFits(DecodeFields(f, b).value, b)
  {
    var kind, name := RequiredText(f.kind, b, false), RequiredText(f.name, b, false);
    if kind.Ok? && name.Ok? {
      match ParseKind(kind.value)
      case Some(ActionKind) => ActionFits(name.value, f, b);
      case Some(k) =>
        var args := OptionalTexts(f.args, b);
        assert args.Ok? ==> ArgsFit(args.value, b);
        assert args.Ok? ==> InvocationFits(MakeWithArgs(k, name.value, args.value), b);
      case None =>
    }
  }

  lemma TypedFits(kind: EffectType, rec: Rec, b: Budget, surface: Surface)
    ensures DecodeTyped(kind, rec, b, surface).Ok? ==> EffectFits(DecodeTyped(kind, rec, b, surface).value, b, surface)
  {
    match kind
    case DispatchType => DispatchFits(FieldsOf(rec), b);
    case NotifyType =>
    case StopType =>
    case ClipboardType =>
    case StateType =>
    case ScheduleType => ScheduleFits(rec, b, surface);
    case EditType =>
  }

  lemma ScheduleFits(rec: Rec, b: Budget, surface: Surface)
    ensures DecodeSchedule(rec, b).Ok? ==> EffectFits(DecodeSchedule(rec, b).value, b, surface)
  {
    var args := OptionalTexts(Get(rec, ARGS), b);
    assert args.Ok? ==> ArgsFit(args.value, b);
  }

  lemma RecordFits(rec: Rec, b: Budget, surface: Surface)
    ensures DecodeRecord(rec, b, surface).Ok? ==> EffectFits(DecodeRecord(rec, b, surface).value, b, surface)
  {
    var kind := RequiredText(Get(rec, TYPE), b, false);
    if kind.Ok? {
      match ParseType(kind.value)
      case Some(k) => TypedFits(k, rec, b, surface);
      case None =>
    }
  }

  // ---------------------------------------------------------------------
  // The reference: flatten the value, whatever its size
  // ---------------------------------------------------------------------

  /** What lies below a value: whether its containers are well formed, its effect
      records in document order, how many list items lead to them, and the
      eligible warnings, those of an inner envelope before those of an outer one. */
  datatype Flat = Flat(ok: bool, leaves: seq<Rec>, items: nat, warnings: seq<string>)

  const EMPTY := Flat(true, [], 0, [])

  function Join(x: Flat, y: Flat): Flat {
    Flat(x.ok && y.ok, x.leaves + y.leaves, x.items + y.items, x.warnings + y.warnings)
  }

  function AsItem(x: Flat): Flat { x.(items := x.items + 1) }

  predicate VersionOk(rec: Rec) {
    match Get(rec, SCHEMA_VERSION)
    case None => true
    case Some(Int(n)) => 1 <= n <= EFFECT_SCHEMA_VERSION
    case Some(_) => false
  }

  function Eligible(items: seq<Value>, maxLen: nat): seq<string> {
    if items == [] then []
    else (if items[0].Str? && ByteLen(items[0].s) <= maxLen then [items[0].s] else []) + Eligible(items[1..], maxLen)
  }

  function OwnWarnings(rec: Rec, maxLen: nat): seq<string> {
    match Get(rec, WARNINGS)
    case Some(List(items)) => Eligible(items, maxLen)
    case _ => []
  }

  function Flatten(v: Value, maxLen: nat): Flat
    decreases Size(v), 1
  {
    match v
    case Nothing => EMPTY
    case Record(rec) => FlattenRecord(rec, maxLen)
    case List(items) => FlattenAll(items, maxLen)
    case _ => EMPTY.(ok := false)
  }

  function FlattenRecord(rec: Rec, maxLen: nat): Flat
    decreases SizeFields(rec) + 1, 0
  {
    GetIsSmaller(rec, EFFECTS);
    match Get(rec, EFFECTS)
    case None => EMPTY.(leaves := [rec])
    case Some(List(items)) =>
      Join(FlattenAll(items, maxLen).(ok := FlattenAll(items, maxLen).ok && VersionOk(rec)),
           EMPTY.(warnings := OwnWarnings(rec, maxLen)))
    case Some(_) => EMPTY.(ok := false)
  }

  /** A well-versioned envelope around `items`. */
  function EnvelopeOf(rec: Rec, items: seq<Value>, maxLen: nat): Flat {
    Join(FlattenAll(items, maxLen), EMPTY.(warnings := OwnWarnings(rec, maxLen)))
  }

  lemma EnvelopeFlat(rec: Rec, items: seq<Value>, maxLen: nat)
    requires VersionOk(rec) && Get(rec, EFFECTS) == Some(List(items))
    ensures FlattenRecord(rec, maxLen) == EnvelopeOf(rec, items, maxLen)
  {
  }

  function FlattenAll(items: seq<Value>, maxLen: nat): Flat
    decreases SizeList(items), 0
  {
    if items == [] then EMPTY
    else Join(AsItem(Flatten(items[0], maxLen)), FlattenAll(items[1..], maxLen))
  }

  type LeafDecoder = Rec -> Result<Effect, Rejected>

  function Decoder(b: Budget, surface: Surface): LeafDecoder {
    rec => DecodeRecord(rec, b, surface)
  }

  /** The effects of a sequence of records, if every one decodes. */
  function DecodeAll(leaves: seq<Rec>, decode: LeafDecoder): (r: Result<seq<Effect>, Rejected>)
    ensures r.Ok? <==> forall i :: 0 <= i < |leaves| ==> decode(leaves[i]).Ok?
    ensures r.Ok? ==> |r.value| == |leaves|
    ensures r.Ok? ==> forall i :: 0 <= i < |leaves| ==> decode(leaves[i]) == Ok(r.value[i])
  {
    if leaves == [] then Ok([])
    else
      var first, rest := decode(leaves[0]), DecodeAll(leaves[1..], decode);
      if first.Err? || rest.Err? then Err(Rejected.Rejected) else Ok([first.value] + rest.value)
  }

  lemma DecodeAllConcat(x: seq<Rec>, y: seq<Rec>, decode: LeafDecoder)
    ensures DecodeAll(x + y, decode).Ok? <==> DecodeAll(x, decode).Ok? && DecodeAll(y, decode).Ok?
    ensures DecodeAll(x + y, decode).Ok? ==>
              DecodeAll(x + y, decode).value == DecodeAll(x, decode).value + DecodeAll(y, decode).value
  {
    var all, dx, dy := DecodeAll(x + y, decode), DecodeAll(x, decode), DecodeAll(y, decode);
    if all.Ok? {
      forall i | 0 <= i < |x| ensures decode(x[i]).Ok? { assert (x + y)[i] == x[i]; }
      forall i | 0 <= i < |y| ensures decode(y[i]).Ok? { assert (x + y)[|x| + i] == y[i]; }
      forall i | 0 <= i < |x + y| ensures all.value[i] == (dx.value + dy.value)[i] {
        assert decode((x + y)[i]) == Ok(all.value[i]);
      }
    }
  }

  // ---------------------------------------------------------------------
  // What a traversal does to its counters
  // ---------------------------------------------------------------------

  /** The mutable part of the decode state that survives a success. */
  datatype Acc = Acc(nodes: nat, effects: seq<Effect>, warnings: seq<string>)

  predicate Within(acc: Acc, b: Budget) {
    && acc.nodes <= b.maxNodes
    && |acc.effects| <= b.maxEffects
    && |acc.warnings| <= b.maxEffects
  }

  function Capped(warnings: seq<string>, cap: nat): seq<string> {
    if |warnings| <= cap then warnings else warnings[..cap]
  }

  predicate Accepts(acc: Acc, f: Flat, b: Budget, decode: LeafDecoder) {
    && f.ok
    && DecodeAll(f.leaves, decode).Ok?
    && |acc.effects| + |f.leaves| <= b.maxEffects
    && acc.nodes + f.items <= b.maxNodes
  }

  /** The counters after a successful traversal of something that flattens to `f`. */
  function Absorb(acc: Acc, f: Flat, b: Budget, decode: LeafDecoder): Option<Acc> {
    if !Accepts(acc, f, b, decode) then None
    else Some(Acc(acc.nodes + f.items,
                  acc.effects + DecodeAll(f.leaves, decode).value,
                  Capped(acc.warnings + f.warnings, b.maxEffects)))
  }

  lemma AbsorbEmpty(acc: Acc, b: Budget, decode: LeafDecoder)
    requires Within(acc, b)
    ensures Absorb(acc, EMPTY, b, decode) == Some(acc)
  {
    assert acc.effects + [] == acc.effects;
    assert acc.warnings + [] == acc.warnings;
  }

  lemma CappedTwice(w: seq<string>, x: seq<string>, y: seq<string>, cap: nat)
    ensures Capped(Capped(w + x, cap) + y, cap) == Capped(w + (x + y), cap)
  {
    assert (w + x) + y == w + (x + y);
    if |w + x| > cap {
      assert Capped(Capped(w + x, cap) + y, cap) == (w + x)[..cap];
      assert (w + (x + y))[..cap] == (w + x)[..cap];
    }
  }

  lemma AcceptsJoin(acc: Acc, x: Flat, y: Flat, b: Budget, decode: LeafDecoder)
    ensures Accepts(acc, Join(x, y), b, decode) <==>
      Accepts(acc, x, b, decode) && Accepts(Absorb(acc, x, b, decode).value, y, b, decode)
  {
    DecodeAllConcat(x.leaves, y.leaves, decode);
  }

  /** Absorbing a joined value is absorbing its parts in order: this is what lets
      the decoder go item by item and stop at the first failure. */
  lemma AbsorbJoin(acc: Acc, x: Flat, y: Flat, b: Budget, decode: LeafDecoder)
    ensures Absorb(acc, x, b, decode).None? ==> Absorb(acc, Join(x, y), b, decode).None?
    ensures Absorb(acc, x, b, decode).Some? ==>
      Absorb(acc, Join(x, y), b, decode) == Absorb(Absorb(acc, x, b, decode).value, y, b, decode)
  {
    AcceptsJoin(acc, x, y, b, decode);
    if Accepts(acc, Join(x, y), b, decode) {
      AbsorbedTogether(acc, x, y, b, decode);
    }
  }

  lemma AbsorbedTogether(acc: Acc, x: Flat, y: Flat, b: Budget, decode: LeafDecoder)
    requires Accepts(acc, x, b, decode) && Accepts(Absorb(acc, x, b, decode).value, y, b, decode)
    requires Accepts(acc, Join(x, y), b, decode)
    ensures Absorb(acc, Join(x, y), b, decode) == Absorb(Absorb(acc, x, b, decode).value, y, b, decode)
  {
    var mid := Absorb(acc, x, b, decode).value;
    var whole, parts := Absorb(acc, Join(x, y), b, decode).value, Absorb(mid, y, b, decode).value;
    assert whole.effects == parts.effects by {
      DecodeAllConcat(x.leaves, y.leaves, decode);
      Assoc(acc.effects, DecodeAll(x.leaves, decode).value, DecodeAll(y.leaves, decode).value);
    }
    assert whole.warnings == parts.warnings by {
      CappedTwice(acc.warnings, x.warnings, y.warnings, b.maxEffects);
    }
  }

  lemma DecodeOne(rec: Rec, decode: LeafDecoder)
    ensures decode(rec).Ok? ==> DecodeAll([rec], decode) == Ok([decode(rec).value])
    ensures decode(rec).Err? ==> DecodeAll([rec], decode).Err?
  {
    assert decode([rec][0]) == decode(rec) && [rec][1..] == [];
    assert decode(rec).Ok? ==> [decode(rec).value] + [] == [decode(rec).value];
  }

  // ---------------------------------------------------------------------
  // The decoder
  // ---------------------------------------------------------------------

  datatype PathSeg = Root | RootLabel(text: string) | Index(idx: nat) | FieldSeg(name: string)

  class DecodeState {
    const surface: Surface
    const budget: Budget
    var path: seq<PathSeg>
    var nodesVisited: nat
    var schemaVersion: int
    var effects: seq<Effect>
    var warnings: seq<string>

    function Leaves(): LeafDecoder { Decoder(budget, surface) }

    function Value(): Acc
      reads this
    {
      Acc(nodesVisited, effects, warnings)
    }

    predicate Valid()
      reads this
    {
      Within(Value(), budget) && schemaVersion == EFFECT_SCHEMA_VERSION
    }

    constructor (surface: Surface, budget: Budget, root: PathSeg)
      ensures this.surface == surface && this.budget == budget && path == [root]
      ensures Valid() && Value() == Acc(0, [], [])
    {
      this.surface, this.budget := surface, budget;
      path, nodesVisited, schemaVersion, effects, warnings := [root], 0, EFFECT_SCHEMA_VERSION, [], [];
    }

    method Pop()
      modifies this`path
      ensures old(path) != [] ==> path == old(path)[..|old(path)| - 1]
    {
      if path != [] { path := path[..|path| - 1]; }
    }

    /** `visit_node`. */
    method VisitNode() returns (ok: bool)
      requires Valid()
      modifies this`nodesVisited
      ensures nodesVisited == old(nodesVisited) + 1
      ensures ok <==> nodesVisited <= budget.maxNodes
    {
      nodesVisited := nodesVisited + 1;
      ok := nodesVisited <= budget.maxNodes;
    }

    // Field readers: on success they return what the field holds and leave the
    // path as it was; on an error the path may keep the failing field.

    /** `required_string_field` and `required_string_field_allow_empty`. */
    method ReadText(rec: Rec, field: string, allowEmpty: bool) returns (r: Result<string, Rejected>)
      modifies this`path
      ensures r == RequiredText(Get(rec, field), budget, allowEmpty)
      ensures r.Ok? ==> path == old(path)
    {
      path := path + [FieldSeg(field)];
      match Get(rec, field) {
        case Some(Str(s)) =>
          if ByteLen(s) > budget.maxStringLen { return Err(Rejected.Rejected); }
          r := if s == "" && !allowEmpty then Err(Rejected.Rejected) else Ok(s);
        case _ => r := Err(Rejected.Rejected);
      }
      Pop();
    }

    method ReadU64(rec: Rec, field: string) returns (r: Result<nat, Rejected>)
      modifies this`path
      ensures r == RequiredU64(Get(rec, field))
      ensures r.Ok? ==> path == old(path)
    {
      path := path + [FieldSeg(field)];
      match Get(rec, field) {
        case Some(Int(n)) => r := if n >= 0 then Ok(n) else Err(Rejected.Rejected);
        case _ => r := Err(Rejected.Rejected);
      }
      Pop();
    }

    /** `optional_int_field` on the count. */
    method ReadCount(rec: Rec) returns (r: Result<Option<nat>, Rejected>)
      modifies this`path
      ensures r == OptionalCount(Get(rec, COUNT), budget)
      ensures r.Ok? ==> path == old(path)
    {
      if !Has(rec, COUNT) { return Ok(None); }
      path := path + [FieldSeg(COUNT)];
      match Get(rec, COUNT).value {
        case Nothing => r := Ok(None);
        case Int(n) => r := if n < 0 || n > budget.maxActionCount then Err(Rejected.Rejected) else Ok(Some(n));
        case _ => r := Err(Rejected.Rejected);
      }
      Pop();
    }

    method ReadBool(rec: Rec, field: string) returns (r: Result<Option<bool>, Rejected>)
      modifies this`path
      ensures r == OptionalBool(Get(rec, field))
      ensures r.Ok? ==> path == old(path)
    {
      if !Has(rec, field) { return Ok(None); }
      path := path + [FieldSeg(field)];
      match Get(rec, field).value {
        case Nothing => r := Ok(None);
        case Bool(flag) => r := Ok(Some(flag));
        case _ => r := Err(Rejected.Rejected);
      }
      Pop();
    }

    method ReadChar(rec: Rec, field: string) returns (r: Result<Option<char>, Rejected>)
      modifies this`path
      ensures r == OptionalChar(Get(rec, field), budget)
      ensures r.Ok? ==> path == old(path)
    {
      if !Has(rec, field) { return Ok(None); }
      path := path + [FieldSeg(field)];
      match Get(rec, field).value {
        case Nothing => r := Ok(None);
        case Str(s) =>
          if ByteLen(s) > budget.maxStringLen { return Err(Rejected.Rejected); }
          r := if |s| == 1 then Ok(Some(s[0])) else Err(Rejected.Rejected);
        case _ => r := Err(Rejected.Rejected);
      }
      Pop();
    }

    /** `optional_string_list_field`, a missing list being empty. */
    method ReadTexts(rec: Rec, field: string) returns (r: Result<seq<string>, Rejected>)
      modifies this`path
      ensures r == OptionalTexts(Get(rec, field), budget)
      ensures r.Ok? ==> path == old(path)
    {
      if !Has(rec, field) { return Ok([]); }
      path := path + [FieldSeg(field)];
      match Get(rec, field).value {
        case Nothing => r := Ok([]);
        case List(items) =>
          if |items| > budget.maxArgs {
            r := Err(Rejected.Rejected);
          } else {
            r := CollectTexts(items);
            if r.Err? { return; }
          }
        case _ => r := Err(Rejected.Rejected);
      }
      Pop();
    }

    method CollectTexts(items: seq<NuValues.Value>) returns (r: Result<seq<string>, Rejected>)
      modifies this`path
      ensures r == Texts(items, budget.maxStringLen)
      ensures r.Ok? ==> path == old(path)
    {
      var out: seq<string> := [];
      for i := 0 to |items|
        invariant |out| == i && path == old(path)
        invariant forall j :: 0 <= j < i ==> TextFits(items[j], budget.maxStringLen) && items[j] == Str(out[j])
      {
        path := path + [Index(i)];
        match items[i] {
          case Str(s) =>
            if ByteLen(s) > budget.maxStringLen {
              TextsRefuse(items, i, budget.maxStringLen);
              return Err(Rejected.Rejected);
            }
            out := out + [s];
          case _ =>
            TextsRefuse(items, i, budget.maxStringLen);
            return Err(Rejected.Rejected);
        }
        Pop();
      }
      TextsAre(items, out, budget.maxStringLen);
      r := Ok(out);
    }

    /** `decode_dispatch_invocation`. */
    method DispatchInvocation(rec: Rec) returns (r: Result<Invocation, Rejected>)
      modifies this`path
      ensures r == DecodeDispatch(rec, budget)
      ensures r.Ok? ==> path == old(path)
    {
      var kind := ReadText(rec, KIND, false);
      if kind.Err? { return Err(Rejected.Rejected); }
      var name := ReadText(rec, NAME, false);
      if name.Err? { return Err(Rejected.Rejected); }
      match ParseKind(kind.value) {
        case Some(ActionKind) => r := ActionInvocation(rec, name.value);
        case Some(k) =>
          var args := ReadTexts(rec, ARGS);
          r := if args.Err? then Err(Rejected.Rejected) else Ok(MakeWithArgs(k, name.value, args.value));
        case None => r := Err(Rejected.Rejected);
      }
    }

    method ActionInvocation(rec: Rec, name: string) returns (r: Result<Invocation, Rejected>)
      modifies this`path
      ensures r == DecodeAction(name, FieldsOf(rec), budget)
      ensures r.Ok? ==> path == old(path)
    {
      var count := ReadCount(rec);
      if count.Err? { return Err(Rejected.Rejected); }
      var extend := ReadBool(rec, EXTEND);
      if extend.Err? { return Err(Rejected.Rejected); }
      var register := ReadChar(rec, REGISTER);
      if register.Err? { return Err(Rejected.Rejected); }
      var charArg := ReadChar(rec, CHAR);
      if charArg.Err? { return Err(Rejected.Rejected); }
      var n := if count.value.Some? then Max1(count.value.value) else 1;
      r := Ok(MakeAction(name, n, extend.value == Some(true), register.value, charArg.value));
    }

    method NotifyEffect(rec: Rec) returns (r: Result<Effect, Rejected>)
      modifies this`path
      ensures r == DecodeNotify(rec, budget)
      ensures r.Ok? ==> path == old(path)
    {
      var level := ReadText(rec, "level", false);
      if level.Err? || ParseLevel(level.value).None? { return Err(Rejected.Rejected); }
      var message := ReadText(rec, "message", false);
      r := if message.Err? then Err(Rejected.Rejected) else Ok(Notify(ParseLevel(level.value).value, message.value));
    }

    method StateEffect(rec: Rec) returns (r: Result<Effect, Rejected>)
      modifies this`path
      ensures r == DecodeStateOp(rec, budget)
      ensures r.Ok? ==> path == old(path)
    {
      var op := ReadText(rec, "op", false);
      if op.Err? || (op.value != "set" && op.value != "unset") { return Err(Rejected.Rejected); }
      var key := ReadText(rec, "key", false);
      if key.Err? { return Err(Rejected.Rejected); }
      if op.value == "set" {
        var value := ReadText(rec, "value", true);
        r := if value.Err? then Err(Rejected.Rejected) else Ok(StateSet(key.value, value.value));
      } else {
        r := Ok(StateUnset(key.value));
      }
    }

    method ScheduleEffect(rec: Rec) returns (r: Result<Effect, Rejected>)
      modifies this`path
      ensures r == DecodeSchedule(rec, budget)
      ensures r.Ok? ==> path == old(path)
    {
      var op := ReadText(rec, "op", false);
      if op.Err? || (op.value != "set" && op.value != "cancel") { return Err(Rejected.Rejected); }
      var key := ReadText(rec, "key", false);
      if key.Err? { return Err(Rejected.Rejected); }
      if op.value == "cancel" { return Ok(ScheduleCancel(key.value)); }
      var delay := ReadU64(rec, "delay_ms");
      if delay.Err? || delay.value > MAX_SCHEDULE_DELAY_MS { return Err(Rejected.Rejected); }
      var name := ReadText(rec, "macro", false);
      if name.Err? { return Err(Rejected.Rejected); }
      var args := ReadTexts(rec, ARGS);
      r := if args.Err? then Err(Rejected.Rejected)
           else Ok(ScheduleSet(key.value, delay.value, name.value, args.value));
    }

    method EditEffect(rec: Rec) returns (r: Result<Effect, Rejected>)
      modifies this`path
      ensures r == DecodeEdit(rec, budget)
      ensures r.Ok? ==> path == old(path)
    {
      var op := ReadText(rec, "op", false);
      if op.Err? || ParseEditOp(op.value).None? { return Err(Rejected.Rejected); }
      var kind := ParseEditOp(op.value).value;
      var text := ReadText(rec, "text", true);
      if text.Err? || (kind.ReplaceLine? && !OneLine(text.value)) { return Err(Rejected.Rejected); }
      r := Ok(EditText(kind, text.value));
    }

    /** `decode_effect_record`. */
    method EffectRecord(rec: Rec) returns (r: Result<Effect, Rejected>)
      modifies this`path
      ensures r == DecodeRecord(rec, budget, surface)
      ensures r.Ok? ==> path == old(path)
    {
      if Has(rec, KIND) && !Has(rec, TYPE) { return Err(Rejected.Rejected); }
      var kind := ReadText(rec, TYPE, false);
      if kind.Err? { return Err(Rejected.Rejected); }
      match ParseType(kind.value) {
        case Some(k) => r := TypedEffect(k, rec);
        case None => r := Err(Rejected.Rejected);
      }
    }

    method TypedEffect(kind: EffectType, rec: Rec) returns (r: Result<Effect, Rejected>)
      modifies this`path
      ensures r == DecodeTyped(kind, rec, budget, surface)
      ensures r.Ok? ==> path == old(path)
    {
      match kind {
        case DispatchType =>
          var i := DispatchInvocation(rec);
          r := if i.Err? then Err(Rejected.Rejected) else Ok(Dispatch(i.value));
        case NotifyType => r := NotifyEffect(rec);
        case StopType => r := if surface.Hook? then Ok(StopPropagation) else Err(Rejected.Rejected);
        case ClipboardType =>
          var text := ReadText(rec, "text", true);
          r := if text.Err? then Err(Rejected.Rejected) else Ok(SetClipboard(text.value));
        case StateType => r := StateEffect(rec);
        case ScheduleType => r := ScheduleEffect(rec);
        case EditType => r := EditEffect(rec);
      }
    }

    /** One record of effects: `decode_effect_record` and `push_effect`. */
    method DecodeLeaf(rec: Rec) returns (ok: bool)
      requires Valid()
      modifies this`effects, this`path
      ensures ok ==> path == old(path)
      ensures ok <==> Accepts(old(Value()), EMPTY.(leaves := [rec]), budget, Leaves())
      ensures ok ==> Valid()
      ensures ok ==> Some(Value()) == Absorb(old(Value()), EMPTY.(leaves := [rec]), budget, Leaves())
    {
      var effect := EffectRecord(rec);
      DecodeOne(rec, Leaves());
      if effect.Err? || |effects| >= budget.maxEffects { return false; }
      effects := effects + [effect.value];
      assert warnings + [] == warnings;
      ok := true;
    }

    /** The two matches of `decode_lenient_value` and of the loop in
        `decode_effect_list`, which differ only in their error texts. */
    method DecodeNode(v: NuValues.Value) returns (ok: bool)
      requires Valid()
      modifies this
      ensures ok <==> Accepts(old(Value()), AsItem(Flatten(v, budget.maxStringLen)), budget, Leaves())
      ensures ok ==> Valid() && path == old(path)
      ensures ok ==> Some(Value()) == Absorb(old(Value()), AsItem(Flatten(v, budget.maxStringLen)), budget, Leaves())
      decreases Size(v), 1
    {
      ghost var start, flat := Value(), Flatten(v, budget.maxStringLen);
      ghost var one := AsItem(EMPTY);
      ok := VisitNode();
      if !ok { return; }
      ghost var mid := Value();
      assert Absorb(start, one, budget, Leaves()) == Some(mid) by {
        AbsorbEmpty(mid, budget, Leaves());
      }
      assert Join(one, flat) == AsItem(flat) by {
        assert [] + flat.leaves == flat.leaves && [] + flat.warnings == flat.warnings;
      }
      AbsorbJoin(start, one, flat, budget, Leaves());
      assert Absorb(start, AsItem(flat), budget, Leaves()) == Absorb(mid, flat, budget, Leaves());
      match v {
        case Nothing => AbsorbEmpty(mid, budget, Leaves());
        case Record(rec) =>
          if Has(rec, EFFECTS) {
            ok := DecodeEnvelope(rec);
          } else {
            ok := DecodeLeaf(rec);
          }
        case List(items) => ok := DecodeEffectList(items);
        case _ => ok := false;
      }
    }

    /** `decode_envelope_record`: the warnings are taken even when the effects fail. */
    method DecodeEnvelope(rec: Rec) returns (ok: bool)
      requires Valid() && Has(rec, EFFECTS)
      modifies this
      ensures ok <==> Accepts(old(Value()), FlattenRecord(rec, budget.maxStringLen), budget, Leaves())
      ensures ok ==> Valid() && path == old(path)
      ensures ok ==> Some(Value()) == Absorb(old(Value()), FlattenRecord(rec, budget.maxStringLen), budget, Leaves())
      decreases SizeFields(rec) + 1, 0
    {
      if !VersionOk(rec) { return false; }
      schemaVersion := match Get(rec, SCHEMA_VERSION) case Some(Int(n)) => n case _ => EFFECT_SCHEMA_VERSION;
      GetIsSmaller(rec, EFFECTS);
      match Get(rec, EFFECTS).value {
        case List(items) =>
          EnvelopeFlat(rec, items, budget.maxStringLen);
          ok := DecodeItems(rec, items);
        case _ => ok := false;
      }
    }

    method DecodeItems(rec: Rec, items: seq<NuValues.Value>) returns (ok: bool)
      requires Valid()
      modifies this
      ensures ok <==> Accepts(old(Value()), EnvelopeOf(rec, items, budget.maxStringLen), budget, Leaves())
      ensures ok ==> Valid() && path == old(path)
      ensures ok ==>
        Some(Value()) == Absorb(old(Value()), EnvelopeOf(rec, items, budget.maxStringLen), budget, Leaves())
      decreases SizeList(items), 1
    {
      ghost var inner := FlattenAll(items, budget.maxStringLen);
      ghost var own := EMPTY.(warnings := OwnWarnings(rec, budget.maxStringLen));
      AbsorbJoin(Value(), inner, own, budget, Leaves());
      path := path + [FieldSeg(EFFECTS)];
      ok := DecodeEffectList(items);
      Pop();
      assert ok ==> effects + [] == effects;
      TakeWarnings(rec);
    }

    method TakeWarnings(rec: Rec)
      modifies this`warnings
      ensures |old(warnings)| <= budget.maxEffects ==>
        warnings == Capped(old(warnings) + OwnWarnings(rec, budget.maxStringLen), budget.maxEffects)
    {
      match Get(rec, WARNINGS) {
        case Some(List(items)) =>
          var idx := 0;
          ghost var start := warnings;
          assert items[0..] == items;
          while idx < |items| && |warnings| < budget.maxEffects
            invariant 0 <= idx <= |items|
            invariant |start| <= budget.maxEffects ==> |warnings| <= budget.maxEffects
            invariant warnings + Eligible(items[idx..], budget.maxStringLen) ==
                      start + Eligible(items, budget.maxStringLen)
          {
            ghost var rest := items[idx..];
            assert rest[1..] == items[idx + 1..];
            if items[idx].Str? && ByteLen(items[idx].s) <= budget.maxStringLen {
              warnings := warnings + [items[idx].s];
            }
            idx := idx + 1;
          }
        case _ =>
      }
    }

    /** `decode_effect_list`. */
    method DecodeEffectList(items: seq<NuValues.Value>) returns (ok: bool)
      requires Valid()
      modifies this
      ensures ok <==> Accepts(old(Value()), FlattenAll(items, budget.maxStringLen), budget, Leaves())
      ensures ok ==> Valid() && path == old(path)
      ensures ok ==> Some(Value()) == Absorb(old(Value()), FlattenAll(items, budget.maxStringLen), budget, Leaves())
      decreases SizeList(items), 0
    {
      ghost var start, flat := Value(), FlattenAll(items, budget.maxStringLen);
      var idx := 0;
      assert items[0..] == items;
      while idx < |items|
        invariant 0 <= idx <= |items|
        invariant Valid() && path == old(path)
        invariant Absorb(Value(), FlattenAll(items[idx..], budget.maxStringLen), budget, Leaves()) ==
                  Absorb(start, flat, budget, Leaves())
        invariant SizeList(items[idx..]) <= SizeList(items)
      {
        ghost var rest := items[idx..];
        assert rest[0] == items[idx] && rest[1..] == items[idx + 1..];
        AbsorbJoin(Value(), AsItem(Flatten(items[idx], budget.maxStringLen)),
                   FlattenAll(rest[1..], budget.maxStringLen), budget, Leaves());
        path := path + [Index(idx)];
        ok := DecodeNode(items[idx]);
        if !ok { return; }
        Pop();
        idx := idx + 1;
      }
      assert items[idx..] == [];
      AbsorbEmpty(Value(), budget, Leaves());
      ok := true;
    }
  }

  // ---------------------------------------------------------------------
  // Entry points
  // ---------------------------------------------------------------------

  datatype Batch = Batch(schemaVersion: int, effects: seq<Effect>, warnings: seq<string>)

  const MACRO_DEFAULTS := Budget(256, 4096, 64, 10_000, 50_000)

  /** When a value decodes, without reference to the traversal. */
  ghost predicate Decodable(value: Value, b: Budget, surface: Surface) {
    var flat := Flatten(value, b.maxStringLen);
    && flat.ok
    && (forall i :: 0 <= i < |flat.leaves| ==> DecodeRecord(flat.leaves[i], b, surface).Ok?)
    && |flat.leaves| <= b.maxEffects
    && 1 + flat.items <= b.maxNodes
  }

  /** The effects are the leaves, one for one and in order. */
  ghost predicate EffectsOf(effects: seq<Effect>, leaves: seq<Rec>, b: Budget, surface: Surface) {
    && |effects| == |leaves|
    && forall i :: 0 <= i < |leaves| ==> DecodeRecord(leaves[i], b, surface) == Ok(effects[i])
  }

  ghost predicate AllFit(effects: seq<Effect>, b: Budget, surface: Surface) {
    forall i :: 0 <= i < |effects| ==> EffectFits(effects[i], b, surface)
  }

  lemma EffectsFit(effects: seq<Effect>, leaves: seq<Rec>, b: Budget, surface: Surface)
    requires EffectsOf(effects, leaves, b, surface)
    ensures AllFit(effects, b, surface)
  {
    forall i | 0 <= i < |effects| ensures EffectFits(effects[i], b, surface) {
      RecordFits(leaves[i], b, surface);
    }
  }

  lemma AcceptsDecodable(value: Value, b: Budget, surface: Surface)
    ensures Accepts(Acc(0, [], []), AsItem(Flatten(value, b.maxStringLen)), b, Decoder(b, surface)) <==>
            Decodable(value, b, surface)
  {
    var leaves, decode := Flatten(value, b.maxStringLen).leaves, Decoder(b, surface);
    assert forall i :: 0 <= i < |leaves| ==> decode(leaves[i]) == DecodeRecord(leaves[i], b, surface);
  }

  lemma DecodedLeaves(leaves: seq<Rec>, b: Budget, surface: Surface)
    ensures DecodeAll(leaves, Decoder(b, surface)).Ok? ==>
      EffectsOf(DecodeAll(leaves, Decoder(b, surface)).value, leaves, b, surface)
  {
    var decode := Decoder(b, surface);
    assert forall i :: 0 <= i < |leaves| ==> decode(leaves[i]) == DecodeRecord(leaves[i], b, surface);
  }

  /** `decode_effects_with_budget` and `decode_effects_lenient`. */
  method DecodeEffects(value: Value, b: Budget, surface: Surface) returns (r: Result<Batch, Rejected>)
    ensures r.Ok? <==> Decodable(value, b, surface)
    ensures r.Ok? ==> EffectsOf(r.value.effects, Flatten(value, b.maxStringLen).leaves, b, surface)
    ensures r.Ok? ==> |r.value.effects| <= b.maxEffects && AllFit(r.value.effects, b, surface)
    ensures r.Ok? ==> r.value.warnings == Capped(Flatten(value, b.maxStringLen).warnings, b.maxEffects)
    ensures r.Ok? ==> r.value.schemaVersion == EFFECT_SCHEMA_VERSION
  {
    var state := new DecodeState(surface, b, Root);
    ghost var flat := Flatten(value, b.maxStringLen);
    var ok := state.DecodeNode(value);
    AcceptsDecodable(value, b, surface);
    if !ok { return Err(Rejected.Rejected); }
    assert state.effects == DecodeAll(flat.leaves, Decoder(b, surface)).value;
    DecodedLeaves(flat.leaves, b, surface);
    EffectsFit(state.effects, flat.leaves, b, surface);
    assert [] + flat.warnings == flat.warnings;
    r := Ok(Batch(state.schemaVersion, state.effects, state.warnings));
  }

  /** `decode_single_dispatch_effect`: the same decoder on one record, with the
      record itself not counted as a node. */
  method DecodeSingleDispatch(value: Value, fieldPath: string) returns (r: Result<Invocation, Rejected>)
    ensures r.Ok? ==> value.Record?
    ensures value.Record? ==>
      var flat := Flatten(value, MACRO_DEFAULTS.maxStringLen);
      r.Ok? <==> flat.ok && flat.items <= MACRO_DEFAULTS.maxNodes && |flat.leaves| == 1 &&
                 DecodeRecord(flat.leaves[0], MACRO_DEFAULTS, Macro).Ok? &&
                 DecodeRecord(flat.leaves[0], MACRO_DEFAULTS, Macro).value.Dispatch?
    ensures r.Ok? ==>
      var flat := Flatten(value, MACRO_DEFAULTS.maxStringLen);
      |flat.leaves| == 1 && DecodeRecord(flat.leaves[0], MACRO_DEFAULTS, Macro) == Ok(Dispatch(r.value))
  {
    match value {
      case Record(rec) =>
        var state := new DecodeState(Macro, MACRO_DEFAULTS, RootLabel(fieldPath));
        ghost var flat := Flatten(value, MACRO_DEFAULTS.maxStringLen);
        ghost var decode := Decoder(MACRO_DEFAULTS, Macro);
        if Has(rec, EFFECTS) {
          var ok := state.DecodeEnvelope(rec);
          assert |flat.leaves| == 1 ==> flat.leaves == [flat.leaves[0]];
          if |flat.leaves| == 1 { DecodeOne(flat.leaves[0], decode); }
          if !ok || |state.effects| != 1 { return Err(Rejected.Rejected); }
          assert decode(flat.leaves[0]) == DecodeRecord(flat.leaves[0], MACRO_DEFAULTS, Macro);
          r := if state.effects[0].Dispatch? then Ok(state.effects[0].invocation) else Err(Rejected.Rejected);
        } else {
          var effect := state.EffectRecord(rec);
          r := if effect.Ok? && effect.value.Dispatch? then Ok(effect.value.invocation) else Err(Rejected.Rejected);
        }
      case _ => r := Err(Rejected.Rejected);
    }
  }

  /** A list inside a list counts one node and is otherwise as if spliced in. */
  lemma {:induction false} FlattenConcat(x: seq<Value>, y: seq<Value>, maxLen: nat)
    ensures FlattenAll(x + y, maxLen) == Join(FlattenAll(x, maxLen), FlattenAll(y, maxLen))
  {
    if x == [] {
      assert x + y == y;
      JoinEmpty(FlattenAll(y, maxLen));
    } else {
      assert (x + y)[0] == x[0] && (x + y)[1..] == x[1..] + y;
      FlattenConcat(x[1..], y, maxLen);
      JoinAssoc(AsItem(Flatten(x[0], maxLen)), FlattenAll(x[1..], maxLen), FlattenAll(y, maxLen));
    }
  }

  lemma JoinEmpty(x: Flat)
    ensures Join(EMPTY, x) == x == Join(x, EMPTY)
  {
    assert [] + x.leaves == x.leaves == x.leaves + [];
    assert [] + x.warnings == x.warnings == x.warnings + [];
  }

  lemma JoinAssoc(x: Flat, y: Flat, z: Flat)
    ensures Join(Join(x, y), z) == Join(x, Join(y, z))
  {
    assert (x.leaves + y.leaves) + z.leaves == x.leaves + (y.leaves + z.leaves);
    assert (x.warnings + y.warnings) + z.warnings == x.warnings + (y.warnings + z.warnings);
  }

  /** Nesting changes the node count only: splicing a nested list into its parent
      gives the same effect records, warnings and verdict on its shape. */
  lemma SplicedList(before: seq<Value>, nested: seq<Value>, after: seq<Value>, maxLen: nat)
    ensures FlattenAll(before + [List(nested)] + after, maxLen) == AsItem(FlattenAll(before + nested + after, maxLen))
  {
    var x, y, z := FlattenAll(before, maxLen), FlattenAll(nested, maxLen), FlattenAll(after, maxLen);
    FlattenConcat(before + nested, after, maxLen);
    FlattenConcat(before, nested, maxLen);
    FlattenConcat(before + [List(nested)], after, maxLen);
    FlattenConcat(before, [List(nested)], maxLen);
    assert FlattenAll([List(nested)], maxLen) == AsItem(y) by {
      assert [List(nested)][0] == List(nested) && [List(nested)][1..] == [];
      JoinEmpty(AsItem(y));
    }
    assert Join(Join(x, AsItem(y)), z) == AsItem(Join(Join(x, y), z));
  }
}
