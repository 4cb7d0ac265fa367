/** Which records mean which effects (crates/invocation/src/nu.rs,
`decode_effect_record` and its field readers).

`Says` reads a record off its field names, without a budget.  The decoder yields
an effect exactly when the record says it and everything read is within the
budget; so encoding an effect and decoding it again gives it back.
 */
module NuRecords {
  import opened Prelude
  import opened NuValues
  import opened NuEffects

  // ---------------------------------------------------------------------
  // What a field says
  // ---------------------------------------------------------------------

  predicate TextIs(v: Option<Value>, s: string) { v == Some(Str(s)) }

  /** A missing field and an explicit nothing mean the same. */
  predicate Absent(v: Option<Value>) { v == None || v == Some(Nothing) }

  predicate ArgsAre(v: Option<Value>, args: seq<string>) {
    if Absent(v) then args == []
    else
      && v.value.List? && |v.value.items| == |args|
      && forall i :: 0 <= i < |args| ==> v.value.items[i] == Str(args[i])
  }

  /** No count is a count of one, and so is a count of zero. */
  predicate CountIs(v: Option<Value>, count: nat) {
    if Absent(v) then count == 1
    else v.value.Int? && v.value.n >= 0 && count == if v.value.n == 0 then 1 else v.value.n
  }

  predicate FlagIs(v: Option<Value>, flag: bool) {
    if Absent(v) then !flag else v.value == Bool(flag)
  }

  predicate CharIs(v: Option<Value>, c: Option<char>) {
    if Absent(v) then c == None else c.Some? && v.value == Str([c.value])
  }

  // ---------------------------------------------------------------------
  // What a record says
  // ---------------------------------------------------------------------

  function LevelTag(level: NotifyLevel): string {
    match level
    case Debug => "debug"
    case Info => "info"
    case Warn => "warn"
    case Error => "error"
    case Success => "success"
  }

  function EditTag(op: EditOp): string {
    match op
    case ReplaceSelection => "replace_selection"
    case ReplaceLine => "replace_line"
  }

  function TypeTag(e: Effect): string {
    match e
    case Dispatch(_) => "dispatch"
    case Notify(_, _) => "notify"
    case StopPropagation => "stop"
    case EditText(_, _) => "edit"
    case SetClipboard(_) => "clipboard"
    case StateSet(_, _) => "state"
    case StateUnset(_) => "state"
    case ScheduleSet(_, _, _, _) => "schedule"
    case ScheduleCancel(_) => "schedule"
  }

  /** The kind of an invocation that has one in a record. */
  function KindTag(i: Invocation): Option<string> {
    match i
    case Action(_, _, _, _) => Some("action")
    case ActionWithChar(_, _, _, _, _) => Some("action")
    case Command(_, _, Auto) => Some("command")
    case Command(_, _, Editor) => Some("editor")
    case Command(_, _, Registry) => None
    case NuMacro(_, _) => Some("nu")
  }

  predicate ActionSays(rec: Rec, count: nat, extend: bool, register: Option<char>, charArg: Option<char>) {
    && CountIs(Get(rec, "count"), count) && FlagIs(Get(rec, "extend"), extend)
    && CharIs(Get(rec, "register"), register) && CharIs(Get(rec, "char"), charArg)
  }

  predicate FieldsSay(rec: Rec, i: Invocation) {
    match i
    case Action(_, count, extend, register) => ActionSays(rec, count, extend, register, None)
    case ActionWithChar(_, count, extend, register, c) => ActionSays(rec, count, extend, register, Some(c))
    case Command(_, args, _) => ArgsAre(Get(rec, "args"), args)
    case NuMacro(_, args) => ArgsAre(Get(rec, "args"), args)
  }

  predicate InvocationSays(rec: Rec, i: Invocation) {
    && KindTag(i).Some? && TextIs(Get(rec, "kind"), KindTag(i).value)
    && TextIs(Get(rec, "name"), i.name) && FieldsSay(rec, i)
  }

  predicate BodySays(rec: Rec, e: Effect) {
    match e
    case Dispatch(i) => InvocationSays(rec, i)
    case Notify(level, message) =>
      TextIs(Get(rec, "level"), LevelTag(level)) && TextIs(Get(rec, "message"), message)
    case StopPropagation => true
    case EditText(op, text) => TextIs(Get(rec, "op"), EditTag(op)) && TextIs(Get(rec, "text"), text)
    case SetClipboard(text) => TextIs(Get(rec, "text"), text)
    case StateSet(key, value) =>
      TextIs(Get(rec, "op"), "set") && TextIs(Get(rec, "key"), key) && TextIs(Get(rec, "value"), value)
    case StateUnset(key) => TextIs(Get(rec, "op"), "unset") && TextIs(Get(rec, "key"), key)
    case ScheduleSet(key, delay, name, args) =>
      && TextIs(Get(rec, "op"), "set") && TextIs(Get(rec, "key"), key) && Get(rec, "delay_ms") == Some(Int(delay))
      && TextIs(Get(rec, "macro"), name) && ArgsAre(Get(rec, "args"), args)
    case ScheduleCancel(key) => TextIs(Get(rec, "op"), "cancel") && TextIs(Get(rec, "key"), key)
  }

  predicate Says(rec: Rec, e: Effect) { TextIs(Get(rec, "type"), TypeTag(e)) && BodySays(rec, e) }

  // ---------------------------------------------------------------------
  // What is measured besides the effect itself
  // ---------------------------------------------------------------------

  predicate CountWithin(v: Option<Value>, b: Budget) { v.Some? && v.value.Int? ==> v.value.n <= b.maxActionCount }

  predicate CharWithin(c: Option<char>, b: Budget) { c.Some? ==> Fits([c.value], b) }

  predicate FieldsWithin(rec: Rec, i: Invocation, b: Budget) {
    match i
    case Action(_, _, _, register) => CountWithin(Get(rec, "count"), b) && CharWithin(register, b)
    case ActionWithChar(_, _, _, register, c) =>
      CountWithin(Get(rec, "count"), b) && CharWithin(register, b) && CharWithin(Some(c), b)
    case _ => true
  }

  predicate InvocationWithin(rec: Rec, i: Invocation, b: Budget) {
    (KindTag(i).Some? ==> Fits(KindTag(i).value, b)) && FieldsWithin(rec, i, b)
  }

  /** The tags, the raw count and the one-character fields. */
  predicate BodyWithin(rec: Rec, e: Effect, b: Budget) {
    match e
    case Dispatch(i) => InvocationWithin(rec, i, b)
    case Notify(level, _) => Fits(LevelTag(level), b)
    case EditText(op, _) => Fits(EditTag(op), b)
    case StateSet(_, _) => Fits("set", b)
    case StateUnset(_) => Fits("unset", b)
    case ScheduleSet(_, _, _, _) => Fits("set", b)
    case ScheduleCancel(_) => Fits("cancel", b)
    case _ => true
  }

  predicate RecordWithin(rec: Rec, e: Effect, b: Budget) { Fits(TypeTag(e), b) && BodyWithin(rec, e, b) }

  // ---------------------------------------------------------------------
  // Field readers
  // ---------------------------------------------------------------------

  lemma TextRead(v: Option<Value>, b: Budget, allowEmpty: bool, s: string)
    ensures RequiredText(v, b, allowEmpty) == Ok(s) <==> TextIs(v, s) && Fits(s, b) && (allowEmpty || s != "")
  {
  }

  lemma ArgsRead(v: Option<Value>, b: Budget, args: seq<string>)
    ensures OptionalTexts(v, b) == Ok(args) <==> ArgsAre(v, args) && ArgsFit(args, b)
  {
    if v.Some? && v.value.List? {
      var items := v.value.items;
      if ArgsAre(v, args) && ArgsFit(args, b) {
        assert forall i :: 0 <= i < |items| ==> TextFits(items[i], b.maxStringLen) by {
          assert forall i :: 0 <= i < |items| ==> items[i] == Str(args[i]) && Fits(args[i], b);
        }
        TextsAre(items, args, b.maxStringLen);
      }
    }
  }

  lemma CountRead(v: Option<Value>, b: Budget, count: nat)
    ensures var r := OptionalCount(v, b);
      (r.Ok? && count == if r.value.Some? then Max1(r.value.value) else 1) <==> CountIs(v, count) && CountWithin(v, b)
  {
  }

  lemma FlagRead(v: Option<Value>, flag: bool)
    ensures var r := OptionalBool(v); (r.Ok? && flag == (r.value == Some(true))) <==> FlagIs(v, flag)
  {
  }

  lemma CharRead(v: Option<Value>, b: Budget, c: Option<char>)
    ensures OptionalChar(v, b) == Ok(c) <==> CharIs(v, c) && CharWithin(c, b)
  {
    if v.Some? && v.value.Str? && |v.value.s| == 1 { assert v.value.s == [v.value.s[0]]; }
  }

  // ---------------------------------------------------------------------
  // Tags
  // ---------------------------------------------------------------------

  lemma LevelRead(s: string, level: NotifyLevel)
    ensures ParseLevel(s) == Some(level) <==> s == LevelTag(level)
  {
    assert "debug"[0] == 'd' && "info"[0] == 'i' && "warn"[0] == 'w' && "error"[0] == 'e' && "success"[0] == 's';
  }

  lemma EditOpRead(s: string, op: EditOp)
    ensures ParseEditOp(s) == Some(op) <==> s == EditTag(op)
    ensures EditTag(op) != ""
  {
    assert |"replace_selection"| == 17 && |"replace_line"| == 12;
  }

  lemma KindRead(s: string, kind: Kind)
    ensures ParseKind(s) == Some(kind) <==> s == KindText(kind)
    ensures KindText(ActionKind) == "action" && KindText(CommandKind) == "command"
    ensures KindText(EditorKind) == "editor" && KindText(NuKind) == "nu"
  {
    KindRoundTrip(kind);
  }

  function TypeOf(e: Effect): EffectType {
    match e
    case Dispatch(_) => DispatchType
    case Notify(_, _) => NotifyType
    case StopPropagation => StopType
    case EditText(_, _) => EditType
    case SetClipboard(_) => ClipboardType
    case StateSet(_, _) => StateType
    case StateUnset(_) => StateType
    case ScheduleSet(_, _, _, _) => ScheduleType
    case ScheduleCancel(_) => ScheduleType
  }

  lemma TypeRead(s: string, e: Effect)
    ensures ParseType(s) == Some(TypeOf(e)) <==> s == TypeTag(e)
    ensures TypeTag(e) != ""
  {
    TagsDiffer();
  }

  lemma TagsDiffer()
    ensures DISPATCH == "dispatch" && TYPE == "type"
    ensures "dispatch" != "notify" && "dispatch" != "stop" && "dispatch" != "clipboard" && "dispatch" != "state"
    ensures "dispatch" != "schedule" && "dispatch" != "edit" && "notify" != "stop" && "notify" != "clipboard"
    ensures "notify" != "state" && "notify" != "schedule" && "notify" != "edit" && "stop" != "clipboard"
    ensures "stop" != "state" && "stop" != "schedule" && "stop" != "edit" && "clipboard" != "state"
    ensures "clipboard" != "schedule" && "clipboard" != "edit" && "state" != "schedule" && "state" != "edit"
    ensures "schedule" != "edit"
  {
    assert "dispatch"[0] == 'd' && "notify"[0] == 'n' && "stop"[0] == 's' && "clipboard"[0] == 'c';
    assert "state"[0] == 's' && "schedule"[0] == 's' && "edit"[0] == 'e';
    assert "stop"[2] == 'o' && "state"[2] == 'a' && "schedule"[2] == 'h';
  }

  // ---------------------------------------------------------------------
  // Records
  // ---------------------------------------------------------------------

  lemma ActionRead(rec: Rec, name: string, b: Budget, i: Invocation)
    ensures DecodeAction(name, FieldsOf(rec), b) == Ok(i) <==>
      IsAction(i) && i.name == name && FieldsSay(rec, i) && FieldsWithin(rec, i, b)
  {
    if IsAction(i) {
      CountRead(Get(rec, "count"), b, i.count);
      FlagRead(Get(rec, "extend"), i.extend);
      CharRead(Get(rec, "register"), b, i.register);
      CharRead(Get(rec, "char"), b, CharArg(i));
    }
  }

  function KindOfTag(i: Invocation): Option<Kind> {
    if i.Command? && i.route.Registry? then None else Some(KindOf(i))
  }

  lemma KindTagIs(i: Invocation)
    ensures KindOfTag(i).Some? <==> KindTag(i).Some?
    ensures KindTag(i).Some? ==> KindText(KindOfTag(i).value) == KindTag(i).value != ""
  {
    if KindOfTag(i).Some? { KindRead("", KindOfTag(i).value); }
  }

  /** The limits of an effect follow from those of its fields. */
  lemma FieldsFit(rec: Rec, i: Invocation, b: Budget)
    requires IsAction(i) && Named(i.name, b) && FieldsSay(rec, i) && FieldsWithin(rec, i, b)
    ensures InvocationFits(i, b)
  {
  }

  lemma KindDecoded(rec: Rec, kind: Kind, name: string, b: Budget, i: Invocation)
    requires Named(name, b)
    ensures DecodeKind(Some(kind), name, FieldsOf(rec), b) == Ok(i) <==>
      && KindOfTag(i) == Some(kind) && i.name == name && InvocationFits(i, b)
      && FieldsSay(rec, i) && FieldsWithin(rec, i, b)
  {
    if kind.ActionKind? {
      ActionRead(rec, name, b, i);
      if DecodeAction(name, FieldsOf(rec), b) == Ok(i) { FieldsFit(rec, i, b); }
    } else {
      ArgsDecoded(rec, kind, name, b, i);
    }
  }

  lemma ArgsDecoded(rec: Rec, kind: Kind, name: string, b: Budget, i: Invocation)
    requires Named(name, b) && !kind.ActionKind?
    ensures DecodeKind(Some(kind), name, FieldsOf(rec), b) == Ok(i) <==>
      && KindOfTag(i) == Some(kind) && i.name == name && InvocationFits(i, b)
      && FieldsSay(rec, i) && FieldsWithin(rec, i, b)
  {
    if !IsAction(i) { ArgsRead(Get(rec, "args"), b, i.args); }
  }

  lemma DispatchRead(rec: Rec, b: Budget, i: Invocation)
    ensures DecodeDispatch(rec, b) == Ok(i) <==>
      InvocationSays(rec, i) && InvocationFits(i, b) && InvocationWithin(rec, i, b)
  {
    if DecodeDispatch(rec, b) == Ok(i) {
      DispatchSays(rec, b, i);
    } else if InvocationSays(rec, i) && InvocationFits(i, b) && InvocationWithin(rec, i, b) {
      DispatchAccepted(rec, b, i);
    }
  }

  lemma DispatchSays(rec: Rec, b: Budget, i: Invocation)
    requires DecodeDispatch(rec, b) == Ok(i)
    ensures InvocationSays(rec, i) && InvocationFits(i, b) && InvocationWithin(rec, i, b)
  {
    var kind, name := RequiredText(Get(rec, "kind"), b, false), RequiredText(Get(rec, "name"), b, false);
    var k := ParseKind(kind.value).value;
    KindRead(kind.value, k);
    KindDecoded(rec, k, name.value, b, i);
    KindTagIs(i);
  }

  lemma DispatchAccepted(rec: Rec, b: Budget, i: Invocation)
    requires InvocationSays(rec, i) && InvocationFits(i, b) && InvocationWithin(rec, i, b)
    ensures DecodeDispatch(rec, b) == Ok(i)
  {
    KindTagIs(i);
    var k := KindOfTag(i).value;
    KindRead(KindText(k), k);
    TextRead(Get(rec, "kind"), b, false, KindText(k));
    TextRead(Get(rec, "name"), b, false, i.name);
    KindDecoded(rec, k, i.name, b, i);
  }

  predicate Accepted(rec: Rec, e: Effect, b: Budget, surface: Surface) {
    BodySays(rec, e) && EffectFits(e, b, surface) && BodyWithin(rec, e, b)
  }

  lemma NotifyRead(rec: Rec, b: Budget, surface: Surface, e: Effect)
    ensures DecodeNotify(rec, b) == Ok(e) <==> e.Notify? && Accepted(rec, e, b, surface)
  {
    var level := RequiredText(Get(rec, "level"), b, false);
    if e.Notify? {
      LevelRead(LevelTag(e.level), e.level);
      if level.Ok? { LevelRead(level.value, e.level); }
      TextRead(Get(rec, "level"), b, false, LevelTag(e.level));
      TextRead(Get(rec, "message"), b, false, e.message);
    }
  }

  lemma StateRead(rec: Rec, b: Budget, surface: Surface, e: Effect)
    ensures DecodeStateOp(rec, b) == Ok(e) <==> (e.StateSet? || e.StateUnset?) && Accepted(rec, e, b, surface)
  {
    OpsDiffer();
    TextRead(Get(rec, "op"), b, false, "set");
    TextRead(Get(rec, "op"), b, false, "unset");
    if e.StateSet? || e.StateUnset? { TextRead(Get(rec, "key"), b, false, e.key); }
    if e.StateSet? { TextRead(Get(rec, "value"), b, true, e.value); }
  }

  lemma OpsDiffer()
    ensures "set" != "unset" && "set" != "cancel"
  {
  }

  lemma ScheduleRead(rec: Rec, b: Budget, surface: Surface, e: Effect)
    ensures DecodeSchedule(rec, b) == Ok(e) <==> (e.ScheduleSet? || e.ScheduleCancel?) && Accepted(rec, e, b, surface)
  {
    ScheduleOp(rec, b, e);
    if e.ScheduleSet? && TextIs(Get(rec, "op"), "set") {
      ScheduleSetRead(rec, b, surface, e);
    } else if e.ScheduleCancel? && TextIs(Get(rec, "op"), "cancel") {
      ScheduleCancelRead(rec, b, surface, e);
    }
  }

  lemma ScheduleOp(rec: Rec, b: Budget, e: Effect)
    ensures DecodeSchedule(rec, b) == Ok(e) ==>
      || (e.ScheduleSet? && TextIs(Get(rec, "op"), "set"))
      || (e.ScheduleCancel? && TextIs(Get(rec, "op"), "cancel"))
  {
  }

  lemma ScheduleCancelRead(rec: Rec, b: Budget, surface: Surface, e: Effect)
    requires e.ScheduleCancel? && TextIs(Get(rec, "op"), "cancel")
    ensures DecodeSchedule(rec, b) == Ok(e) <==> Accepted(rec, e, b, surface)
  {
    OpsDiffer();
    TextRead(Get(rec, "op"), b, false, "cancel");
    TextRead(Get(rec, "key"), b, false, e.key);
  }

  lemma ScheduleSetRead(rec: Rec, b: Budget, surface: Surface, e: Effect)
    requires e.ScheduleSet? && TextIs(Get(rec, "op"), "set")
    ensures DecodeSchedule(rec, b) == Ok(e) <==> Accepted(rec, e, b, surface)
  {
    TextRead(Get(rec, "op"), b, false, "set");
    TextRead(Get(rec, "key"), b, false, e.key);
    TextRead(Get(rec, "macro"), b, false, e.macroName);
    ArgsRead(Get(rec, "args"), b, e.args);
  }

  lemma EditRead(rec: Rec, b: Budget, surface: Surface, e: Effect)
    ensures DecodeEdit(rec, b) == Ok(e) <==> e.EditText? && Accepted(rec, e, b, surface)
  {
    var op := RequiredText(Get(rec, "op"), b, false);
    if e.EditText? {
      EditOpRead(EditTag(e.op), e.op);
      if op.Ok? { EditOpRead(op.value, e.op); }
      TextRead(Get(rec, "op"), b, false, EditTag(e.op));
      TextRead(Get(rec, "text"), b, true, e.text);
    }
  }

  lemma TypedRead(kind: EffectType, rec: Rec, b: Budget, surface: Surface, e: Effect)
    ensures DecodeTyped(kind, rec, b, surface) == Ok(e) <==> TypeOf(e) == kind && Accepted(rec, e, b, surface)
  {
    match kind
    case DispatchType => if e.Dispatch? { DispatchRead(rec, b, e.invocation); }
    case NotifyType => NotifyRead(rec, b, surface, e);
    case StopType =>
    case ClipboardType => if e.SetClipboard? { TextRead(Get(rec, "text"), b, true, e.text); }
    case StateType => StateRead(rec, b, surface, e);
    case ScheduleType => ScheduleRead(rec, b, surface, e);
    case EditType => EditRead(rec, b, surface, e);
  }

  /** The decoder yields an effect if and only if the record says that effect and
      everything that is read is within the budget. */
  lemma DecodesExactly(rec: Rec, b: Budget, surface: Surface, e: Effect)
    ensures DecodeRecord(rec, b, surface) == Ok(e) <==>
      Says(rec, e) && EffectFits(e, b, surface) && RecordWithin(rec, e, b)
  {
    TypeRead("", e);
    TagsDiffer();
    var kind := RequiredText(Get(rec, "type"), b, false);
    TextRead(Get(rec, "type"), b, false, TypeTag(e));
    TypeRead(TypeTag(e), e);
    TypedRead(TypeOf(e), rec, b, surface, e);
    if kind.Ok? && ParseType(kind.value).Some? {
      TypedRead(ParseType(kind.value).value, rec, b, surface, e);
      TypeRead(kind.value, e);
    }
  }

  // ---------------------------------------------------------------------
  // Encoding
  // ---------------------------------------------------------------------

  function TextList(args: seq<string>): Value { List(Strings(args)) }

  function CharField(key: string, c: Option<char>): Rec { if c.Some? then [Field(key, Str([c.value]))] else [] }

  /** A count of one and an unset flag are left out. */
  function EncodedAction(count: nat, extend: bool, register: Option<char>, charArg: Option<char>): Rec {
    (if count == 1 then [] else [Field("count", Int(count))]) +
    (if extend then [Field("extend", Bool(true))] else []) +
    CharField("register", register) + CharField("char", charArg)
  }

  function InvocationFields(i: Invocation): Rec {
    match i
    case Action(_, count, extend, register) => EncodedAction(count, extend, register, None)
    case ActionWithChar(_, count, extend, register, c) => EncodedAction(count, extend, register, Some(c))
    case Command(_, args, _) => [Field("args", TextList(args))]
    case NuMacro(_, args) => [Field("args", TextList(args))]
  }

  function EncodedInvocation(i: Invocation): Rec {
    var kind := if KindTag(i).Some? then KindTag(i).value else "registry";
    [Field("kind", Str(kind)), Field("name", Str(i.name))] + InvocationFields(i)
  }

  /** The record of an effect. */
  function Encoded(e: Effect): Rec {
    [Field("type", Str(TypeTag(e)))] +
    match e
    case Dispatch(i) => EncodedInvocation(i)
    case Notify(level, message) => [Field("level", Str(LevelTag(level))), Field("message", Str(message))]
    case StopPropagation => []
    case EditText(op, text) => [Field("op", Str(EditTag(op))), Field("text", Str(text))]
    case SetClipboard(text) => [Field("text", Str(text))]
    case StateSet(key, value) => [Field("op", Str("set")), Field("key", Str(key)), Field("value", Str(value))]
    case StateUnset(key) => [Field("op", Str("unset")), Field("key", Str(key))]
    case ScheduleSet(key, delay, name, args) =>
      [Field("op", Str("set")), Field("key", Str(key)), Field("delay_ms", Int(delay)),
       Field("macro", Str(name)), Field("args", TextList(args))]
    case ScheduleCancel(key) => [Field("op", Str("cancel")), Field("key", Str(key))]
  }

  lemma {:induction false} GetConcat(a: Rec, b: Rec, key: string)
    ensures Get(a + b, key) == if Get(a, key).Some? then Get(a, key) else Get(b, key)
  {
    if a == [] {
      assert a + b == b;
    } else {
      assert (a + b)[0] == a[0] && (a + b)[1..] == a[1..] + b;
      GetConcat(a[1..], b, key);
    }
  }

  lemma GetOne(f: Field, rest: Rec, key: string)
    ensures Get([f] + rest, key) == if f.key == key then Some(f.value) else Get(rest, key)
  {
    GetConcat([f], rest, key);
    assert [f][1..] == [];
  }

  lemma GetOnly(f: Field, key: string)
    ensures Get([f], key) == if f.key == key then Some(f.value) else None
  {
    assert [f][1..] == [];
  }

  lemma GetTwo(f: Field, g: Field, key: string)
    ensures Get([f, g], key) ==
      if f.key == key then Some(f.value) else if g.key == key then Some(g.value) else None
  {
    assert [f, g] == [f] + [g];
    GetOne(f, [g], key);
    GetOnly(g, key);
  }

  lemma GetThree(f: Field, g: Field, h: Field, key: string)
    ensures Get([f, g, h], key) ==
      if f.key == key then Some(f.value) else if g.key == key then Some(g.value)
      else if h.key == key then Some(h.value) else None
  {
    assert [f, g, h] == [f] + [g, h];
    GetOne(f, [g, h], key);
    GetTwo(g, h, key);
  }

  lemma KeysDiffer()
    ensures "type" != "kind" && "type" != "name" && "type" != "char" && "type" != "args" && "type" != "text"
    ensures "kind" != "name" && "kind" != "char" && "kind" != "args" && "name" != "char" && "name" != "args"
    ensures "count" != "level" && "count" != "value" && "count" != "macro"
  {
    assert "type"[0] == 't' && "kind"[0] == 'k' && "name"[0] == 'n' && "char"[0] == 'c' && "args"[0] == 'a';
    assert "text"[1] == 'e' && "type"[1] == 'y';
    assert "count"[0] == 'c' && "level"[0] == 'l' && "value"[0] == 'v' && "macro"[0] == 'm';
  }

  lemma ActionGets(count: nat, extend: bool, register: Option<char>, charArg: Option<char>)
    ensures ActionHolds(EncodedAction(count, extend, register, charArg), count, extend, register, charArg)
  {
    ActionGet(count, extend, register, charArg, "count");
    ActionGet(count, extend, register, charArg, "extend");
    ActionGet(count, extend, register, charArg, "register");
    ActionGet(count, extend, register, charArg, "char");
  }

  lemma ActionGet(count: nat, extend: bool, register: Option<char>, charArg: Option<char>, key: string)
    ensures Get(EncodedAction(count, extend, register, charArg), key) ==
      if key == "count" && count != 1 then Some(Int(count))
      else if key == "extend" && extend then Some(Bool(true))
      else if key == "register" && register.Some? then Some(Str([register.value]))
      else if key == "char" && charArg.Some? then Some(Str([charArg.value]))
      else None
  {
    var a := if count == 1 then [] else [Field("count", Int(count))];
    var b := if extend then [Field("extend", Bool(true))] else [];
    var c, d := CharField("register", register), CharField("char", charArg);
    GetConcat(a + b + c, d, key);
    GetConcat(a + b, c, key);
    GetConcat(a, b, key);
    GetOnly(Field("count", Int(count)), key);
    GetOnly(Field("extend", Bool(true)), key);
    if register.Some? { GetOnly(Field("register", Str([register.value])), key); }
    if charArg.Some? { GetOnly(Field("char", Str([charArg.value])), key); }
    assert |"count"| == 5 && |"extend"| == 6 && |"register"| == 8 && |"char"| == 4;
  }

  lemma GetBehind(f: Field, g: Field, h: Field, rest: Rec, key: string)
    ensures Get([f] + ([g, h] + rest), key) ==
      if f.key == key then Some(f.value) else if g.key == key then Some(g.value)
      else if h.key == key then Some(h.value) else Get(rest, key)
  {
    GetOne(f, [g, h] + rest, key);
    GetConcat([g, h], rest, key);
    GetTwo(g, h, key);
  }

  /** Behind the type, the kind and the name. */
  lemma DispatchGet(i: Invocation, key: string)
    requires KindTag(i).Some?
    ensures Get(Encoded(Dispatch(i)), key) ==
      if key == "type" then Some(Str("dispatch"))
      else if key == "kind" then Some(Str(KindTag(i).value))
      else if key == "name" then Some(Str(i.name))
      else Get(InvocationFields(i), key)
  {
    GetBehind(Field("type", Str("dispatch")), Field("kind", Str(KindTag(i).value)), Field("name", Str(i.name)),
              InvocationFields(i), key);
  }

  lemma DispatchGets(i: Invocation)
    requires KindTag(i).Some?
    ensures var rec := Encoded(Dispatch(i));
      Get(rec, "type") == Some(Str("dispatch")) && Get(rec, "kind") == Some(Str(KindTag(i).value))
      && Get(rec, "name") == Some(Str(i.name))
  {
    KeysDiffer();
    DispatchGet(i, "type");
    DispatchGet(i, "kind");
    DispatchGet(i, "name");
  }

  predicate OtherKey(key: string) { key != "type" && key != "kind" && key != "name" }

  lemma OtherKeys()
    ensures OtherKey("count") && OtherKey("extend") && OtherKey("register") && OtherKey("char") && OtherKey("args")
  {
    KeysDiffer();
    assert |"count"| == 5 && |"extend"| == 6 && |"register"| == 8;
  }

  lemma FieldsGet(i: Invocation, key: string)
    requires KindTag(i).Some? && OtherKey(key)
    ensures Get(Encoded(Dispatch(i)), key) == Get(InvocationFields(i), key)
  {
    DispatchGet(i, key);
  }

  predicate ActionHolds(rec: Rec, count: nat, extend: bool, register: Option<char>, charArg: Option<char>) {
    && Get(rec, "count") == (if count == 1 then None else Some(Int(count)))
    && Get(rec, "extend") == (if extend then Some(Bool(true)) else None)
    && Get(rec, "register") == (if register.Some? then Some(Str([register.value])) else None)
    && Get(rec, "char") == (if charArg.Some? then Some(Str([charArg.value])) else None)
  }

  lemma ActionHeld(rec: Rec, count: nat, extend: bool, register: Option<char>, charArg: Option<char>)
    requires ActionHolds(rec, count, extend, register, charArg) && count >= 1
    ensures ActionSays(rec, count, extend, register, charArg)
  {
  }

  lemma EncodedActionHolds(i: Invocation)
    requires IsAction(i)
    ensures ActionHolds(Encoded(Dispatch(i)), i.count, i.extend, i.register, CharArg(i))
  {
    OtherKeys();
    FieldsGet(i, "count");
    FieldsGet(i, "extend");
    FieldsGet(i, "register");
    FieldsGet(i, "char");
    ActionGets(i.count, i.extend, i.register, CharArg(i));
  }

  lemma EncodedActionSays(i: Invocation)
    requires IsAction(i) && i.count >= 1
    ensures FieldsSay(Encoded(Dispatch(i)), i)
    ensures Get(Encoded(Dispatch(i)), "count") == if i.count == 1 then None else Some(Int(i.count))
  {
    EncodedActionHolds(i);
    ActionHeld(Encoded(Dispatch(i)), i.count, i.extend, i.register, CharArg(i));
  }

  lemma EncodedArgsSay(i: Invocation)
    requires !IsAction(i) && KindTag(i).Some?
    ensures FieldsSay(Encoded(Dispatch(i)), i)
  {
    OtherKeys();
    GetOnly(Field("args", TextList(i.args)), "args");
    FieldsGet(i, "args");
  }

  lemma EncodedDispatchSays(i: Invocation, b: Budget)
    requires InvocationFits(i, b)
    ensures Says(Encoded(Dispatch(i)), Dispatch(i))
    ensures FieldsWithin(Encoded(Dispatch(i)), i, b) <==> FieldsWithin([], i, b)
  {
    DispatchGets(i);
    if IsAction(i) { EncodedActionSays(i); } else { EncodedArgsSay(i); }
  }

  /** The type comes first, and then two fields. */
  lemma PairSays(tag: string, f: Field, g: Field)
    requires f.key != "type" && g.key != "type" && f.key != g.key
    ensures var rec := [Field("type", Str(tag))] + [f, g];
      Get(rec, "type") == Some(Str(tag)) && Get(rec, f.key) == Some(f.value) && Get(rec, g.key) == Some(g.value)
  {
    var head := Field("type", Str(tag));
    GetOne(head, [f, g], "type");
    GetOne(head, [f, g], f.key);
    GetOne(head, [f, g], g.key);
    GetTwo(f, g, f.key);
    GetTwo(f, g, g.key);
  }

  lemma PlainKeys()
    ensures "level" != "type" && "message" != "type" && "level" != "message" && "op" != "type" && "op" != "text"
    ensures "key" != "type" && "op" != "key" && "text" != "type"
  {
    KeysDiffer();
    assert |"level"| == 5 && |"message"| == 7 && |"op"| == 2 && |"key"| == 3;
  }

  lemma EncodedPairSays(e: Effect)
    requires e.Notify? || e.EditText? || e.StateUnset? || e.ScheduleCancel?
    ensures Says(Encoded(e), e)
  {
    PlainKeys();
    match e
    case Notify(level, message) =>
      PairSays("notify", Field("level", Str(LevelTag(level))), Field("message", Str(message)));
    case EditText(op, text) => PairSays("edit", Field("op", Str(EditTag(op))), Field("text", Str(text)));
    case StateUnset(key) => PairSays("state", Field("op", Str("unset")), Field("key", Str(key)));
    case ScheduleCancel(key) => PairSays("schedule", Field("op", Str("cancel")), Field("key", Str(key)));
  }

  lemma EncodedStateSays(e: Effect)
    requires e.StateSet?
    ensures Says(Encoded(e), e)
  {
    var head, op := Field("type", Str("state")), Field("op", Str("set"));
    var key, value := Field("key", Str(e.key)), Field("value", Str(e.value));
    PlainKeys();
    assert |"value"| == 5 && |"type"| == 4 && |"op"| == 2 && |"key"| == 3;
    GetOne(head, [op, key, value], "type");
    GetOne(head, [op, key, value], "op");
    GetOne(head, [op, key, value], "key");
    GetOne(head, [op, key, value], "value");
    GetThree(op, key, value, "op");
    GetThree(op, key, value, "key");
    GetThree(op, key, value, "value");
  }

  lemma ScheduleGet(e: Effect, key: string)
    requires e.ScheduleSet?
    ensures Get(Encoded(e), key) ==
      if key == "type" then Some(Str("schedule"))
      else if key == "op" then Some(Str("set"))
      else if key == "key" then Some(Str(e.key))
      else if key == "delay_ms" then Some(Int(e.delayMs))
      else if key == "macro" then Some(Str(e.macroName))
      else if key == "args" then Some(TextList(e.args)) else None
  {
    var head, op, k := Field("type", Str("schedule")), Field("op", Str("set")), Field("key", Str(e.key));
    var delay, name := Field("delay_ms", Int(e.delayMs)), Field("macro", Str(e.macroName));
    var args := Field("args", TextList(e.args));
    assert Encoded(e) == [head] + ([op, k] + [delay, name, args]);
    GetBehind(head, op, k, [delay, name, args], key);
    GetThree(delay, name, args, key);
  }

  lemma EncodedScheduleSays(e: Effect)
    requires e.ScheduleSet?
    ensures Says(Encoded(e), e)
  {
    ScheduleGets(e);
    ScheduleHeld(Encoded(e), e);
  }

  lemma ScheduleHeld(rec: Rec, e: Effect)
    requires e.ScheduleSet?
    requires Get(rec, "type") == Some(Str("schedule")) && Get(rec, "op") == Some(Str("set"))
    requires Get(rec, "key") == Some(Str(e.key)) && Get(rec, "delay_ms") == Some(Int(e.delayMs))
    requires Get(rec, "macro") == Some(Str(e.macroName)) && Get(rec, "args") == Some(TextList(e.args))
    ensures Says(rec, e)
  {
  }

  lemma ScheduleGets(e: Effect)
    requires e.ScheduleSet?
    ensures var rec := Encoded(e);
      && Get(rec, "type") == Some(Str("schedule")) && Get(rec, "op") == Some(Str("set"))
      && Get(rec, "key") == Some(Str(e.key)) && Get(rec, "delay_ms") == Some(Int(e.delayMs))
      && Get(rec, "macro") == Some(Str(e.macroName)) && Get(rec, "args") == Some(TextList(e.args))
  {
    ScheduleKeys();
    ScheduleGet(e, "type");
    ScheduleGet(e, "op");
    ScheduleGet(e, "key");
    ScheduleGet(e, "delay_ms");
    ScheduleGet(e, "macro");
    ScheduleGet(e, "args");
  }

  lemma ScheduleKeys()
    ensures "op" != "type" && "key" != "type" && "key" != "op" && "delay_ms" != "type" && "delay_ms" != "op"
    ensures "delay_ms" != "key" && "macro" != "type" && "macro" != "op" && "macro" != "key" && "macro" != "delay_ms"
    ensures "args" != "type" && "args" != "op" && "args" != "key" && "args" != "delay_ms" && "args" != "macro"
  {
    KeysDiffer();
    assert |"type"| == 4 && |"op"| == 2 && |"key"| == 3 && |"delay_ms"| == 8 && |"macro"| == 5 && |"args"| == 4;
  }

  lemma EncodedSays(e: Effect, b: Budget, surface: Surface)
    requires EffectFits(e, b, surface)
    ensures Says(Encoded(e), e) && (RecordWithin(Encoded(e), e, b) <==> RecordWithin([], e, b))
  {
    match e
    case Dispatch(i) => EncodedDispatchSays(i, b);
    case StopPropagation => GetOne(Field("type", Str("stop")), [], "type");
    case SetClipboard(text) => EncodedClipboardSays(e);
    case StateSet(_, _) => EncodedStateSays(e);
    case ScheduleSet(_, _, _, _) => EncodedScheduleSays(e);
    case _ => EncodedPairSays(e);
  }

  lemma EncodedClipboardSays(e: Effect)
    requires e.SetClipboard?
    ensures Says(Encoded(e), e)
  {
    var head, text := Field("type", Str("clipboard")), Field("text", Str(e.text));
    PlainKeys();
    GetOne(head, [text], "type");
    GetOne(head, [text], "text");
    GetOnly(text, "text");
  }

  /** Every effect comes back from its own record if and only if it is within the
      budget, and so are its tags and one-character fields. */
  lemma EncodedDecodes(e: Effect, b: Budget, surface: Surface)
    ensures DecodeRecord(Encoded(e), b, surface) == Ok(e) <==> EffectFits(e, b, surface) && RecordWithin([], e, b)
  {
    DecodesExactly(Encoded(e), b, surface, e);
    if EffectFits(e, b, surface) { EncodedSays(e, b, surface); }
  }

  // ---------------------------------------------------------------------
  // Batches
  // ---------------------------------------------------------------------

  function Records(recs: seq<Rec>): (vs: seq<Value>)
    ensures |vs| == |recs| && forall i :: 0 <= i < |recs| ==> vs[i] == Record(recs[i])
  {
    seq(|recs|, i requires 0 <= i < |recs| => Record(recs[i]))
  }

  predicate BareAll(recs: seq<Rec>) { forall i :: 0 <= i < |recs| ==> Get(recs[i], "effects").None? }

  lemma {:induction false} FlattenRecords(recs: seq<Rec>, maxLen: nat)
    requires BareAll(recs)
    ensures FlattenAll(Records(recs), maxLen) == Flat(true, recs, |recs|, [])
  {
    if recs != [] {
      assert Records(recs)[0] == Record(recs[0]) && Records(recs)[1..] == Records(recs[1..]);
      assert BareAll(recs[1..]);
      FlattenRecords(recs[1..], maxLen);
      assert Flatten(Record(recs[0]), maxLen) == Flat(true, [recs[0]], 0, []);
      assert [recs[0]] + recs[1..] == recs;
    }
  }

  /** An envelope with its optional fields. */
  function Envelope(recs: seq<Rec>, version: Option<int>, warnings: Option<seq<string>>): Rec {
    [Field("effects", List(Records(recs)))] +
    (if version.Some? then [Field("schema_version", Int(version.value))] else []) +
    (if warnings.Some? then [Field("warnings", TextList(warnings.value))] else [])
  }

  lemma EnvelopeGet(recs: seq<Rec>, version: Option<int>, warnings: Option<seq<string>>, key: string)
    ensures Get(Envelope(recs, version, warnings), key) ==
      if key == "effects" then Some(List(Records(recs)))
      else if key == "schema_version" && version.Some? then Some(Int(version.value))
      else if key == "warnings" && warnings.Some? then Some(TextList(warnings.value))
      else None
  {
    var a, b, c := [Field("effects", List(Records(recs)))],
      if version.Some? then [Field("schema_version", Int(version.value))] else [],
      if warnings.Some? then [Field("warnings", TextList(warnings.value))] else [];
    GetConcat(a + b, c, key);
    GetConcat(a, b, key);
    GetOnly(Field("effects", List(Records(recs))), key);
    if version.Some? { GetOnly(Field("schema_version", Int(version.value)), key); }
    if warnings.Some? { GetOnly(Field("warnings", TextList(warnings.value)), key); }
    EnvelopeKeys();
  }

  lemma EnvelopeKeys()
    ensures "effects" != "schema_version" && "effects" != "warnings" && "schema_version" != "warnings"
  {
    assert |"effects"| == 7 && |"schema_version"| == 14 && |"warnings"| == 8;
  }

  predicate Short(texts: seq<string>, maxLen: nat) { forall i :: 0 <= i < |texts| ==> ByteLen(texts[i]) <= maxLen }

  lemma {:induction false} EligibleAll(texts: seq<string>, maxLen: nat)
    requires Short(texts, maxLen)
    ensures Eligible(Strings(texts), maxLen) == texts
  {
    if texts != [] {
      assert Strings(texts)[1..] == Strings(texts[1..]);
      EligibleAll(texts[1..], maxLen);
      assert [texts[0]] + texts[1..] == texts;
    }
  }

  /** A version may be left out; otherwise it must be 1. */
  lemma EnvelopeFlattens(recs: seq<Rec>, version: Option<int>, warnings: Option<seq<string>>, maxLen: nat)
    requires BareAll(recs) && (warnings.Some? ==> Short(warnings.value, maxLen))
    ensures Flatten(Record(Envelope(recs, version, warnings)), maxLen) ==
      Flat(version.None? || version.value == 1, recs, |recs|, if warnings.Some? then warnings.value else [])
  {
    EnvelopeGets(recs, version, warnings);
    if warnings.Some? { EligibleAll(warnings.value, maxLen); }
    FlattenRecords(recs, maxLen);
    FlattenedEnvelope(Envelope(recs, version, warnings), Records(recs), maxLen);
    assert recs + [] == recs && (warnings.Some? ==> [] + warnings.value == warnings.value);
  }

  lemma EnvelopeGets(recs: seq<Rec>, version: Option<int>, warnings: Option<seq<string>>)
    ensures var rec := Envelope(recs, version, warnings);
      && Get(rec, EFFECTS) == Some(List(Records(recs)))
      && Get(rec, SCHEMA_VERSION) == (if version.Some? then Some(Int(version.value)) else None)
      && Get(rec, WARNINGS) == (if warnings.Some? then Some(TextList(warnings.value)) else None)
  {
    EnvelopeKeys();
    EnvelopeGet(recs, version, warnings, "effects");
    EnvelopeGet(recs, version, warnings, "schema_version");
    EnvelopeGet(recs, version, warnings, "warnings");
  }

  lemma FlattenedEnvelope(rec: Rec, items: seq<Value>, maxLen: nat)
    requires Get(rec, EFFECTS) == Some(List(items))
    ensures var all := FlattenAll(items, maxLen);
      Flatten(Record(rec), maxLen) ==
      Flat(all.ok && VersionOk(rec), all.leaves + [], all.items, all.warnings + OwnWarnings(rec, maxLen))
  {
  }

  /** The records of a sequence of effects. */
  function AllEncoded(es: seq<Effect>): (recs: seq<Rec>)
    ensures |recs| == |es| && forall i :: 0 <= i < |es| ==> recs[i] == Encoded(es[i])
  {
    seq(|es|, i requires 0 <= i < |es| => Encoded(es[i]))
  }

  /** Not the key of an envelope. */
  predicate EffectKey(key: string) { |key| != 7 || key == "message" }

  predicate EffectKeys(rec: Rec) { forall i :: 0 <= i < |rec| ==> EffectKey(rec[i].key) }

  lemma EncodedKeys(e: Effect)
    ensures EffectKeys(Encoded(e))
  {
    match e
    case Dispatch(i) => DispatchKeys(i);
    case ScheduleSet(_, _, _, _) =>
      assert |"delay_ms"| == 8 && |"macro"| == 5 && |"args"| == 4 && |"type"| == 4 && |"op"| == 2 && |"key"| == 3;
    case _ => assert |"type"| == 4 && |"op"| == 2 && |"key"| == 3 && |"text"| == 4 && |"value"| == 5 && |"level"| == 5;
  }

  lemma DispatchKeys(i: Invocation)
    ensures EffectKeys(Encoded(Dispatch(i)))
  {
    assert |"type"| == 4 && |"kind"| == 4 && |"name"| == 4 && |"args"| == 4;
    assert |"count"| == 5 && |"extend"| == 6 && |"register"| == 8 && |"char"| == 4;
    assert EffectKeys(InvocationFields(i));
  }

  lemma EncodedIsBare(e: Effect)
    ensures Get(Encoded(e), "effects").None?
  {
    EncodedKeys(e);
    assert |"effects"| == 7 && "effects"[0] == 'e' && "message"[0] == 'm';
  }

  ghost predicate EachFits(es: seq<Effect>, b: Budget, surface: Surface) {
    forall i :: 0 <= i < |es| ==> EffectFits(es[i], b, surface) && RecordWithin([], es[i], b)
  }

  /** What is counted: the effects, and the nodes that lead to them. */
  ghost predicate BatchFits(es: seq<Effect>, nodes: nat, b: Budget, surface: Surface) {
    |es| <= b.maxEffects && nodes <= b.maxNodes && EachFits(es, b, surface)
  }

  lemma EncodedAll(es: seq<Effect>, b: Budget, surface: Surface)
    ensures BareAll(AllEncoded(es))
    ensures EffectsOf(es, AllEncoded(es), b, surface) <==> EachFits(es, b, surface)
  {
    forall i | 0 <= i < |es|
      ensures Get(AllEncoded(es)[i], "effects").None?
      ensures DecodeRecord(AllEncoded(es)[i], b, surface) == Ok(es[i]) <==>
        EffectFits(es[i], b, surface) && RecordWithin([], es[i], b)
    {
      EncodedIsBare(es[i]);
      EncodedDecodes(es[i], b, surface);
    }
  }

  /** `value` decodes to exactly these effects and warnings. */
  ghost predicate DecodesTo(value: Value, es: seq<Effect>, warnings: seq<string>, b: Budget, surface: Surface) {
    var flat := Flatten(value, b.maxStringLen);
    && Decodable(value, b, surface) && EffectsOf(es, flat.leaves, b, surface)
    && Capped(flat.warnings, b.maxEffects) == warnings
  }

  lemma Arrives(value: Value, es: seq<Effect>, ok: bool, nodes: nat, warnings: seq<string>, b: Budget, surface: Surface)
    requires Flatten(value, b.maxStringLen) == Flat(ok, AllEncoded(es), nodes, warnings)
    ensures DecodesTo(value, es, Capped(warnings, b.maxEffects), b, surface) <==>
      ok && BatchFits(es, nodes + 1, b, surface)
  {
    EncodedAll(es, b, surface);
  }

  /** Effects sent in an envelope arrive exactly when they are within the budget
      and the version, if there is one, is 1. */
  lemma EnvelopeArrives(es: seq<Effect>, version: Option<int>, warnings: Option<seq<string>>,
                        b: Budget, surface: Surface)
    requires warnings.Some? ==> Short(warnings.value, b.maxStringLen)
    ensures var value := Record(Envelope(AllEncoded(es), version, warnings));
      DecodesTo(value, es, Capped(if warnings.Some? then warnings.value else [], b.maxEffects), b, surface) <==>
      (version.None? || version.value == 1) && BatchFits(es, |es| + 1, b, surface)
  {
    var value := Record(Envelope(AllEncoded(es), version, warnings));
    var texts := if warnings.Some? then warnings.value else [];
    EncodedAll(es, b, surface);
    EnvelopeFlattens(AllEncoded(es), version, warnings, b.maxStringLen);
    Arrives(value, es, version.None? || version.value == 1, |es|, texts, b, surface);
  }

  /** So do effects sent as a list. */
  lemma ListArrives(es: seq<Effect>, b: Budget, surface: Surface)
    ensures DecodesTo(List(Records(AllEncoded(es))), es, [], b, surface) <==> BatchFits(es, |es| + 1, b, surface)
  {
    assert BareAll(AllEncoded(es)) by { EncodedAll(es, b, surface); }
    FlattenedList(AllEncoded(es), b.maxStringLen);
    Arrives(List(Records(AllEncoded(es))), es, true, |es|, [], b, surface);
  }

  lemma FlattenedList(recs: seq<Rec>, maxLen: nat)
    requires BareAll(recs)
    ensures Flatten(List(Records(recs)), maxLen) == Flat(true, recs, |recs|, [])
  {
    FlattenRecords(recs, maxLen);
  }

  /** A single effect needs no list. */
  lemma SingleArrives(e: Effect, b: Budget, surface: Surface)
    ensures DecodesTo(Record(Encoded(e)), [e], [], b, surface) <==> BatchFits([e], 1, b, surface)
  {
    EncodedIsBare(e);
    assert [Encoded(e)] == AllEncoded([e]);
    Arrives(Record(Encoded(e)), [e], true, 0, [], b, surface);
  }

  /** And nothing is no effects. */
  lemma NothingArrives(b: Budget, surface: Surface)
    ensures DecodesTo(Nothing, [], [], b, surface) <==> b.maxNodes >= 1
  {
    assert AllEncoded([]) == [];
    Arrives(Nothing, [], true, 0, [], b, surface);
  }
}
