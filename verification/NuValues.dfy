/** Values that cross the Nu boundary (crates/nu/data/src/lib.rs) and canonical
invocations (crates/invocation/src/lib.rs). */
module NuValues {
  import opened Prelude

  /** Floats are only ever looked at for their kind. */
  datatype Value =
    | Bool(flag: bool)
    | Int(n: int)
    | Float(f: real)
    | Str(s: string)
    | Record(fields: seq<Field>)
    | List(items: seq<Value>)
    | Nothing

  datatype Field = Field(key: string, value: Value)

  /** A record: its keys are unique, so the order of fields does not matter. */
  type Rec = seq<Field>

  function Get(rec: Rec, key: string): (r: Option<Value>)
    ensures r.Some? ==> exists i :: 0 <= i < |rec| && rec[i] == Field(key, r.value)
    ensures r.None? ==> forall i :: 0 <= i < |rec| ==> rec[i].key != key
  {
    if rec == [] then None
    else if rec[0].key == key then Some(rec[0].value)
    else Get(rec[1..], key)
  }

  predicate Has(rec: Rec, key: string) { Get(rec, key).Some? }

  predicate UniqueKeys(rec: Rec) {
    forall i, j :: 0 <= i < j < |rec| ==> rec[i].key != rec[j].key
  }

  /** `Record::push` of a new key. */
  function Push(rec: Rec, key: string, value: Value): Rec { rec + [Field(key, value)] }

  lemma {:induction false} GetPush(rec: Rec, key: string, value: Value, k: string)
    ensures Get(Push(rec, key, value), k) ==
      if Get(rec, k).Some? then Get(rec, k) else if k == key then Some(value) else None
  {
    var all := Push(rec, key, value);
    if rec == [] {
      assert all[1..] == [];
    } else {
      assert all[0] == rec[0] && all[1..] == Push(rec[1..], key, value);
      GetPush(rec[1..], key, value, k);
    }
  }

  /** A measure for traversals. */
  function Size(v: Value): nat
    decreases v, 1
  {
    match v
    case Record(fields) => 1 + SizeFields(fields)
    case List(items) => 1 + SizeList(items)
    case _ => 1
  }

  function SizeFields(fields: seq<Field>): nat
    decreases fields, 0
  {
    if fields == [] then 0 else 1 + Size(fields[0].value) + SizeFields(fields[1..])
  }

  function SizeList(items: seq<Value>): nat
    decreases items, 0
  {
    if items == [] then 0 else 1 + Size(items[0]) + SizeList(items[1..])
  }

  lemma {:induction false} GetIsSmaller(rec: Rec, key: string)
    ensures Get(rec, key).Some? ==> Size(Get(rec, key).value) < SizeFields(rec)
  {
    if rec != [] { GetIsSmaller(rec[1..], key); }
  }

  lemma OneChar(c: char)
    ensures 1 <= ByteLen([c]) <= 4
  {
    assert [c][1..] == [];
  }

  // ---------------------------------------------------------------------
  // Invocations
  // ---------------------------------------------------------------------

  datatype CommandRoute = Auto | Registry | Editor

  datatype Invocation =
    | Action(name: string, count: nat, extend: bool, register: Option<char>)
    | ActionWithChar(name: string, count: nat, extend: bool, register: Option<char>, charArg: char)
    | Command(name: string, args: seq<string>, route: CommandRoute)
    | NuMacro(name: string, args: seq<string>)

  predicate IsAction(i: Invocation) { i.Action? || i.ActionWithChar? }

  function CharArg(i: Invocation): Option<char> { if i.ActionWithChar? then Some(i.charArg) else None }

  function Strings(args: seq<string>): (r: seq<Value>)
    ensures |r| == |args| && forall i :: 0 <= i < |args| ==> r[i] == Str(args[i])
  {
    seq(|args|, i requires 0 <= i < |args| => Str(args[i]))
  }

  // ---------------------------------------------------------------------
  // Field names and kinds (crates/invocation/src/schema.rs)
  // ---------------------------------------------------------------------

  const KIND := "kind"
  const NAME := "name"
  const ARGS := "args"
  const COUNT := "count"
  const EXTEND := "extend"
  const REGISTER := "register"
  const CHAR := "char"

  const KIND_ACTION := "action"
  const KIND_COMMAND := "command"
  const KIND_EDITOR := "editor"
  const KIND_NU := "nu"

  datatype Kind = ActionKind | CommandKind | EditorKind | NuKind

  function KindText(k: Kind): string {
    match k
    case ActionKind => KIND_ACTION
    case CommandKind => KIND_COMMAND
    case EditorKind => KIND_EDITOR
    case NuKind => KIND_NU
  }

  function ParseKind(s: string): (k: Option<Kind>)
    ensures k.Some? ==> KindText(k.value) == s
  {
    if s == KIND_ACTION then Some(ActionKind)
    else if s == KIND_COMMAND then Some(CommandKind)
    else if s == KIND_EDITOR then Some(EditorKind)
    else if s == KIND_NU then Some(NuKind)
    else None
  }

  function KindOf(i: Invocation): Kind {
    if IsAction(i) then ActionKind
    else if i.NuMacro? then NuKind
    else if i.route.Editor? then EditorKind
    else CommandKind
  }

  lemma KindRoundTrip(k: Kind)
    ensures ParseKind(KindText(k)) == Some(k) && KindText(k) != ""
  {
    assert KIND_ACTION[0] == 'a' && KIND_COMMAND[0] == 'c' && KIND_EDITOR[0] == 'e' && KIND_NU[0] == 'n';
  }
}
