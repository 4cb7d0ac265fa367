/** Invocation specs and their argument tokenizer (crates/invocation_spec/src/lib.rs). */
module InvocationSpecs {
  import opened Prelude

  datatype SplitError = UnterminatedDouble | TrailingInDouble | UnterminatedSingle | TrailingBackslash

  // ---------------------------------------------------------------------
  // Whitespace
  // ---------------------------------------------------------------------

  /** `char::is_whitespace`: the Unicode White_Space property. */
  predicate IsWhitespace(c: char) {
    var n := c as int;
    || 0x09 <= n <= 0x0D || n == 0x20 || n == 0x85 || n == 0xA0 || n == 0x1680
    || 0x2000 <= n <= 0x200A || n == 0x2028 || n == 0x2029 || n == 0x202F || n == 0x205F || n == 0x3000
  }

  function TrimStart(s: string): string {
    if s != [] && IsWhitespace(s[0]) then TrimStart(s[1..]) else s
  }

  function TrimEnd(s: string): string {
    if s != [] && IsWhitespace(s[|s| - 1]) then TrimEnd(s[..|s| - 1]) else s
  }

  function Trim(s: string): string { TrimEnd(TrimStart(s)) }

  /** No whitespace at either end. */
  predicate Trimmed(s: string) {
    s != [] ==> !IsWhitespace(s[0]) && !IsWhitespace(s[|s| - 1])
  }

  // ---------------------------------------------------------------------
  // The tokenizer as a function of the unread text
  // ---------------------------------------------------------------------

  /** Text collected and text left, after the opening double quote. */
  function DoubleQuoted(s: string, cur: string): (r: Result<(string, string), SplitError>)
    ensures r.Ok? ==> |r.value.1| < |s| && cur <= r.value.0
  {
    if s == [] then Err(UnterminatedDouble)
    else if s[0] == '"' then Ok((cur, s[1..]))
    else if s[0] == '\\' then
      if |s| == 1 then Err(TrailingInDouble)
      else DoubleQuoted(s[2..], cur + Unescaped(s[1]))
    else DoubleQuoted(s[1..], cur + [s[0]])
  }

  function Unescaped(c: char): string {
    if c == '"' then "\""
    else if c == '\\' then "\\"
    else if c == 'n' then "\n"
    else if c == 't' then "\t"
    else if c == 'r' then "\r"
    else ['\\', c]
  }

  function SingleQuoted(s: string, cur: string): (r: Result<(string, string), SplitError>)
    ensures r.Ok? ==> |r.value.1| < |s| && cur <= r.value.0
  {
    if s == [] then Err(UnterminatedSingle)
    else if s[0] == '\'' then Ok((cur, s[1..]))
    else SingleQuoted(s[1..], cur + [s[0]])
  }

  function Cons(cur: string, r: Result<seq<string>, SplitError>): Result<seq<string>, SplitError> {
    if cur == "" || r.Err? then r else Ok([cur] + r.value)
  }

  /** The tokens of `s`, the first one continuing `cur`. */
  function Tokens(s: string, cur: string): (r: Result<seq<string>, SplitError>)
    ensures r.Ok? ==> forall i :: 0 <= i < |r.value| ==> r.value[i] != ""
    decreases |s|
  {
    if s == [] then Cons(cur, Ok([]))
    else if s[0] == ' ' || s[0] == '\t' then Cons(cur, Tokens(s[1..], ""))
    else if s[0] == '"' then
      var q := DoubleQuoted(s[1..], cur);
      if q.Err? then Err(q.error) else Tokens(q.value.1, q.value.0)
    else if s[0] == '\'' then
      var q := SingleQuoted(s[1..], cur);
      if q.Err? then Err(q.error) else Tokens(q.value.1, q.value.0)
    else if s[0] == '\\' then
      if |s| == 1 then Err(TrailingBackslash) else Tokens(s[2..], cur + [s[1]])
    else Tokens(s[1..], cur + [s[0]])
  }

  /** `split_invocation_args`. */
  function Split(input: string): (r: Result<seq<string>, SplitError>)
    ensures r.Ok? ==> forall i :: 0 <= i < |r.value| ==> r.value[i] != ""
  {
    Tokens(Trim(input), "")
  }

  function Prepend(done: seq<string>, r: Result<seq<string>, SplitError>): Result<seq<string>, SplitError> {
    if r.Err? then r else Ok(done + r.value)
  }

  lemma PrependCons(done: seq<string>, cur: string, r: Result<seq<string>, SplitError>)
    requires cur != ""
    ensures Prepend(done, Cons(cur, r)) == Prepend(done + [cur], r)
  {
    if r.Ok? { assert done + ([cur] + r.value) == done + [cur] + r.value; }
  }

  lemma PrependNil(r: Result<seq<string>, SplitError>)
    ensures Prepend([], r) == r
  {
    if r.Ok? { assert [] + r.value == r.value; }
  }

  /** The loop over the characters, with its two inner loops. */
  method SplitInvocationArgs(input: string) returns (r: Result<seq<string>, SplitError>)
    ensures r == Split(input)
  {
    var s := Trim(input);
    if s == [] { return Ok([]); }
    var tokens: seq<string>, current, pos := [], "", 0;
    assert s[0..] == s;
    PrependNil(Tokens(s, ""));
    while pos < |s|
      invariant 0 <= pos <= |s|
      invariant Prepend(tokens, Tokens(s[pos..], current)) == Split(input)
    {
      var ch := s[pos];
      ghost var rest := s[pos..];
      assert rest[0] == ch && rest[1..] == s[pos + 1..];
      if ch == ' ' || ch == '\t' {
        if current != "" {
          PrependCons(tokens, current, Tokens(s[pos + 1..], ""));
          tokens := tokens + [current];
          current := "";
        }
        pos := pos + 1;
      } else if ch == '"' {
        pos := pos + 1;
        var q, at := ReadDouble(s, pos, current);
        if q.Err? { return Err(q.error); }
        current, pos := q.value, at;
      } else if ch == '\'' {
        pos := pos + 1;
        var q, at := ReadSingle(s, pos, current);
        if q.Err? { return Err(q.error); }
        current, pos := q.value, at;
      } else if ch == '\\' {
        pos := pos + 1;
        if pos == |s| { return Err(TrailingBackslash); }
        assert rest[2..] == s[pos + 1..] && rest[1] == s[pos];
        current := current + [s[pos]];
        pos := pos + 1;
      } else {
        current := current + [ch];
        pos := pos + 1;
      }
    }
    if current != "" {
      PrependCons(tokens, current, Ok([]));
      tokens := tokens + [current];
    }
    assert tokens + [] == tokens;
    r := Ok(tokens);
  }

  method ReadDouble(s: string, from: nat, cur: string) returns (r: Result<string, SplitError>, at: nat)
    requires from <= |s|
    ensures from <= at <= |s|
    ensures DoubleQuoted(s[from..], cur) == if r.Ok? then Ok((r.value, s[at..])) else Err(r.error)
  {
    var current := cur;
    at := from;
    while at < |s|
      invariant from <= at <= |s|
      invariant DoubleQuoted(s[at..], current) == DoubleQuoted(s[from..], cur)
    {
      ghost var rest := s[at..];
      assert rest[1..] == s[at + 1..];
      if s[at] == '"' { return Ok(current), at + 1; }
      if s[at] == '\\' {
        if at + 1 == |s| { return Err(TrailingInDouble), at; }
        assert rest[2..] == s[at + 2..];
        current := current + Unescaped(s[at + 1]);
        at := at + 2;
      } else {
        current := current + [s[at]];
        at := at + 1;
      }
    }
    r := Err(UnterminatedDouble);
  }

  method ReadSingle(s: string, from: nat, cur: string) returns (r: Result<string, SplitError>, at: nat)
    requires from <= |s|
    ensures from <= at <= |s|
    ensures SingleQuoted(s[from..], cur) == if r.Ok? then Ok((r.value, s[at..])) else Err(r.error)
  {
    var current := cur;
    at := from;
    while at < |s|
      invariant from <= at <= |s|
      invariant SingleQuoted(s[at..], current) == SingleQuoted(s[from..], cur)
    {
      assert s[at..][1..] == s[at + 1..];
      if s[at] == '\'' { return Ok(current), at + 1; }
      current := current + [s[at]];
      at := at + 1;
    }
    r := Err(UnterminatedSingle);
  }

  // ---------------------------------------------------------------------
  // Concatenation
  // ---------------------------------------------------------------------

  lemma {:induction false} DoubleQuotedConcat(s: string, cur: string, t: string)
    requires DoubleQuoted(s, cur).Ok?
    ensures DoubleQuoted(s + t, cur) == Ok((DoubleQuoted(s, cur).value.0, DoubleQuoted(s, cur).value.1 + t))
  {
    if s[0] == '"' {
      assert (s + t)[1..] == s[1..] + t;
    } else if s[0] == '\\' {
      assert (s + t)[2..] == s[2..] + t && (s + t)[1] == s[1];
      DoubleQuotedConcat(s[2..], cur + Unescaped(s[1]), t);
    } else {
      assert (s + t)[1..] == s[1..] + t;
      DoubleQuotedConcat(s[1..], cur + [s[0]], t);
    }
  }

  lemma {:induction false} SingleQuotedConcat(s: string, cur: string, t: string)
    requires SingleQuoted(s, cur).Ok?
    ensures SingleQuoted(s + t, cur) == Ok((SingleQuoted(s, cur).value.0, SingleQuoted(s, cur).value.1 + t))
  {
    assert (s + t)[1..] == s[1..] + t;
    if s[0] != '\'' {
      SingleQuotedConcat(s[1..], cur + [s[0]], t);
    }
  }

  /** A delimiter after text that splits closes its last token. */
  lemma {:induction false} TokensConcat(a: string, cur: string, b: string)
    requires Tokens(a, cur).Ok?
    ensures Tokens(a + " " + b, cur) == Prepend(Tokens(a, cur).value, Tokens(b, ""))
    decreases |a|
  {
    var t := " " + b;
    assert a + " " + b == a + t;
    var s := a + t;
    var rb := Tokens(b, "");
    if a == [] {
      assert s == t && s[1..] == b && s[0] == ' ';
      PrependNil(rb);
      assert cur != "" ==> [cur] + [] == [cur];
    } else {
      assert s[1..] == a[1..] + t && s[0] == a[0];
      if a[0] == ' ' || a[0] == '\t' {
        TokensConcat(a[1..], "", b);
        assert a[1..] + t == a[1..] + " " + b;
        if cur != "" && rb.Ok? {
          Assoc([cur], Tokens(a[1..], "").value, rb.value);
        }
      } else if a[0] == '"' {
        DoubleQuotedConcat(a[1..], cur, t);
        var q := DoubleQuoted(a[1..], cur).value;
        TokensConcat(q.1, q.0, b);
        assert q.1 + t == q.1 + " " + b;
      } else if a[0] == '\'' {
        SingleQuotedConcat(a[1..], cur, t);
        var q := SingleQuoted(a[1..], cur).value;
        TokensConcat(q.1, q.0, b);
        assert q.1 + t == q.1 + " " + b;
      } else if a[0] == '\\' {
        assert s[2..] == a[2..] + t && s[1] == a[1];
        TokensConcat(a[2..], cur + [a[1]], b);
        assert a[2..] + t == a[2..] + " " + b;
      } else {
        TokensConcat(a[1..], cur + [a[0]], b);
        assert a[1..] + t == a[1..] + " " + b;
      }
    }
  }

  lemma TrimmedStays(s: string)
    requires Trimmed(s)
    ensures Trim(s) == s
  {
  }

  lemma TrimmedBlank(a: string)
    requires Trimmed(a)
    ensures Trim(a + " ") == a && Trim(" " + a) == a
  {
    TrimmedStays(a);
    var x, y := a + " ", " " + a;
    assert y[0] == ' ' && y[1..] == a;
    assert TrimStart(y) == TrimStart(a);
    if a == [] {
      assert x == " " && x[1..] == [];
    } else {
      assert x[0] == a[0] && x[|x| - 1] == ' ' && x[..|x| - 1] == a;
      assert TrimEnd(x) == TrimEnd(a);
    }
  }

  /** Splitting joined texts splits each of them. */
  lemma SplitConcat(a: string, b: string)
    requires Trimmed(a) && Trimmed(b) && Split(a).Ok? && Split(b).Ok?
    ensures Split(a + " " + b) == Ok(Split(a).value + Split(b).value)
  {
    TrimmedStays(a);
    TrimmedStays(b);
    if a == [] {
      assert a + " " + b == " " + b;
      TrimmedBlank(b);
      assert Split(a).value + Split(b).value == Split(b).value;
    } else if b == [] {
      assert a + " " + b == a + " ";
      TrimmedBlank(a);
      assert Split(a).value + Split(b).value == Split(a).value;
    } else {
      var s := a + " " + b;
      assert s[0] == a[0] && s[|s| - 1] == b[|b| - 1];
      TrimmedStays(s);
      TokensConcat(a, "", b);
    }
  }

  // ---------------------------------------------------------------------
  // Quoting
  // ---------------------------------------------------------------------

  function Escaped(token: string): string {
    if token == [] then []
    else (if token[0] == '"' || token[0] == '\\' then ['\\', token[0]] else [token[0]]) + Escaped(token[1..])
  }

  function Quoted(token: string): string { "\"" + Escaped(token) + "\"" }

  function Joined(tokens: seq<string>): string {
    if tokens == [] then ""
    else if |tokens| == 1 then Quoted(tokens[0])
    else Quoted(tokens[0]) + " " + Joined(tokens[1..])
  }

  lemma {:induction false} ReadEscaped(token: string, cur: string, rest: string)
    ensures DoubleQuoted(Escaped(token) + "\"" + rest, cur) == Ok((cur + token, rest))
  {
    var s := Escaped(token) + "\"" + rest;
    if token == [] {
      assert s[1..] == rest && cur + token == cur;
    } else {
      var tail := Escaped(token[1..]) + "\"" + rest;
      if token[0] == '"' || token[0] == '\\' {
        assert s[2..] == tail && s[0] == '\\' && s[1] == token[0];
        ReadEscaped(token[1..], cur + [token[0]], rest);
      } else {
        assert s[1..] == tail && s[0] == token[0];
        ReadEscaped(token[1..], cur + [token[0]], rest);
      }
      assert cur + [token[0]] + token[1..] == cur + token;
    }
  }

  lemma ReadQuoted(token: string)
    requires token != ""
    ensures Tokens(Quoted(token), "") == Ok([token])
  {
    var s := Quoted(token);
    assert s[1..] == Escaped(token) + "\"" + "";
    ReadEscaped(token, "", "");
    assert "" + token == token;
    assert [token] + [] == [token];
  }

  lemma {:induction false} TokensOfJoined(tokens: seq<string>)
    requires forall i :: 0 <= i < |tokens| ==> tokens[i] != ""
    ensures Tokens(Joined(tokens), "") == Ok(tokens)
  {
    if |tokens| == 1 {
      ReadQuoted(tokens[0]);
      assert tokens == [tokens[0]];
    } else if |tokens| > 1 {
      ReadQuoted(tokens[0]);
      TokensConcat(Quoted(tokens[0]), "", Joined(tokens[1..]));
      TokensOfJoined(tokens[1..]);
      assert [tokens[0]] + tokens[1..] == tokens;
    }
  }

  lemma {:induction false} JoinedEnds(tokens: seq<string>)
    requires tokens != []
    ensures var s := Joined(tokens); s != [] && s[0] == '"' && s[|s| - 1] == '"'
  {
    if |tokens| > 1 { JoinedEnds(tokens[1..]); }
  }

  /** Quoting any list of non-empty tokens and joining them splits back to
      exactly that list. */
  lemma QuotedRoundTrip(tokens: seq<string>)
    requires forall i :: 0 <= i < |tokens| ==> tokens[i] != ""
    ensures Split(Joined(tokens)) == Ok(tokens)
  {
    if tokens != [] { JoinedEnds(tokens); }
    TrimmedStays(Joined(tokens));
    TokensOfJoined(tokens);
  }

  // ---------------------------------------------------------------------
  // Specs
  // ---------------------------------------------------------------------

  datatype SpecKind = Action | Command | Editor | Nu

  datatype ParsedSpec = ParsedSpec(kind: SpecKind, name: string, args: seq<string>)

  datatype SpecError =
    EmptySpec | MissingTarget | ActionWithSpaces | BadArgs(e: SplitError) | MissingName | BadNuName | Unsupported

  predicate IsValidNuName(name: string) {
    name != [] && forall i :: 0 <= i < |name| ==> NuNameChar(name[i])
  }

  predicate NuNameChar(c: char) {
    'a' <= c <= 'z' || 'A' <= c <= 'Z' || '0' <= c <= '9' || c == '_' || c == '-'
  }

  predicate HasPrefix(s: string, p: string) { |p| <= |s| && s[..|p|] == p }

  predicate HasWhitespace(s: string) { exists i :: 0 <= i < |s| && IsWhitespace(s[i]) }

  function WithTokens(kind: SpecKind, rest: string): Result<ParsedSpec, SpecError> {
    var tokens := Split(rest);
    if tokens.Err? then Err(BadArgs(tokens.error))
    else if tokens.value == [] then Err(MissingName)
    else if kind.Nu? && !IsValidNuName(tokens.value[0]) then Err(BadNuName)
    else Ok(ParsedSpec(kind, tokens.value[0], tokens.value[1..]))
  }

  function AsAction(rest: string): Result<ParsedSpec, SpecError> {
    var name := Trim(rest);
    if name == [] then Err(MissingTarget)
    else if HasWhitespace(name) then Err(ActionWithSpaces)
    else Ok(ParsedSpec(Action, name, []))
  }

  function ParseSpec(input: string): Result<ParsedSpec, SpecError> {
    var s := Trim(input);
    if s == [] then Err(EmptySpec)
    else if HasPrefix(s, "action:") then AsAction(s[7..])
    else if HasPrefix(s, "command:") then WithTokens(Command, s[8..])
    else if HasPrefix(s, "editor:") then WithTokens(Editor, s[7..])
    else if HasPrefix(s, "nu:") then WithTokens(Nu, s[3..])
    else Err(Unsupported)
  }

  /** What a parsed spec can look like. */
  predicate SpecOk(p: ParsedSpec) {
    && p.name != ""
    && (p.kind.Action? ==> p.args == [] && !HasWhitespace(p.name))
    && (p.kind.Nu? ==> IsValidNuName(p.name))
    && (forall i :: 0 <= i < |p.args| ==> p.args[i] != "")
  }

  function Prefix(kind: SpecKind): string {
    match kind
    case Action => "action:"
    case Command => "command:"
    case Editor => "editor:"
    case Nu => "nu:"
  }

  /** A spec string for a parsed spec. */
  function Format(p: ParsedSpec): string {
    Prefix(p.kind) + if p.kind.Action? then p.name else Joined([p.name] + p.args)
  }

  lemma ParsedIsOk(input: string)
    requires ParseSpec(input).Ok?
    ensures SpecOk(ParseSpec(input).value)
  {
  }

  lemma FormatTrimmed(p: ParsedSpec)
    requires SpecOk(p)
    ensures Trimmed(Format(p)) && Format(p) != []
    ensures HasPrefix(Format(p), Prefix(p.kind))
    ensures Format(p)[|Prefix(p.kind)|..] == if p.kind.Action? then p.name else Joined([p.name] + p.args)
  {
    var body := if p.kind.Action? then p.name else Joined([p.name] + p.args);
    if !p.kind.Action? { JoinedEnds([p.name] + p.args); }
    assert body != [] && !IsWhitespace(body[|body| - 1]);
    assert Format(p)[|Format(p)| - 1] == body[|body| - 1];
    assert Format(p)[0] == Prefix(p.kind)[0];
  }

  /** Formatting and parsing are inverse on exactly the specs that parsing can
      produce. */
  lemma SpecRoundTrip(p: ParsedSpec)
    requires SpecOk(p)
    ensures ParseSpec(Format(p)) == Ok(p)
  {
    FormatTrimmed(p);
    TrimmedStays(Format(p));
    ParseByKind(Format(p), p.kind);
    if p.kind.Action? {
      assert Trimmed(p.name);
      TrimmedStays(p.name);
    } else {
      TokensRoundTrip(p);
    }
  }

  lemma PrefixStart(s: string, kind: SpecKind)
    ensures HasPrefix(s, Prefix(kind)) ==> s != [] && s[0] == Prefix(kind)[0]
  {
    if HasPrefix(s, Prefix(kind)) { assert s[..|Prefix(kind)|][0] == s[0]; }
  }

  /** The prefix alone decides the branch. */
  lemma ParseByKind(s: string, kind: SpecKind)
    requires Trim(s) == s && HasPrefix(s, Prefix(kind))
    ensures !kind.Action? ==> ParseSpec(s) == WithTokens(kind, s[|Prefix(kind)|..])
    ensures kind.Action? ==> ParseSpec(s) == AsAction(s[7..])
  {
    PrefixStart(s, Action);
    PrefixStart(s, Command);
    PrefixStart(s, Editor);
    PrefixStart(s, Nu);
  }

  lemma TokensRoundTrip(p: ParsedSpec)
    requires SpecOk(p) && !p.kind.Action?
    ensures WithTokens(p.kind, Joined([p.name] + p.args)) == Ok(p)
  {
    var tokens := [p.name] + p.args;
    forall i | 0 <= i < |tokens| ensures tokens[i] != "" {
      if i > 0 { assert tokens[i] == p.args[i - 1]; }
    }
    QuotedRoundTrip(tokens);
    assert tokens[1..] == p.args;
  }

  /** Any accepted spec, reformatted, parses to the same thing again. */
  lemma ReformattedSpec(input: string)
    requires ParseSpec(input).Ok?
    ensures ParseSpec(Format(ParseSpec(input).value)) == ParseSpec(input)
  {
    ParsedIsOk(input);
    SpecRoundTrip(ParseSpec(input).value);
  }
}
