/** What the argument tokenizer reads (crates/invocation_spec/src/lib.rs).

Every input is written in one of the forms below: blanks, bare characters,
characters behind a backslash, and the two kinds of quotes, up to a quote or a
backslash that is left open at the end.  The laws say what each form means, and
that the tokenizer gives exactly that for every input.
 */
module InvocationTokens {
  import opened Prelude
  import opened InvocationSpecs

  // ---------------------------------------------------------------------
  // Forms and their meaning
  // ---------------------------------------------------------------------

  /** Inside double quotes: a character, or a backslash and a character. */
  datatype Inner = Plain(c: char) | Escape(c: char)

  datatype Form =
    | Blank(c: char)
    | Bare(c: char)
    | Backslash(c: char)
    | InSingle(text: string)
    | InDouble(inner: seq<Inner>)

  /** What is left open at the end of the input. */
  datatype Ending =
    | Complete
    | OpenDouble(inner: seq<Inner>)
    | OpenEscape(inner: seq<Inner>)
    | OpenSingle(text: string)
    | LoneBackslash

  predicate InnerOk(inner: seq<Inner>) {
    forall i :: 0 <= i < |inner| ==> inner[i].Plain? ==> inner[i].c != '"' && inner[i].c != '\\'
  }

  predicate FormOk(f: Form) {
    match f
    case Blank(c) => c == ' ' || c == '\t'
    case Bare(c) => c != ' ' && c != '\t' && c != '"' && c != '\'' && c != '\\'
    case Backslash(_) => true
    case InSingle(text) => '\'' !in text
    case InDouble(inner) => InnerOk(inner)
  }

  predicate FormsOk(fs: seq<Form>) { forall i :: 0 <= i < |fs| ==> FormOk(fs[i]) }

  predicate EndingOk(e: Ending) {
    match e
    case OpenDouble(inner) => InnerOk(inner)
    case OpenEscape(inner) => InnerOk(inner)
    case OpenSingle(text) => '\'' !in text
    case _ => true
  }

  function OneWritten(i: Inner): string { if i.Plain? then [i.c] else ['\\', i.c] }

  function InnerWritten(inner: seq<Inner>): string {
    if inner == [] then "" else OneWritten(inner[0]) + InnerWritten(inner[1..])
  }

  function FormWritten(f: Form): string {
    match f
    case Blank(c) => [c]
    case Bare(c) => [c]
    case Backslash(c) => ['\\', c]
    case InSingle(text) => "'" + text + "'"
    case InDouble(inner) => "\"" + InnerWritten(inner) + "\""
  }

  function Written(fs: seq<Form>): string {
    if fs == [] then "" else FormWritten(fs[0]) + Written(fs[1..])
  }

  function EndWritten(e: Ending): string {
    match e
    case Complete => ""
    case OpenDouble(inner) => "\"" + InnerWritten(inner)
    case OpenEscape(inner) => "\"" + InnerWritten(inner) + "\\"
    case OpenSingle(text) => "'" + text
    case LoneBackslash => "\\"
  }

  /** Escapes inside double quotes; an unknown one stands for itself. */
  const ESCAPES := map['"' := '"', '\\' := '\\', 'n' := '\n', 't' := '\t', 'r' := '\r']

  function OneMeaning(i: Inner): string {
    if i.Plain? then [i.c] else if i.c in ESCAPES then [ESCAPES[i.c]] else ['\\', i.c]
  }

  function InnerMeaning(inner: seq<Inner>): string {
    if inner == [] then "" else OneMeaning(inner[0]) + InnerMeaning(inner[1..])
  }

  /** What a form adds to the token it stands in. */
  function Meaning(f: Form): string {
    match f
    case Blank(_) => ""
    case Bare(c) => [c]
    case Backslash(c) => [c]
    case InSingle(text) => text
    case InDouble(inner) => InnerMeaning(inner)
  }

  /** The tokens between the blanks, without the empty ones; the first one
      continues `cur`. */
  function Words(fs: seq<Form>, cur: string): seq<string> {
    if fs == [] then (if cur == "" then [] else [cur])
    else if fs[0].Blank? then (if cur == "" then [] else [cur]) + Words(fs[1..], "")
    else Words(fs[1..], cur + Meaning(fs[0]))
  }

  function Outcome(fs: seq<Form>, e: Ending, cur: string): Result<seq<string>, SplitError> {
    match e
    case Complete => Ok(Words(fs, cur))
    case OpenDouble(_) => Err(UnterminatedDouble)
    case OpenEscape(_) => Err(TrailingInDouble)
    case OpenSingle(_) => Err(UnterminatedSingle)
    case LoneBackslash => Err(TrailingBackslash)
  }

  // ---------------------------------------------------------------------
  // Reading what is written
  // ---------------------------------------------------------------------

  lemma ReadOne(i: Inner, cur: string, rest: string)
    requires i.Plain? ==> i.c != '"' && i.c != '\\'
    ensures DoubleQuoted(OneWritten(i) + rest, cur) == DoubleQuoted(rest, cur + OneMeaning(i))
  {
    var s := OneWritten(i) + rest;
    if i.Plain? {
      assert s[0] == i.c && s[1..] == rest;
    } else {
      assert s[0] == '\\' && s[1] == i.c && s[2..] == rest;
      assert Unescaped(i.c) == OneMeaning(i);
    }
  }

  lemma {:induction false} ReadInner(inner: seq<Inner>, cur: string, rest: string)
    requires InnerOk(inner)
    ensures DoubleQuoted(InnerWritten(inner) + rest, cur) == DoubleQuoted(rest, cur + InnerMeaning(inner))
  {
    if inner == [] {
      assert "" + rest == rest && cur + "" == cur;
    } else {
      var i, more := inner[0], inner[1..];
      assert InnerOk(more);
      Assoc(OneWritten(i), InnerWritten(more), rest);
      ReadOne(i, cur, InnerWritten(more) + rest);
      ReadInner(more, cur + OneMeaning(i), rest);
      Assoc(cur, OneMeaning(i), InnerMeaning(more));
    }
  }

  lemma {:induction false} ReadSingle(text: string, cur: string, rest: string)
    requires '\'' !in text
    ensures SingleQuoted(text + rest, cur) == SingleQuoted(rest, cur + text)
  {
    if text == "" {
      assert "" + rest == rest && cur + "" == cur;
    } else {
      assert (text + rest)[0] == text[0] && (text + rest)[1..] == text[1..] + rest;
      ReadSingle(text[1..], cur + [text[0]], rest);
      assert cur + [text[0]] + text[1..] == cur + text;
    }
  }

  lemma ReadDoubleForm(inner: seq<Inner>, cur: string, rest: string)
    requires InnerOk(inner)
    ensures DoubleQuoted(InnerWritten(inner) + "\"" + rest, cur) == Ok((cur + InnerMeaning(inner), rest))
  {
    var s := "\"" + rest;
    assert InnerWritten(inner) + "\"" + rest == InnerWritten(inner) + s;
    ReadInner(inner, cur, s);
    assert s[0] == '"' && s[1..] == rest;
  }

  lemma ReadSingleForm(text: string, cur: string, rest: string)
    requires '\'' !in text
    ensures SingleQuoted(text + "'" + rest, cur) == Ok((cur + text, rest))
  {
    var s := "'" + rest;
    assert text + "'" + rest == text + s;
    ReadSingle(text, cur, s);
    assert s[0] == '\'' && s[1..] == rest;
  }

  /** One form at the front of the input. */
  lemma ReadForm(f: Form, rest: string, cur: string)
    requires FormOk(f)
    ensures Tokens(FormWritten(f) + rest, cur) ==
      if f.Blank? then Cons(cur, Tokens(rest, "")) else Tokens(rest, cur + Meaning(f))
  {
    if f.InSingle? || f.InDouble? { ReadQuotes(f, rest, cur); } else { ReadChar(f, rest, cur); }
  }

  lemma ReadChar(f: Form, rest: string, cur: string)
    requires FormOk(f) && !f.InSingle? && !f.InDouble?
    ensures Tokens(FormWritten(f) + rest, cur) ==
      if f.Blank? then Cons(cur, Tokens(rest, "")) else Tokens(rest, cur + [f.c])
  {
    var s := FormWritten(f) + rest;
    if f.Backslash? {
      assert s[0] == '\\' && s[1] == f.c && s[2..] == rest;
    } else {
      assert s[0] == f.c && s[1..] == rest;
    }
  }

  lemma ReadQuotes(f: Form, rest: string, cur: string)
    requires FormOk(f) && (f.InSingle? || f.InDouble?)
    ensures Tokens(FormWritten(f) + rest, cur) == Tokens(rest, cur + Meaning(f))
  {
    var s := FormWritten(f) + rest;
    if f.InSingle? {
      assert s[0] == '\'' && s[1..] == f.text + "'" + rest;
      ReadSingleForm(f.text, cur, rest);
    } else {
      assert s[0] == '"' && s[1..] == InnerWritten(f.inner) + "\"" + rest;
      ReadDoubleForm(f.inner, cur, rest);
    }
  }

  lemma ReadEnding(e: Ending, cur: string)
    requires EndingOk(e)
    ensures Tokens(EndWritten(e), cur) == Outcome([], e, cur)
  {
    var s := EndWritten(e);
    match e
    case Complete => assert [cur] + [] == [cur];
    case LoneBackslash =>
    case OpenSingle(text) =>
      assert s[0] == '\'' && s[1..] == text + "";
      ReadSingle(text, cur, "");
    case OpenDouble(inner) =>
      assert s[0] == '"' && s[1..] == InnerWritten(inner) + "";
      ReadInner(inner, cur, "");
    case OpenEscape(inner) =>
      assert s[0] == '"' && s[1..] == InnerWritten(inner) + "\\";
      ReadInner(inner, cur, "\\");
  }

  /** Whatever is written in these forms is read as it is meant, and what is left
      open at the end is the error. */
  lemma {:induction false} ReadWritten(fs: seq<Form>, e: Ending, cur: string)
    requires FormsOk(fs) && EndingOk(e)
    ensures Tokens(Written(fs) + EndWritten(e), cur) == Outcome(fs, e, cur)
  {
    if fs == [] {
      assert "" + EndWritten(e) == EndWritten(e);
      ReadEnding(e, cur);
    } else {
      var f, more := fs[0], fs[1..];
      assert FormsOk(more) && FormOk(f);
      Assoc(FormWritten(f), Written(more), EndWritten(e));
      ReadForm(f, Written(more) + EndWritten(e), cur);
      if f.Blank? {
        ReadWritten(more, e, "");
        assert cur == "" ==> [] + Words(more, "") == Words(more, "");
      } else {
        ReadWritten(more, e, cur + Meaning(f));
      }
    }
  }

  // ---------------------------------------------------------------------
  // Everything is written so
  // ---------------------------------------------------------------------

  lemma {:induction false} InnerForms(s: string) returns (inner: seq<Inner>, rest: Option<string>, slash: bool)
    ensures InnerOk(inner)
    ensures rest.Some? ==> s == InnerWritten(inner) + ("\"" + rest.value) && |rest.value| < |s|
    ensures rest.None? ==> s == InnerWritten(inner) + if slash then "\\" else ""
  {
    if s == "" {
      inner, rest, slash := [], None, false;
    } else if s[0] == '"' {
      inner, rest, slash := [], Some(s[1..]), false;
      assert s == "" + ("\"" + s[1..]);
    } else if s == "\\" {
      inner, rest, slash := [], None, true;
      assert s == "" + "\\";
    } else {
      var i := if s[0] == '\\' then Escape(s[1]) else Plain(s[0]);
      var tail := s[|OneWritten(i)|..];
      assert s == OneWritten(i) + tail;
      var more;
      more, rest, slash := InnerForms(tail);
      inner := [i] + more;
      assert inner[1..] == more;
      Assoc(OneWritten(i), InnerWritten(more), if rest.Some? then "\"" + rest.value else if slash then "\\" else "");
    }
  }

  lemma {:induction false} SingleText(s: string) returns (text: string, rest: Option<string>)
    ensures '\'' !in text
    ensures s == text + if rest.Some? then "'" + rest.value else ""
    ensures rest.Some? ==> |rest.value| < |s|
  {
    if s == "" {
      text, rest := "", None;
    } else if s[0] == '\'' {
      text, rest := "", Some(s[1..]);
      assert s == "" + ("'" + s[1..]);
    } else {
      var more;
      more, rest := SingleText(s[1..]);
      text := [s[0]] + more;
      Assoc([s[0]], more, if rest.Some? then "'" + rest.value else "");
      assert s == [s[0]] + s[1..];
    }
  }

  /** The first form of an input, or the end it leaves open. */
  lemma FirstForm(s: string) returns (f: Option<Form>, rest: string, e: Ending)
    requires s != ""
    ensures f.Some? ==> FormOk(f.value) && s == FormWritten(f.value) + rest && |rest| < |s|
    ensures f.None? ==> EndingOk(e) && s == EndWritten(e)
  {
    rest, e := s[1..], Complete;
    if s[0] == '"' {
      var inner, after, slash := InnerForms(s[1..]);
      assert s == "\"" + s[1..];
      if after.Some? {
        f, rest := Some(InDouble(inner)), after.value;
        assert s == "\"" + InnerWritten(inner) + "\"" + rest;
      } else {
        f, e := None, if slash then OpenEscape(inner) else OpenDouble(inner);
      }
    } else if s[0] == '\'' {
      var text, after := SingleText(s[1..]);
      assert s == "'" + s[1..];
      if after.Some? {
        f, rest := Some(InSingle(text)), after.value;
        assert s == "'" + text + "'" + rest;
      } else {
        f, e := None, OpenSingle(text);
      }
    } else if s[0] == '\\' {
      if |s| == 1 {
        f, e := None, LoneBackslash;
      } else {
        f, rest := Some(Backslash(s[1])), s[2..];
      }
    } else {
      f := Some(if s[0] == ' ' || s[0] == '\t' then Blank(s[0]) else Bare(s[0]));
    }
  }

  /** Every text is written in these forms. */
  lemma {:induction false} FormsOf(s: string) returns (fs: seq<Form>, e: Ending)
    ensures FormsOk(fs) && EndingOk(e) && s == Written(fs) + EndWritten(e)
    decreases |s|
  {
    fs, e := [], Complete;
    if s != "" {
      var f, rest, end := FirstForm(s);
      if f.None? {
        e := end;
      } else {
        var more;
        more, e := FormsOf(rest);
        fs := [f.value] + more;
        assert fs[1..] == more;
        Assoc(FormWritten(f.value), Written(more), EndWritten(e));
      }
    }
  }

  // ---------------------------------------------------------------------
  // Trimming
  // ---------------------------------------------------------------------

  predicate AllBlank(s: string) { forall i :: 0 <= i < |s| ==> IsWhitespace(s[i]) }

  lemma {:induction false} TrimStartIs(pre: string, s: string)
    requires AllBlank(pre) && (s != "" ==> !IsWhitespace(s[0]))
    ensures TrimStart(pre + s) == s
  {
    if pre == "" {
      assert pre + s == s;
    } else {
      assert (pre + s)[0] == pre[0] && (pre + s)[1..] == pre[1..] + s;
      TrimStartIs(pre[1..], s);
    }
  }

  lemma {:induction false} TrimEndIs(s: string, post: string)
    requires AllBlank(post) && (s != "" ==> !IsWhitespace(s[|s| - 1]))
    ensures TrimEnd(s + post) == s
  {
    if post == "" {
      assert s + post == s;
    } else {
      var k := |post| - 1;
      assert (s + post)[|s + post| - 1] == post[k] && (s + post)[..|s + post| - 1] == s + post[..k];
      TrimEndIs(s, post[..k]);
    }
  }

  /** Whitespace around a text without any at its ends is what trimming takes. */
  lemma TrimIs(pre: string, s: string, post: string)
    requires AllBlank(pre) && AllBlank(post) && Trimmed(s)
    ensures Trim(pre + s + post) == s
  {
    if s == "" {
      assert pre + s + post == pre + post + "";
      assert AllBlank(pre + post);
      TrimStartIs(pre + post, "");
    } else {
      assert pre + s + post == pre + (s + post);
      TrimStartIs(pre, s + post);
      TrimEndIs(s, post);
    }
  }

  /** The tokenizer, for every input: the text between the outer whitespace is
      written in some forms up to some ending, and in whatever forms it is
      written, their meaning is the result. */
  lemma SplitExactly(pre: string, s: string, post: string) returns (fs: seq<Form>, e: Ending)
    requires AllBlank(pre) && AllBlank(post) && Trimmed(s)
    ensures FormsOk(fs) && EndingOk(e) && s == Written(fs) + EndWritten(e)
    ensures Split(pre + s + post) == Outcome(fs, e, "")
  {
    fs, e := FormsOf(s);
    TrimIs(pre, s, post);
    ReadWritten(fs, e, "");
  }

  // ---------------------------------------------------------------------
  // What users write
  // ---------------------------------------------------------------------

  predicate BareToken(token: string) {
    && token != ""
    && forall i :: 0 <= i < |token| ==>
         !IsWhitespace(token[i]) && token[i] != '"' && token[i] != '\'' && token[i] != '\\'
  }

  predicate BareTokens(tokens: seq<string>) { forall i :: 0 <= i < |tokens| ==> BareToken(tokens[i]) }

  function Spaced(tokens: seq<string>): string {
    if tokens == [] then ""
    else if |tokens| == 1 then tokens[0]
    else tokens[0] + " " + Spaced(tokens[1..])
  }

  lemma {:induction false} ReadBare(token: string, cur: string)
    requires token == "" || BareToken(token)
    ensures Tokens(token, cur) == if cur + token == "" then Ok([]) else Ok([cur + token])
  {
    if token == "" {
      assert cur + "" == cur && [cur] + [] == [cur];
    } else {
      ReadBare(token[1..], cur + [token[0]]);
      assert cur + [token[0]] + token[1..] == cur + token;
    }
  }

  lemma {:induction false} ReadSpaced(tokens: seq<string>)
    requires BareTokens(tokens)
    ensures Tokens(Spaced(tokens), "") == Ok(tokens) && Trimmed(Spaced(tokens))
    ensures tokens != [] ==> Spaced(tokens) != ""
  {
    if tokens != [] {
      ReadBare(tokens[0], "");
      assert "" + tokens[0] == tokens[0];
      if |tokens| == 1 {
        assert tokens == [tokens[0]];
      } else {
        ReadSpaced(tokens[1..]);
        TokensConcat(tokens[0], "", Spaced(tokens[1..]));
        assert [tokens[0]] + tokens[1..] == tokens;
        SpacedEnds(tokens);
      }
    }
  }

  lemma SpacedEnds(tokens: seq<string>)
    requires |tokens| > 1 && BareToken(tokens[0]) && Spaced(tokens[1..]) != "" && Trimmed(Spaced(tokens[1..]))
    ensures Trimmed(Spaced(tokens)) && Spaced(tokens) != ""
  {
    var s, tail := Spaced(tokens), Spaced(tokens[1..]);
    assert s[0] == tokens[0][0] && s[|s| - 1] == tail[|tail| - 1];
  }

  /** Plain words come back as they were typed. */
  lemma SpacedSplits(tokens: seq<string>)
    requires BareTokens(tokens)
    ensures Split(Spaced(tokens)) == Ok(tokens)
  {
    ReadSpaced(tokens);
    TrimmedStays(Spaced(tokens));
  }

  /** Single quotes keep everything but a single quote. */
  lemma SingleQuotedSplits(text: string)
    requires text != "" && '\'' !in text
    ensures Split("'" + text + "'") == Ok([text])
  {
    ReadOneForm(InSingle(text));
  }

  /** A form that stands alone. */
  lemma ReadOneForm(f: Form)
    requires FormOk(f) && Trimmed(FormWritten(f)) && Meaning(f) != ""
    ensures Split(FormWritten(f)) == Ok([Meaning(f)])
  {
    var fs := [f];
    assert fs[1..] == [] && FormWritten(f) + "" == FormWritten(f);
    TrimmedStays(FormWritten(f));
    ReadWritten(fs, Complete, "");
    assert Written(fs) + "" == FormWritten(f);
    assert "" + Meaning(f) == Meaning(f);
    assert Words(fs, "") == Words([], Meaning(f)) == [Meaning(f)];
  }

  /** Outside quotes a backslash takes the next character as it is, unless that
      character is whitespace at the end of the input, which is gone before. */
  lemma BackslashSplits(c: char)
    ensures Split("\\" + [c]) == if IsWhitespace(c) then Err(TrailingBackslash) else Ok([[c]])
  {
    var s := "\\" + [c];
    if IsWhitespace(c) {
      TrimIs("", "\\", [c]);
      assert "" + "\\" + [c] == s;
    } else {
      assert FormWritten(Backslash(c)) == s;
      ReadOneForm(Backslash(c));
    }
  }

  /** Inside double quotes five escapes are known. */
  lemma EscapeSplits(c: char)
    ensures Split("\"\\" + [c] + "\"") == Ok([
      if c == 'n' then "\n" else if c == 't' then "\t" else if c == 'r' then "\r"
      else if c == '"' || c == '\\' then [c] else ['\\', c]])
  {
    var inner := [Escape(c)];
    assert inner[1..] == [];
    assert InnerWritten(inner) == ['\\', c] + "" == ['\\', c];
    assert FormWritten(InDouble(inner)) == "\"\\" + [c] + "\"";
    assert InnerMeaning(inner) == OneMeaning(Escape(c)) + "" == OneMeaning(Escape(c));
    ReadOneForm(InDouble(inner));
  }

  /** Specs of plain words, under each of the prefixes. */
  lemma PlainSpecs(name: string, args: seq<string>)
    requires BareToken(name) && BareTokens(args)
    ensures var words := Spaced([name] + args);
      && ParseSpec("command:" + words) == Ok(ParsedSpec(Command, name, args))
      && ParseSpec("editor:" + words) == Ok(ParsedSpec(Editor, name, args))
      && ParseSpec("nu:" + words) ==
           (if forall i :: 0 <= i < |name| ==> NuChar(name[i] as int) then Ok(ParsedSpec(Nu, name, args))
            else Err(BadNuName))
    ensures ParseSpec("action:" + name) == Ok(ParsedSpec(Action, name, []))
  {
    var tokens := [name] + args;
    assert tokens[1..] == args && BareTokens(tokens);
    ReadSpaced(tokens);
    SpacedSplits(tokens);
    PlainSpec(Command, Spaced(tokens));
    PlainSpec(Editor, Spaced(tokens));
    PlainSpec(Nu, Spaced(tokens));
    PlainSpec(Action, name);
    TrimmedStays(name);
    PlainNames(name);
  }

  lemma PlainNames(name: string)
    requires BareToken(name)
    ensures IsValidNuName(name) <==> forall i :: 0 <= i < |name| ==> NuChar(name[i] as int)
    ensures !HasWhitespace(name)
  {
    forall i | 0 <= i < |name| ensures NuNameChar(name[i]) <==> NuChar(name[i] as int) {
      NuCharIs(name[i]);
    }
  }

  lemma NuCharIs(c: char)
    ensures NuNameChar(c) <==> NuChar(c as int)
  {
  }

  /** ASCII letters, digits, hyphen and underscore. */
  predicate NuChar(n: int) { 97 <= n <= 122 || 65 <= n <= 90 || 48 <= n <= 57 || n == 45 || n == 95 }

  lemma PlainSpec(kind: SpecKind, body: string)
    requires body != "" && Trimmed(body)
    ensures var s := Prefix(kind) + body;
      ParseSpec(s) == if kind.Action? then AsAction(body) else WithTokens(kind, body)
  {
    var s := Prefix(kind) + body;
    assert s[..|Prefix(kind)|] == Prefix(kind) && s[|Prefix(kind)|..] == body;
    assert s[0] == Prefix(kind)[0] && s[|s| - 1] == body[|body| - 1];
    TrimmedStays(s);
    ParseByKind(s, kind);
  }
}
