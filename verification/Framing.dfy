/** Content-Length framing of JSON-RPC messages (crates/lsp_framework/src/message.rs,
`Message::read` and `Message::write`; Base Protocol, Header Part, of LSP 3.17).

A message is its body, a sequence of bytes: turning bodies into JSON values is
not part of this model.  Whether a header line is valid UTF-8 is decided by a
parameter that accepts every ASCII line.
 */
module Framing {
  import opened Prelude

  newtype byte = x: int | 0 <= x < 256
  type Bytes = seq<byte>

  datatype Error = Eof | Protocol | Io

  type Utf8 = Bytes -> bool

  const CR: byte := 13
  const LF: byte := 10
  const COLON: byte := 58
  const SPACE: byte := 32
  const PLUS: byte := 43
  const CRLF: Bytes := [CR, LF]
  const SEP: Bytes := [COLON, SPACE]

  /** "Content-Length" */
  const CONTENT_LENGTH: Bytes := [67, 111, 110, 116, 101, 110, 116, 45, 76, 101, 110, 103, 116, 104]

  ghost predicate AcceptsAscii(utf8: Utf8) {
    forall s: Bytes :: Ascii(s) ==> utf8(s)
  }

  predicate Ascii(s: Bytes) { forall i :: 0 <= i < |s| ==> s[i] < 128 }

  // ---------------------------------------------------------------------
  // Numbers
  // ---------------------------------------------------------------------

  predicate IsDigit(b: byte) { 48 <= b <= 57 }

  function Digits(n: nat): (r: Bytes)
    ensures r != [] && forall i :: 0 <= i < |r| ==> IsDigit(r[i])
  {
    if n < 10 then [(48 + n) as byte] else Digits(n / 10) + [(48 + n % 10) as byte]
  }

  function Value(s: Bytes): nat
    requires forall i :: 0 <= i < |s| ==> IsDigit(s[i])
  {
    if s == [] then 0
    else
      assert IsDigit(s[|s| - 1]);
      10 * Value(s[..|s| - 1]) + (s[|s| - 1] as int - 48)
  }

  /** `str::parse::<usize>`: an optional plus sign, digits, no overflow. */
  function ParseUsize(s: Bytes): Option<nat> {
    var digits := if s != [] && s[0] == PLUS then s[1..] else s;
    if digits != [] && (forall i :: 0 <= i < |digits| ==> IsDigit(digits[i])) && Value(digits) < U64
    then Some(Value(digits)) else None
  }

  lemma {:induction false} ValueOfDigits(n: nat)
    ensures Value(Digits(n)) == n
  {
    var d := Digits(n);
    if n < 10 {
      assert d[..0] == [];
    } else {
      ValueOfDigits(n / 10);
      assert d[..|d| - 1] == Digits(n / 10);
    }
  }

  lemma ParseDigits(n: nat)
    requires n < U64
    ensures ParseUsize(Digits(n)) == Some(n)
  {
    ValueOfDigits(n);
  }

  // ---------------------------------------------------------------------
  // Lines
  // ---------------------------------------------------------------------

  /** Length of the first line, with its line feed if it has one. */
  function LineLength(s: Bytes): (n: nat)
    ensures n <= |s| && (s != [] ==> n > 0)
  {
    if s == [] then 0 else if s[0] == LF then 1 else 1 + LineLength(s[1..])
  }

  lemma {:induction false} LineOf(x: Bytes, rest: Bytes)
    requires LF !in x
    ensures LineLength(x + [LF] + rest) == |x| + 1
    ensures rest == [] ==> LineLength(x) == |x|
  {
    var s := x + [LF] + rest;
    if x != [] {
      assert s[1..] == x[1..] + [LF] + rest;
      LineOf(x[1..], rest);
    }
  }

  function Lower(b: byte): byte { if 65 <= b <= 90 then b + 32 else b }

  predicate EqIgnoreCase(a: Bytes, b: Bytes) {
    |a| == |b| && forall i :: 0 <= i < |a| ==> Lower(a[i]) == Lower(b[i])
  }

  /** Index of the first `": "`, or the length. */
  function FirstSep(s: Bytes): (i: nat)
    ensures i <= |s|
    ensures i < |s| ==> i + 1 < |s| && s[i] == COLON && s[i + 1] == SPACE
  {
    if s == [] then 0
    else if |s| > 1 && s[0] == COLON && s[1] == SPACE then 0
    else 1 + FirstSep(s[1..])
  }

  predicate NoSep(s: Bytes) {
    forall i :: 0 <= i < |s| - 1 ==> !(s[i] == COLON && s[i + 1] == SPACE)
  }

  lemma {:induction false} SepAfter(name: Bytes, value: Bytes)
    requires NoSep(name)
    ensures FirstSep(name + SEP + value) == |name|
  {
    var s := name + SEP + value;
    if name != [] {
      assert s[1..] == name[1..] + SEP + value;
      assert NoSep(name[1..]) by {
        forall i | 0 <= i < |name[1..]| - 1 ensures !(name[1..][i] == COLON && name[1..][i + 1] == SPACE) {
          assert !(name[i + 1] == COLON && name[i + 2] == SPACE);
        }
      }
      assert |name| > 1 ==> s[1] == name[1];
      assert |name| == 1 ==> s[1] == COLON;
      assert |name| > 1 ==> !(name[0] == COLON && name[0 + 1] == SPACE);
      SepAfter(name[1..], value);
    }
  }

  // ---------------------------------------------------------------------
  // Reading
  // ---------------------------------------------------------------------

  /** What one header line does: end the block, set the length, or fail. */
  datatype Header = End | Length(n: nat) | Other | Bad

  function ParseHeader(line: Bytes): Header {
    if line == CRLF then End
    else if |line| < 2 || line[|line| - 2..] != CRLF then Bad
    else
      var text := line[..|line| - 2];
      var i := FirstSep(text);
      if i == |text| then Bad
      else if EqIgnoreCase(text[..i], CONTENT_LENGTH) then
        var n := ParseUsize(text[i + 2..]);
        if n.Some? then Length(n.value) else Bad
      else Other
  }

  /** The header block: the last length wins. */
  function ReadHeaders(s: Bytes, length: Option<nat>, utf8: Utf8): (Result<nat, Error>, Bytes)
    decreases |s|
  {
    var n := LineLength(s);
    var line, rest := s[..n], s[n..];
    if !utf8(line) then (Err(Io), rest)
    else if line == [] then (Err(Eof), rest)
    else match ParseHeader(line)
      case End => (if length.Some? then Ok(length.value) else Err(Protocol), rest)
      case Length(k) => ReadHeaders(rest, Some(k), utf8)
      case Other => ReadHeaders(rest, length, utf8)
      case Bad => (Err(Protocol), rest)
  }

  function ReadMessage(s: Bytes, utf8: Utf8): (Result<Bytes, Error>, Bytes) {
    var (head, rest) := ReadHeaders(s, None, utf8);
    if head.Err? then (Err(head.error), rest)
    else if head.value > |rest| then (Err(Io), [])
    else (Ok(rest[..head.value]), rest[head.value..])
  }

  class Reader {
    var stream: Bytes

    constructor (stream: Bytes)
      ensures this.stream == stream
    {
      this.stream := stream;
    }

    method ReadLine(utf8: Utf8) returns (r: Result<Bytes, Error>)
      modifies this
      ensures var n := LineLength(old(stream));
        && stream == old(stream)[n..]
        && r == if utf8(old(stream)[..n]) then Ok(old(stream)[..n]) else Err(Io)
    {
      var n := LineLength(stream);
      var line := stream[..n];
      stream := stream[n..];
      r := if utf8(line) then Ok(line) else Err(Io);
    }

    /** `Message::read`. */
    method Read(utf8: Utf8) returns (r: Result<Bytes, Error>)
      modifies this
      ensures (r, stream) == ReadMessage(old(stream), utf8)
    {
      var length: Option<nat> := None;
      var reading := true;
      while reading
        invariant reading ==> ReadHeaders(stream, length, utf8) == ReadHeaders(old(stream), None, utf8)
        invariant !reading ==>
          (if length.Some? then Ok(length.value) else Err(Protocol), stream) == ReadHeaders(old(stream), None, utf8)
        decreases reading, |stream|
      {
        var read := ReadLine(utf8);
        if read.Err? { return Err(read.error); }
        var line := read.value;
        if line == [] { return Err(Eof); }
        match ParseHeader(line) {
          case End => reading := false;
          case Length(k) => length := Some(k);
          case Other =>
          case Bad => return Err(Protocol);
        }
      }
      if length.None? { return Err(Protocol); }
      if length.value > |stream| {
        stream := [];
        return Err(Io);
      }
      r := Ok(stream[..length.value]);
      stream := stream[length.value..];
    }
  }

  // ---------------------------------------------------------------------
  // Writing
  // ---------------------------------------------------------------------

  function HeaderLine(name: Bytes, value: Bytes): Bytes { name + SEP + value + CRLF }

  function LengthLine(body: Bytes): Bytes { HeaderLine(CONTENT_LENGTH, Digits(|body|)) }

  /** What `Message::write` puts on the stream. */
  function Frame(body: Bytes): Bytes { LengthLine(body) + CRLF + body }

  class Writer {
    var stream: Bytes

    constructor ()
      ensures stream == []
    {
      stream := [];
    }

    method Write(body: Bytes)
      requires |body| < U64
      modifies this
      ensures stream == old(stream) + Frame(body)
    {
      stream := stream + (CONTENT_LENGTH + SEP + Digits(|body|) + CRLF + CRLF);
      stream := stream + body;
      assert stream == old(stream) + Frame(body);
    }
  }

  // ---------------------------------------------------------------------
  // Round trip
  // ---------------------------------------------------------------------

  datatype OtherHeader = OtherHeader(name: Bytes, value: Bytes)

  predicate WellFormed(h: OtherHeader, utf8: Utf8) {
    && LF !in h.name && LF !in h.value && NoSep(h.name) && !EqIgnoreCase(h.name, CONTENT_LENGTH)
    && utf8(HeaderLine(h.name, h.value))
  }

  function HeaderBlock(hs: seq<OtherHeader>): Bytes {
    if hs == [] then [] else HeaderLine(hs[0].name, hs[0].value) + HeaderBlock(hs[1..])
  }

  /** Reading a line that a header produced. */
  lemma TakeLine(name: Bytes, value: Bytes, rest: Bytes)
    requires LF !in name && LF !in value
    ensures var s := HeaderLine(name, value) + rest;
      var n := LineLength(s);
      s[..n] == HeaderLine(name, value) && s[n..] == rest
  {
    var x := name + SEP + value + [CR];
    assert x + [LF] == HeaderLine(name, value);
    LineOf(x, rest);
  }

  lemma ParseOther(name: Bytes, value: Bytes)
    requires NoSep(name)
    ensures ParseHeader(HeaderLine(name, value)) ==
      if EqIgnoreCase(name, CONTENT_LENGTH) then
        (if ParseUsize(value).Some? then Length(ParseUsize(value).value) else Bad)
      else Other
  {
    var line, text := HeaderLine(name, value), name + SEP + value;
    assert line[|line| - 2..] == CRLF && line[..|line| - 2] == text;
    SepAfter(name, value);
    assert text[..|name|] == name && text[|name| + 2..] == value;
  }

  lemma SkipOne(h: OtherHeader, tail: Bytes, length: Option<nat>, utf8: Utf8)
    requires WellFormed(h, utf8)
    ensures ReadHeaders(HeaderLine(h.name, h.value) + tail, length, utf8) == ReadHeaders(tail, length, utf8)
  {
    TakeLine(h.name, h.value, tail);
    ParseOther(h.name, h.value);
  }

  lemma {:induction false} SkipOthers(hs: seq<OtherHeader>, rest: Bytes, length: Option<nat>, utf8: Utf8)
    requires forall i :: 0 <= i < |hs| ==> WellFormed(hs[i], utf8)
    ensures ReadHeaders(HeaderBlock(hs) + rest, length, utf8) == ReadHeaders(rest, length, utf8)
  {
    if hs == [] {
      assert [] + rest == rest;
    } else {
      var h, tail := hs[0], HeaderBlock(hs[1..]) + rest;
      assert HeaderBlock(hs) + rest == HeaderLine(h.name, h.value) + tail;
      SkipOne(h, tail, length, utf8);
      SkipOthers(hs[1..], rest, length, utf8);
    }
  }

  lemma AsciiConcat(a: Bytes, b: Bytes)
    requires Ascii(a) && Ascii(b)
    ensures Ascii(a + b)
  {
  }

  lemma DigitsPlain(n: nat)
    ensures Ascii(Digits(n)) && LF !in Digits(n)
  {
    var d := Digits(n);
    forall i | 0 <= i < |d| ensures d[i] < 128 && d[i] != LF {
      assert IsDigit(d[i]);
    }
  }

  lemma NamePlain()
    ensures Ascii(CONTENT_LENGTH) && LF !in CONTENT_LENGTH && NoSep(CONTENT_LENGTH)
  {
  }

  lemma AsciiLength(body: Bytes)
    ensures Ascii(LengthLine(body))
  {
    var d := Digits(|body|);
    DigitsPlain(|body|);
    NamePlain();
    AsciiConcat(CONTENT_LENGTH, SEP);
    AsciiConcat(CONTENT_LENGTH + SEP, d);
    AsciiConcat(CONTENT_LENGTH + SEP + d, CRLF);
  }

  lemma TakeLength(body: Bytes, rest: Bytes, length: Option<nat>, utf8: Utf8)
    requires |body| < U64 && AcceptsAscii(utf8)
    ensures ReadHeaders(LengthLine(body) + rest, length, utf8) == ReadHeaders(rest, Some(|body|), utf8)
  {
    AsciiLength(body);
    DigitsPlain(|body|);
    NamePlain();
    TakeLine(CONTENT_LENGTH, Digits(|body|), rest);
    ParseOther(CONTENT_LENGTH, Digits(|body|));
    ParseDigits(|body|);
  }

  lemma TakeEnd(rest: Bytes, length: nat, utf8: Utf8)
    requires AcceptsAscii(utf8)
    ensures ReadHeaders(CRLF + rest, Some(length), utf8) == (Ok(length), rest)
  {
    var s := CRLF + rest;
    assert [CR] + [LF] + rest == s;
    LineOf([CR], rest);
    assert s[..2] == CRLF && s[2..] == rest;
    assert Ascii(CRLF);
  }

  /** A message with other headers around its length. */
  datatype Envelope = Envelope(before: seq<OtherHeader>, after: seq<OtherHeader>, body: Bytes)

  predicate EnvelopeOk(e: Envelope, utf8: Utf8) {
    && |e.body| < U64
    && (forall i :: 0 <= i < |e.before| ==> WellFormed(e.before[i], utf8))
    && (forall i :: 0 <= i < |e.after| ==> WellFormed(e.after[i], utf8))
  }

  function Encoded(e: Envelope): Bytes {
    HeaderBlock(e.before) + (LengthLine(e.body) + (HeaderBlock(e.after) + (CRLF + e.body)))
  }

  /** One message comes back whole, and nothing after it is touched. */
  lemma ReadBack(e: Envelope, rest: Bytes, utf8: Utf8)
    requires AcceptsAscii(utf8) && EnvelopeOk(e, utf8)
    ensures ReadMessage(Encoded(e) + rest, utf8) == (Ok(e.body), rest)
  {
    var s4 := e.body + rest;
    var s3 := CRLF + s4;
    var s2 := HeaderBlock(e.after) + s3;
    var s1 := LengthLine(e.body) + s2;
    EncodedParts(e, rest);
    SkipOthers(e.before, s1, None, utf8);
    TakeLength(e.body, s2, None, utf8);
    SkipOthers(e.after, s3, Some(|e.body|), utf8);
    TakeEnd(s4, |e.body|, utf8);
    assert s4[..|e.body|] == e.body && s4[|e.body|..] == rest;
  }

  lemma EncodedParts(e: Envelope, rest: Bytes)
    ensures Encoded(e) + rest
         == HeaderBlock(e.before) + (LengthLine(e.body) + (HeaderBlock(e.after) + (CRLF + (e.body + rest))))
  {
    Assoc(CRLF, e.body, rest);
    Assoc(HeaderBlock(e.after), CRLF + e.body, rest);
    Assoc(LengthLine(e.body), HeaderBlock(e.after) + (CRLF + e.body), rest);
    Assoc(HeaderBlock(e.before), LengthLine(e.body) + (HeaderBlock(e.after) + (CRLF + e.body)), rest);
  }

  /** `n` messages read one after the other, and what is left. */
  function ReadMany(s: Bytes, n: nat, utf8: Utf8): (Result<seq<Bytes>, Error>, Bytes)
    decreases n
  {
    if n == 0 then (Ok([]), s)
    else
      var (first, rest) := ReadMessage(s, utf8);
      if first.Err? then (Err(first.error), rest)
      else
        var (others, end) := ReadMany(rest, n - 1, utf8);
        if others.Err? then (others, end) else (Ok([first.value] + others.value), end)
  }

  function EncodedAll(es: seq<Envelope>): Bytes {
    if es == [] then [] else Encoded(es[0]) + EncodedAll(es[1..])
  }

  function Bodies(es: seq<Envelope>): seq<Bytes> {
    if es == [] then [] else [es[0].body] + Bodies(es[1..])
  }

  /** The whole stream comes back in order and is consumed to its end, whatever
      other well-formed headers stand around the lengths. */
  lemma {:induction false} StreamRoundTrip(es: seq<Envelope>, utf8: Utf8)
    requires AcceptsAscii(utf8) && forall i :: 0 <= i < |es| ==> EnvelopeOk(es[i], utf8)
    ensures ReadMany(EncodedAll(es), |es|, utf8) == (Ok(Bodies(es)), [])
  {
    if es != [] {
      ReadBack(es[0], EncodedAll(es[1..]), utf8);
      StreamRoundTrip(es[1..], utf8);
    }
  }

  /** What the writer produces is the case without other headers. */
  lemma WrittenIsEncoded(body: Bytes)
    ensures Encoded(Envelope([], [], body)) == Frame(body)
  {
  }

  function Frames(bodies: seq<Bytes>): Bytes {
    if bodies == [] then [] else Frame(bodies[0]) + Frames(bodies[1..])
  }

  function Plain(bodies: seq<Bytes>): (es: seq<Envelope>)
    ensures |es| == |bodies|
  {
    seq(|bodies|, i requires 0 <= i < |bodies| => Envelope([], [], bodies[i]))
  }

  lemma {:induction false} PlainIsFrames(bodies: seq<Bytes>)
    ensures EncodedAll(Plain(bodies)) == Frames(bodies) && Bodies(Plain(bodies)) == bodies
  {
    if bodies != [] {
      assert Plain(bodies)[1..] == Plain(bodies[1..]);
      WrittenIsEncoded(bodies[0]);
      PlainIsFrames(bodies[1..]);
    }
  }

  /** Whatever the writer writes, one message after the other, the reader gives
      back in order, and then stands at the end of the stream. */
  lemma WrittenRoundTrip(bodies: seq<Bytes>, utf8: Utf8)
    requires AcceptsAscii(utf8) && forall i :: 0 <= i < |bodies| ==> |bodies[i]| < U64
    ensures ReadMany(Frames(bodies), |bodies|, utf8) == (Ok(bodies), [])
  {
    PlainIsFrames(bodies);
    StreamRoundTrip(Plain(bodies), utf8);
  }

  /** The error for a stream that stops `k` bytes into a written message. */
  function CutError(body: Bytes, k: nat): Error {
    var line := |LengthLine(body)|;
    if k == 0 || k == line then Eof else if k < line + 2 then Protocol else Io
  }

  /** No part of a written message that stops short is ever taken for one.
      Between lines that is the end of the stream, inside a line a protocol
      error, and inside the body an I/O error. */
  lemma PrefixIsRefused(body: Bytes, k: nat, utf8: Utf8)
    requires AcceptsAscii(utf8) && |body| < U64 && k < |Frame(body)|
    ensures ReadMessage(Frame(body)[..k], utf8).0 == Err(CutError(body, k))
  {
    var line := LengthLine(body);
    Assoc(line, CRLF, body);
    if k < |line| {
      assert Frame(body)[..k] == line[..k];
      CutInLine(body, k, utf8);
    } else {
      assert Frame(body)[..k] == line + (CRLF + body)[..k - |line|];
      CutMessage(body, k - |line|, utf8);
    }
  }

  lemma CutMessage(body: Bytes, j: nat, utf8: Utf8)
    requires AcceptsAscii(utf8) && |body| < U64 && j < |CRLF + body|
    ensures ReadMessage(LengthLine(body) + (CRLF + body)[..j], utf8).0
         == Err(if j == 0 then Eof else if j < 2 then Protocol else Io)
  {
    TakeLength(body, (CRLF + body)[..j], None, utf8);
    CutAfterLine(body, j, utf8);
  }

  lemma CutInLine(body: Bytes, k: nat, utf8: Utf8)
    requires AcceptsAscii(utf8) && k < |LengthLine(body)|
    ensures ReadHeaders(LengthLine(body)[..k], None, utf8).0 == Err(if k == 0 then Eof else Protocol)
  {
    var x := LengthLine(body)[..k];
    AsciiLength(body);
    forall i | 0 <= i < k ensures x[i] != LF {
      LengthLineInside(body, i);
    }
    LineOf(x, []);
    assert x[..k] == x && Ascii(x);
    assert k >= 2 ==> x[k - 2..][1] != LF;
  }

  lemma CutAfterLine(body: Bytes, k: nat, utf8: Utf8)
    requires AcceptsAscii(utf8) && k < |CRLF + body|
    ensures var (head, rest) := ReadHeaders((CRLF + body)[..k], Some(|body|), utf8);
      if k < 2 then head == Err(if k == 0 then Eof else Protocol) else head == Ok(|body|) && |body| > |rest|
  {
    var tail := (CRLF + body)[..k];
    if k < 2 {
      assert LF !in tail && Ascii(tail);
      LineOf(tail, []);
      assert tail[..k] == tail;
    } else {
      assert tail == CRLF + body[..k - 2];
      TakeEnd(body[..k - 2], |body|, utf8);
    }
  }

  lemma LengthLineInside(body: Bytes, i: nat)
    requires i < |LengthLine(body)| - 1
    ensures LengthLine(body)[i] != LF
  {
    DigitsPlain(|body|);
    NamePlain();
    var x := CONTENT_LENGTH + SEP + Digits(|body|);
    assert LengthLine(body) == x + CRLF;
    assert i < |x| ==> x[i] in CONTENT_LENGTH || x[i] in SEP || x[i] in Digits(|body|);
  }

  // ---------------------------------------------------------------------
  // What other peers send
  // ---------------------------------------------------------------------

  /** "Content-Length" with any of its letters in the other case. */
  predicate AnyCase(name: Bytes) {
    |name| == 14 && forall i :: 0 <= i < 14 ==>
      var c := CONTENT_LENGTH[i];
      name[i] == c || (c == 67 && name[i] == 99) || (c == 76 && name[i] == 108) || (c >= 97 && name[i] == c - 32)
  }

  lemma AnyCaseIs(name: Bytes)
    ensures AnyCase(name) <==> EqIgnoreCase(name, CONTENT_LENGTH)
  {
    if |name| == 14 {
      forall i | 0 <= i < 14 ensures
        (name[i] == CONTENT_LENGTH[i] || (CONTENT_LENGTH[i] == 67 && name[i] == 99)
         || (CONTENT_LENGTH[i] == 76 && name[i] == 108)
         || (CONTENT_LENGTH[i] >= 97 && name[i] == CONTENT_LENGTH[i] - 32))
        <==> Lower(name[i]) == Lower(CONTENT_LENGTH[i])
      {
        SameLetter(name[i], CONTENT_LENGTH[i]);
      }
    }
  }

  lemma SameLetter(b: byte, c: byte)
    requires c == 45 || c == 67 || c == 76 || 97 <= c <= 122
    ensures (b == c || (c == 67 && b == 99) || (c == 76 && b == 108) || (c >= 97 && b == c - 32)) <==>
      Lower(b) == Lower(c)
  {
  }

  lemma AnyCasePlain(name: Bytes)
    requires AnyCase(name)
    ensures Ascii(name) && LF !in name && NoSep(name)
  {
    forall i | 0 <= i < 14 ensures name[i] < 128 && name[i] != LF && name[i] != COLON {
      var c := CONTENT_LENGTH[i];
      assert c == 45 || c == 67 || c == 76 || 97 <= c <= 122;
    }
  }

  /** Zeros in front of a number. */
  function Zeros(k: nat): (r: Bytes)
    ensures |r| == k && forall i :: 0 <= i < k ==> r[i] == 48
  {
    seq(k, i => 48)
  }

  lemma {:induction false} ValueOfPadded(k: nat, d: Bytes)
    requires forall i :: 0 <= i < |d| ==> IsDigit(d[i])
    ensures forall i :: 0 <= i < |Zeros(k) + d| ==> IsDigit((Zeros(k) + d)[i])
    ensures Value(Zeros(k) + d) == Value(d)
    decreases k + |d|
  {
    var s := Zeros(k) + d;
    if d != [] {
      assert s[..|s| - 1] == Zeros(k) + d[..|d| - 1];
      ValueOfPadded(k, d[..|d| - 1]);
    } else if k > 0 {
      assert s[..|s| - 1] == Zeros(k - 1) + d;
      ValueOfPadded(k - 1, d);
    }
  }

  /** A number as a peer may write it: with a plus sign or zeros in front. */
  function Number(plus: bool, zeros: nat, n: nat): Bytes { (if plus then [PLUS] else []) + (Zeros(zeros) + Digits(n)) }

  lemma ParseNumber(plus: bool, zeros: nat, n: nat)
    ensures ParseUsize(Number(plus, zeros, n)) == if n < U64 then Some(n) else None
  {
    var d := Zeros(zeros) + Digits(n);
    ValueOfDigits(n);
    ValueOfPadded(zeros, Digits(n));
    assert IsDigit(d[0]);
    if plus { assert Number(plus, zeros, n)[1..] == d; } else { assert [] + d == d; }
  }

  lemma NumberPlain(plus: bool, zeros: nat, n: nat)
    ensures Ascii(Number(plus, zeros, n)) && LF !in Number(plus, zeros, n)
  {
    DigitsPlain(n);
  }

  /** One length header, in any case and with any number. */
  lemma TakeNumber(name: Bytes, plus: bool, zeros: nat, n: nat, rest: Bytes, length: Option<nat>, utf8: Utf8)
    requires AcceptsAscii(utf8) && AnyCase(name)
    ensures var s := HeaderLine(name, Number(plus, zeros, n)) + rest;
      ReadHeaders(s, length, utf8) == if n < U64 then ReadHeaders(rest, Some(n), utf8) else (Err(Protocol), rest)
  {
    var value := Number(plus, zeros, n);
    AnyCaseIs(name);
    AnyCasePlain(name);
    NumberPlain(plus, zeros, n);
    ParseNumber(plus, zeros, n);
    TakeLine(name, value, rest);
    ParseOther(name, value);
    assert Ascii(HeaderLine(name, value)) by {
      AsciiConcat(name, SEP);
      AsciiConcat(name + SEP, value);
      AsciiConcat(name + SEP + value, CRLF);
    }
  }

  /** A message comes back whatever case its length header is in and however the
      number is padded, and of several lengths the last one counts. */
  lemma ForeignReadBack(earlier: nat, name: Bytes, plus: bool, zeros: nat, body: Bytes, rest: Bytes, utf8: Utf8)
    requires AcceptsAscii(utf8) && AnyCase(name) && |body| < U64 && earlier < U64
    ensures var last := HeaderLine(name, Number(plus, zeros, |body|));
      && ReadMessage(last + (CRLF + (body + rest)), utf8) == (Ok(body), rest)
      && ReadMessage(HeaderLine(name, Digits(earlier)) + (last + (CRLF + (body + rest))), utf8) == (Ok(body), rest)
  {
    var tail := CRLF + (body + rest);
    var last := HeaderLine(name, Number(plus, zeros, |body|));
    TakeNumber(name, plus, zeros, |body|, tail, None, utf8);
    TakeNumber(name, plus, zeros, |body|, tail, Some(earlier), utf8);
    TakeNumber(name, false, 0, earlier, last + tail, None, utf8);
    assert Number(false, 0, earlier) == Digits(earlier);
    TakeEnd(body + rest, |body|, utf8);
    assert (body + rest)[..|body|] == body && (body + rest)[|body|..] == rest;
  }

  /** What a first line that is no header of a message leads to. */
  lemma BadFirstLine(x: Bytes, rest: Bytes, utf8: Utf8)
    requires LF !in x
    ensures var r := ReadMessage(x + [LF] + rest, utf8);
      && (!utf8(x + [LF]) ==> r == (Err(Io), rest))
      && (utf8(x + [LF]) && (x == [] || x[|x| - 1] != CR || NoSep(x[..|x| - 1])) ==> r == (Err(Protocol), rest))
  {
    var s := x + [LF] + rest;
    LineOf(x, rest);
    var line := x + [LF];
    assert s[..|x| + 1] == line && s[|x| + 1..] == rest;
    if x != [] && x[|x| - 1] == CR && NoSep(x[..|x| - 1]) {
      assert line[|line| - 2..] == [CR, LF] && line[..|line| - 2] == x[..|x| - 1];
      NoSepIs(x[..|x| - 1]);
    } else if x != [] && x[|x| - 1] != CR {
      assert line[|line| - 2..][0] == x[|x| - 1];
    }
  }

  lemma {:induction false} NoSepIs(s: Bytes)
    requires NoSep(s)
    ensures FirstSep(s) == |s|
  {
    if s != [] {
      assert NoSep(s[1..]) by {
        forall i | 0 <= i < |s[1..]| - 1 ensures !(s[1..][i] == COLON && s[1..][i + 1] == SPACE) {
          assert !(s[i + 1] == COLON && s[i + 2] == SPACE);
        }
      }
      assert |s| > 1 ==> !(s[0] == COLON && s[0 + 1] == SPACE);
      NoSepIs(s[1..]);
    }
  }

  /** The bytes of a small message: a decimal length and an empty line. */
  lemma FrameBytes()
    ensures Frame([123, 125]) ==
      [67, 111, 110, 116, 101, 110, 116, 45, 76, 101, 110, 103, 116, 104, 58, 32, 50, 13, 10, 13, 10, 123, 125]
  {
  }

  /** Lengths are written in decimal, most significant digit first. */
  lemma DecimalForm(n: nat, d: nat)
    requires d < 10
    ensures Digits(d) == [(48 + d) as byte] && (n > 0 ==> Digits(10 * n + d) == Digits(n) + [(48 + d) as byte])
  {
    assert (10 * n + d) / 10 == n && (10 * n + d) % 10 == d;
  }
}
