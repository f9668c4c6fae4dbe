/** The server side of the college chat (`chat_stream` in backend/main.py):
    every content delta of the upstream language-model stream becomes one
    Server-Sent-Events frame carrying a JSON object, a failure becomes one
    error frame, and the stream always ends with a `[DONE]` frame.

    The JSON text is the one Python's `json.dumps` writes with its default
    settings (`ensure_ascii`, separators `, ` and `: `). `ParsePayload` reads
    that shape back; the round trip is proved. */
module ChatStream {
  import opened Strings

  // ---------------------------------------------------------------------
  // JSON string literals
  // ---------------------------------------------------------------------

  function HexDigit(d: nat): (c: char)
    requires d < 16
    ensures ' ' <= c <= '~'
  {
    if d < 10 then (('0' as int) + d) as char else (('a' as int) + d - 10) as char
  }

  predicate IsHexChar(c: char) {
    '0' <= c <= '9' || 'a' <= c <= 'f' || 'A' <= c <= 'F'
  }

  function HexValue(c: char): (d: nat)
    requires IsHexChar(c)
    ensures d < 16
  {
    if '0' <= c <= '9' then (c as int) - ('0' as int)
    else if 'a' <= c <= 'f' then (c as int) - ('a' as int) + 10
    else (c as int) - ('A' as int) + 10
  }

  /** Four lower-case hex digits, as `'\\u{0:04x}'` writes them. */
  function Hex4(n: nat): (h: string)
    requires n < 0x1_0000
    ensures |h| == 4
    ensures forall i :: 0 <= i < 4 ==> ' ' <= h[i] <= '~'
  {
    [HexDigit(n / 16 / 16 / 16), HexDigit(n / 16 / 16 % 16), HexDigit(n / 16 % 16), HexDigit(n % 16)]
  }

  predicate IsHex4(t: string) {
    |t| == 4 && IsHexChar(t[0]) && IsHexChar(t[1]) && IsHexChar(t[2]) && IsHexChar(t[3])
  }

  function Hex4Value(t: string): (n: nat)
    requires IsHex4(t)
    ensures n < 0x1_0000
  {
    ((HexValue(t[0]) * 16 + HexValue(t[1])) * 16 + HexValue(t[2])) * 16 + HexValue(t[3])
  }

  lemma HexDigitValue(d: nat)
    requires d < 16
    ensures IsHexChar(HexDigit(d)) && HexValue(HexDigit(d)) == d
  {
  }

  /** Reading four hex digits back gives the number written. */
  lemma Hex4RoundTrip(n: nat)
    requires n < 0x1_0000
    ensures IsHex4(Hex4(n)) && Hex4Value(Hex4(n)) == n
  {
    HexDigitValue(n / 16 / 16 / 16);
    HexDigitValue(n / 16 / 16 % 16);
    HexDigitValue(n / 16 % 16);
    HexDigitValue(n % 16);
  }

  const Backspace: char := '\U{8}'
  const FormFeed: char := '\U{C}'

  /** How `json.dumps` writes one character inside a string literal: the
      quote, the backslash and five control characters get a short escape;
      every other character outside space..tilde becomes `\u` and four hex
      digits, or a surrogate pair of them above the first plane. */
  function Escape(c: char): string {
    if c == '"' then "\\\""
    else if c == '\\' then "\\\\"
    else if c == '\n' then "\\n"
    else if c == '\r' then "\\r"
    else if c == '\t' then "\\t"
    else if c == Backspace then "\\b"
    else if c == FormFeed then "\\f"
    else if ' ' <= c <= '~' then [c]
    else if (c as int) < 0x1_0000 then "\\u" + Hex4(c as int)
    else
      var v := (c as int) - 0x1_0000;
      "\\u" + Hex4(0xD800 + v / 0x400) + "\\u" + Hex4(0xDC00 + v % 0x400)
  }

  /** The characters of a string literal body. */
  function JsonString(s: string): string {
    if s == [] then [] else Escape(s[0]) + JsonString(s[1..])
  }

  predicate Printable(t: string) {
    forall i :: 0 <= i < |t| ==> ' ' <= t[i] <= '~'
  }

  lemma EscapePrintable(c: char)
    ensures |Escape(c)| > 0 && Printable(Escape(c))
  {
  }

  /** With `ensure_ascii` the encoded text is printable ASCII: in particular
      it holds no line break, so a frame's payload never spans two lines. */
  lemma {:induction false} JsonStringPrintable(s: string)
    ensures Printable(JsonString(s))
  {
    if s != [] {
      EscapePrintable(s[0]);
      JsonStringPrintable(s[1..]);
    }
  }

  function Prepend(c: char, r: Option<string>): Option<string> {
    if r.Some? then Some([c] + r.value) else None
  }

  predicate IsScalar(v: int) {
    0 <= v < 0xD800 || 0xE000 <= v < 0x11_0000
  }

  /** Decodes the body of a JSON string literal (the text between the
      quotes), as a JSON reader does; `None` for a bare quote, a control
      character, a bad escape or a lone surrogate. */
  function Unescape(t: string): (r: Option<string>)
    decreases |t|
  {
    if t == [] then Some([])
    else if t[0] == '"' || t[0] < ' ' then None
    else if t[0] != '\\' then Prepend(t[0], Unescape(t[1..]))
    else if |t| < 2 then None
    else if t[1] == '"' then Prepend('"', Unescape(t[2..]))
    else if t[1] == '\\' then Prepend('\\', Unescape(t[2..]))
    else if t[1] == '/' then Prepend('/', Unescape(t[2..]))
    else if t[1] == 'n' then Prepend('\n', Unescape(t[2..]))
    else if t[1] == 'r' then Prepend('\r', Unescape(t[2..]))
    else if t[1] == 't' then Prepend('\t', Unescape(t[2..]))
    else if t[1] == 'b' then Prepend(Backspace, Unescape(t[2..]))
    else if t[1] == 'f' then Prepend(FormFeed, Unescape(t[2..]))
    else if t[1] != 'u' || |t| < 6 || !IsHex4(t[2..6]) then None
    else
      var v := Hex4Value(t[2..6]);
      if IsScalar(v) then Prepend(v as char, Unescape(t[6..]))
      else if v >= 0xDC00 || |t| < 12 || t[6] != '\\' || t[7] != 'u' || !IsHex4(t[8..12]) then None
      else
        var w := Hex4Value(t[8..12]);
        if w < 0xDC00 || w >= 0xE000 then None
        else
          var cp := 0x1_0000 + (v - 0xD800) * 0x400 + (w - 0xDC00);
          Prepend(cp as char, Unescape(t[12..]))
  }

  lemma UnescapeShort(e: char, c: char, rest: string)
    requires (e, c) in {('"', '"'), ('\\', '\\'), ('n', '\n'), ('r', '\r'), ('t', '\t'), ('b', Backspace), ('f', FormFeed)}
    ensures Unescape(['\\', e] + rest) == Prepend(c, Unescape(rest))
  {
    assert (['\\', e] + rest)[2..] == rest;
  }

  lemma UnescapeBmp(n: nat, rest: string)
    requires n < 0x1_0000 && IsScalar(n)
    ensures Unescape("\\u" + Hex4(n) + rest) == Prepend(n as char, Unescape(rest))
  {
    var t := "\\u" + Hex4(n) + rest;
    Hex4RoundTrip(n);
    assert t[2..6] == Hex4(n);
    assert t[6..] == rest;
  }

  lemma UnescapePair(hi: nat, lo: nat, rest: string)
    requires 0xD800 <= hi < 0xDC00 && 0xDC00 <= lo < 0xE000
    ensures IsScalar(0x1_0000 + (hi - 0xD800) * 0x400 + (lo - 0xDC00))
    ensures Unescape("\\u" + Hex4(hi) + "\\u" + Hex4(lo) + rest)
      == Prepend((0x1_0000 + (hi - 0xD800) * 0x400 + (lo - 0xDC00)) as char, Unescape(rest))
  {
    Hex4RoundTrip(hi);
    Hex4RoundTrip(lo);
    PairLayout(Hex4(hi), Hex4(lo), rest);
  }

  /** Where the parts of an escaped surrogate pair sit. */
  lemma PairLayout(h: string, l: string, rest: string)
    requires |h| == 4 && |l| == 4
    ensures var t := "\\u" + h + "\\u" + l + rest;
      |t| >= 12 && t[0] == '\\' && t[1] == 'u' && t[2..6] == h && t[6] == '\\' && t[7] == 'u'
      && t[8..12] == l && t[12..] == rest
  {
    var t := "\\u" + h + "\\u" + l + rest;
    assert t[2..6] == h;
    assert t[8..12] == l;
    assert t[12..] == rest;
  }

  /** Decoding one escaped character in front of any text. */
  lemma UnescapeEscape(c: char, rest: string)
    ensures Unescape(Escape(c) + rest) == Prepend(c, Unescape(rest))
  {
    if c == '"' {
      UnescapeShort('"', c, rest);
    } else if c == '\\' {
      UnescapeShort('\\', c, rest);
    } else if c == '\n' {
      UnescapeShort('n', c, rest);
    } else if c == '\r' {
      UnescapeShort('r', c, rest);
    } else if c == '\t' {
      UnescapeShort('t', c, rest);
    } else if c == Backspace {
      UnescapeShort('b', c, rest);
    } else if c == FormFeed {
      UnescapeShort('f', c, rest);
    } else if ' ' <= c <= '~' {
      assert ([c] + rest)[1..] == rest;
    } else if (c as int) < 0x1_0000 {
      UnescapeBmp(c as int, rest);
    } else {
      var v := (c as int) - 0x1_0000;
      UnescapePair(0xD800 + v / 0x400, 0xDC00 + v % 0x400, rest);
    }
  }

  /** Decoding what `json.dumps` wrote gives back the original text. */
  lemma {:induction false} JsonStringRoundTrip(s: string)
    ensures Unescape(JsonString(s)) == Some(s)
  {
    if s != [] {
      JsonStringRoundTrip(s[1..]);
      UnescapeEscape(s[0], JsonString(s[1..]));
      assert [s[0]] + s[1..] == s;
    }
  }

  // ---------------------------------------------------------------------
  // Frames
  // ---------------------------------------------------------------------

  const PayloadHead: string := "{\"choices\": [{\"delta\": {\"content\": \""
  const PayloadTail: string := "\"}}]}"

  /** `json.dumps({"choices": [{"delta": {"content": s}}]})`. */
  function Payload(s: string): string {
    PayloadHead + JsonString(s) + PayloadTail
  }

  /** Reads the content back out of a payload of that exact shape. */
  function ParsePayload(p: string): Option<string> {
    if |p| >= |PayloadHead| + |PayloadTail| && p[..|PayloadHead|] == PayloadHead
       && p[|p| - |PayloadTail|..] == PayloadTail
    then Unescape(p[|PayloadHead|..|p| - |PayloadTail|])
    else None
  }

  /** Every payload reads back as the content it was built from. */
  lemma PayloadRoundTrip(s: string)
    ensures ParsePayload(Payload(s)) == Some(s)
  {
    var p := Payload(s);
    assert p[..|PayloadHead|] == PayloadHead;
    assert p[|p| - |PayloadTail|..] == PayloadTail;
    assert p[|PayloadHead|..|p| - |PayloadTail|] == JsonString(s);
    JsonStringRoundTrip(s);
  }

  /** A payload is one line of printable text that starts with `{` and
      ends with `}`. */
  lemma PayloadShape(s: string)
    ensures |Payload(s)| > 0 && Payload(s)[0] == '{' && Payload(s)[|Payload(s)| - 1] == '}'
    ensures Printable(Payload(s))
  {
    var p := Payload(s);
    assert p[0] == PayloadHead[0];
    assert p[|p| - 1] == PayloadTail[|PayloadTail| - 1];
    JsonStringPrintable(s);
    FixedPartsPrintable();
    PrintableAppend(PayloadHead, JsonString(s));
    PrintableAppend(PayloadHead + JsonString(s), PayloadTail);
  }

  lemma FixedPartsPrintable()
    ensures Printable(PayloadHead) && Printable(PayloadTail)
  {
  }

  lemma PrintableAppend(a: string, b: string)
    requires Printable(a) && Printable(b)
    ensures Printable(a + b)
  {
    forall i | 0 <= i < |a + b| ensures ' ' <= (a + b)[i] <= '~' {
      if i >= |a| {
        assert (a + b)[i] == b[i - |a|];
      }
    }
  }

  /** One SSE event: `data: <payload>` and a blank line. */
  function Frame(payload: string): string {
    "data: " + payload + "\n\n"
  }

  const DoneFrame: string := Frame("[DONE]")

  function ErrorText(message: string): string {
    "\n\n[Error: " + message + "]"
  }

  /** What the upstream model stream delivers: the content of each chunk's
      delta (`None` when it has none) and, if it raised, the text of the
      exception, raised after the chunks listed (before any of them when the
      request itself failed). */
  datatype Upstream = Upstream(deltas: seq<Option<string>>, failure: Option<string>)

  /** A delta produces a frame when its content is truthy: present and not
      empty. */
  predicate HasContent(d: Option<string>) {
    d.Some? && d.value != ""
  }

  /** The frames for a sequence of deltas, one per delta with content. */
  function DeltaFrames(ds: seq<Option<string>>): seq<string> {
    if ds == [] then []
    else DeltaFrames(ds[..|ds| - 1]) + (if HasContent(ds[|ds| - 1]) then [Frame(Payload(ds[|ds| - 1].value))] else [])
  }

  /** The whole response body as a list of frames. */
  function StreamFrames(up: Upstream): seq<string> {
    DeltaFrames(up.deltas)
    + (if up.failure.Some? then [Frame(Payload(ErrorText(up.failure.value)))] else [])
    + [DoneFrame]
  }

  /** `generate`: forwards each delta with content as a frame, then on
      success or failure alike ends with `[DONE]`. */
  method Generate(up: Upstream) returns (frames: seq<string>)
    ensures frames == StreamFrames(up)
  {
    frames := [];
    for i := 0 to |up.deltas|
      invariant frames == DeltaFrames(up.deltas[..i])
    {
      assert up.deltas[..i + 1][..i] == up.deltas[..i];
      var delta := up.deltas[i];
      if delta.Some? && delta.value != "" {
        frames := frames + [Frame(Payload(delta.value))];
      }
    }
    assert up.deltas[..|up.deltas|] == up.deltas;
    if up.failure.Some? {
      frames := frames + [Frame(Payload(ErrorText(up.failure.value)))];
    }
    frames := frames + [DoneFrame];
  }

  /** The contents the frames carry, in order. */
  function Contents(ds: seq<Option<string>>): seq<string> {
    if ds == [] then []
    else Contents(ds[..|ds| - 1]) + (if HasContent(ds[|ds| - 1]) then [ds[|ds| - 1].value] else [])
  }

  function ContentsOf(up: Upstream): seq<string> {
    Contents(up.deltas) + (if up.failure.Some? then [ErrorText(up.failure.value)] else [])
  }

  /** The body is one payload frame per delta with content (plus one for a
      failure), each carrying that content, followed by exactly one
      `[DONE]` frame, which comes last. */
  lemma {:induction false} StreamFramesShape(up: Upstream)
    ensures var fs, cs := StreamFrames(up), ContentsOf(up);
      |fs| == |cs| + 1 &&
      fs[|fs| - 1] == DoneFrame &&
      forall k :: 0 <= k < |cs| ==> fs[k] == Frame(Payload(cs[k])) && fs[k] != DoneFrame
  {
    DeltaFramesShape(up.deltas);
    forall s: string ensures Frame(Payload(s)) != DoneFrame {
      PayloadShape(s);
      assert Frame(Payload(s))[6] == '{';
      assert DoneFrame[6] == '[';
    }
  }

  lemma {:induction false} DeltaFramesShape(ds: seq<Option<string>>)
    ensures |DeltaFrames(ds)| == |Contents(ds)|
    ensures forall k :: 0 <= k < |Contents(ds)| ==> DeltaFrames(ds)[k] == Frame(Payload(Contents(ds)[k]))
  {
    if ds != [] {
      DeltaFramesShape(ds[..|ds| - 1]);
    }
  }

  /** Deltas with no content produce nothing: appending one changes neither
      the frames nor the contents. */
  lemma EmptyDeltaIgnored(ds: seq<Option<string>>, d: Option<string>)
    requires !HasContent(d)
    ensures DeltaFrames(ds + [d]) == DeltaFrames(ds)
    ensures Contents(ds + [d]) == Contents(ds)
  {
    assert (ds + [d])[..|ds|] == ds;
  }
}
