/**
 * The one JSON document the server writes itself: `json.dumps({"detail": d})`
 * in an error reply, with Python's default `ensure_ascii=True` string escaping,
 * and the decoding of such a string, which shows that the escaping loses nothing.
 */
module Json {
  import opened Wrappers

  predicate IsPrintableAscii(c: char) {
    ' ' <= c <= '~'
  }

  function HexDigit(d: nat): (c: char)
    requires d < 16
    ensures IsPrintableAscii(c)
  {
    if d < 10 then (d + '0' as int) as char else (d - 10 + 'a' as int) as char
  }

  /** The four lower-case hex digits Python writes after `\u`. */
  function Hex4(n: nat): (r: string)
    requires n < 0x10000
    ensures |r| == 4 && forall k :: 0 <= k < 4 ==> IsPrintableAscii(r[k])
  {
    var q1 := n / 16;
    var q2 := q1 / 16;
    [HexDigit(q2 / 16), HexDigit(q2 % 16), HexDigit(q1 % 16), HexDigit(n % 16)]
  }

  /** The value of one hex digit, if `c` is one. */
  function HexValue(c: char): Option<nat> {
    if '0' <= c <= '9' then Some(c as int - '0' as int)
    else if 'a' <= c <= 'f' then Some(c as int - 'a' as int + 10)
    else if 'A' <= c <= 'F' then Some(c as int - 'A' as int + 10)
    else None
  }

  /** The value of four hex digits. */
  function Hex4Value(s: string): (r: Option<nat>)
    requires |s| == 4
    ensures r.Some? ==> r.value < 0x10000
  {
    match (HexValue(s[0]), HexValue(s[1]), HexValue(s[2]), HexValue(s[3]))
    case (Some(a), Some(b), Some(c), Some(d)) =>
      if a < 16 && b < 16 && c < 16 && d < 16 then Some(((a * 16 + b) * 16 + c) * 16 + d) else None
    case _ => None
  }

  lemma HexDigitValue(d: nat)
    requires d < 16
    ensures HexValue(HexDigit(d)) == Some(d)
  {
  }

  lemma Hex4RoundTrip(n: nat)
    requires n < 0x10000
    ensures Hex4Value(Hex4(n)) == Some(n)
  {
    var q1 := n / 16;
    var q2 := q1 / 16;
    HexDigitValue(q2 / 16);
    HexDigitValue(q2 % 16);
    HexDigitValue(q1 % 16);
    HexDigitValue(n % 16);
  }

  /** How `json.dumps` writes one character inside a string literal. */
  function EscapeChar(c: char): string {
    if c == '"' then "\\\""
    else if c == '\\' then "\\\\"
    else if c == '\n' then "\\n"
    else if c == '\r' then "\\r"
    else if c == '\t' then "\\t"
    else if c == '\U{8}' then "\\b"
    else if c == '\U{c}' then "\\f"
    else if IsPrintableAscii(c) then [c]
    else if c as int < 0x10000 then "\\u" + Hex4(c as int)
    else
      var n := c as int - 0x10000;
      "\\u" + Hex4(0xD800 + n / 0x400) + "\\u" + Hex4(0xDC00 + n % 0x400)
  }

  /** The escaped body of a JSON string literal. */
  function Escape(s: string): string
    decreases |s|
  {
    if s == [] then "" else EscapeChar(s[0]) + Escape(s[1..])
  }

  /** `json.dumps(s)` for a string. */
  function Quote(s: string): string {
    "\"" + Escape(s) + "\""
  }

  /** `json.dumps({"detail": d})` for a string or `None`. */
  function DetailJson(d: Option<string>): string {
    "{\"detail\": " + (match d case None => "null" case Some(s) => Quote(s)) + "}"
  }

  /** The shape of the detail document for a message: the escaped message between quotes. */
  lemma DetailJsonShape(s: string)
    ensures DetailJson(Some(s)) == "{\"detail\": \"" + Escape(s) + "\"}"
    ensures DetailJson(None) == "{\"detail\": null}"
  {
  }

  predicate AllPrintableAscii(s: string) {
    forall k :: 0 <= k < |s| ==> IsPrintableAscii(s[k])
  }

  lemma EscapeCharPrintable(c: char)
    ensures AllPrintableAscii(EscapeChar(c))
  {
  }

  /** With `ensure_ascii`, the output is printable ASCII whatever the input. */
  lemma {:induction false} EscapePrintable(s: string)
    ensures AllPrintableAscii(Escape(s))
    decreases |s|
  {
    if s != [] {
      EscapeCharPrintable(s[0]);
      EscapePrintable(s[1..]);
    }
  }

  lemma DetailJsonPrintable(d: Option<string>)
    ensures AllPrintableAscii(DetailJson(d))
    ensures |DetailJson(d)| > 0 && DetailJson(d)[|DetailJson(d)| - 1] == '}'
  {
    if d.Some? {
      EscapePrintable(d.value);
    }
  }

  /** A JSON decoder for the body of a string literal (the inverse of `Escape`). */
  function Unescape(s: string): Option<string>
    decreases |s|
  {
    if s == [] then Some([])
    else if s[0] != '\\' then Prepend(s[0], Unescape(s[1..]))
    else if |s| < 2 then None
    else if s[1] == 'u' then UnescapeUnit(s)
    else
      var c := SimpleEscape(s[1]);
      if c.None? then None else Prepend(c.value, Unescape(s[2..]))
  }

  function Prepend(c: char, r: Option<string>): Option<string> {
    if r.Some? then Some([c] + r.value) else None
  }

  /** The character a two-character escape `\x` stands for. */
  function SimpleEscape(x: char): Option<char> {
    if x == '"' then Some('"')
    else if x == '\\' then Some('\\')
    else if x == '/' then Some('/')
    else if x == 'n' then Some('\n')
    else if x == 'r' then Some('\r')
    else if x == 't' then Some('\t')
    else if x == 'b' then Some('\U{8}')
    else if x == 'f' then Some('\U{c}')
    else None
  }

  /** A `\uXXXX` escape, or a surrogate pair of two of them. */
  function UnescapeUnit(s: string): Option<string>
    requires |s| >= 2 && s[0] == '\\' && s[1] == 'u'
    decreases |s|, 0
  {
    if |s| < 6 then None
    else
      var hi := Hex4Value(s[2..6]);
      if hi.None? then None
      else if hi.value < 0xD800 || 0xE000 <= hi.value then
        Prepend(hi.value as char, Unescape(s[6..]))
      else if hi.value >= 0xDC00 || |s| < 12 || s[6..8] != "\\u" then None
      else
        var lo := Hex4Value(s[8..12]);
        if lo.None? || lo.value < 0xDC00 || 0xE000 <= lo.value then None
        else Prepend((0x10000 + (hi.value - 0xD800) * 0x400 + (lo.value - 0xDC00)) as char, Unescape(s[12..]))
  }

  lemma SurrogatePair(c: char)
    requires c as int >= 0x10000
    ensures var n := c as int - 0x10000;
            0xD800 <= 0xD800 + n / 0x400 < 0xDC00 && 0xDC00 <= 0xDC00 + n % 0x400 < 0xE000
            && 0x10000 + (n / 0x400) * 0x400 + n % 0x400 == c as int
  {
  }

  /** Decoding one escaped character followed by more text. */
  lemma UnescapeChar(c: char, t: string)
    ensures Unescape(EscapeChar(c) + t) == Prepend(c, Unescape(t))
  {
    if c == '"' || c == '\\' || c == '\n' || c == '\r' || c == '\t' || c == '\U{8}' || c == '\U{c}' {
      UnescapeShort(c, t);
    } else if IsPrintableAscii(c) {
      assert (EscapeChar(c) + t)[1..] == t;
    } else if c as int < 0x10000 {
      UnescapeBmp(c, t);
    } else {
      UnescapeAstral(c, t);
    }
  }

  lemma UnescapeShort(c: char, t: string)
    requires c == '"' || c == '\\' || c == '\n' || c == '\r' || c == '\t' || c == '\U{8}' || c == '\U{c}'
    ensures Unescape(EscapeChar(c) + t) == Prepend(c, Unescape(t))
  {
    var s := EscapeChar(c) + t;
    assert s[0] == '\\' && s[1] != 'u' && SimpleEscape(s[1]) == Some(c);
    assert s[2..] == t;
  }

  lemma UnescapeBmp(c: char, t: string)
    requires !IsPrintableAscii(c) && c as int < 0x10000
    requires c != '"' && c != '\\' && c != '\n' && c != '\r' && c != '\t' && c != '\U{8}' && c != '\U{c}'
    ensures Unescape(EscapeChar(c) + t) == Prepend(c, Unescape(t))
  {
    var h := Hex4(c as int);
    var s := "\\u" + h + t;
    assert EscapeChar(c) + t == s;
    Hex4RoundTrip(c as int);
    assert s[2..6] == h;
    assert s[6..] == t;
  }

  lemma UnescapeAstral(c: char, t: string)
    requires c as int >= 0x10000
    ensures Unescape(EscapeChar(c) + t) == Prepend(c, Unescape(t))
  {
    var n := c as int - 0x10000;
    var hi, lo := 0xD800 + n / 0x400, 0xDC00 + n % 0x400;
    SurrogatePair(c);
    Hex4RoundTrip(hi);
    Hex4RoundTrip(lo);
    EscapeAstral(c);
    UnescapePair(Hex4(hi), Hex4(lo), t, hi, lo, c);
  }

  lemma EscapeAstral(c: char)
    requires c as int >= 0x10000
    ensures var n := c as int - 0x10000;
            EscapeChar(c) == "\\u" + Hex4(0xD800 + n / 0x400) + "\\u" + Hex4(0xDC00 + n % 0x400)
  {
  }

  /** Decoding a surrogate pair `\uHHHH\uLLLL` followed by more text. */
  lemma UnescapePair(h: string, l: string, t: string, hi: nat, lo: nat, c: char)
    requires |h| == 4 && |l| == 4 && Hex4Value(h) == Some(hi) && Hex4Value(l) == Some(lo)
    requires 0xD800 <= hi < 0xDC00 && 0xDC00 <= lo < 0xE000
    requires 0x10000 + (hi - 0xD800) * 0x400 + (lo - 0xDC00) == c as int
    ensures Unescape("\\u" + h + "\\u" + l + t) == Prepend(c, Unescape(t))
  {
    var s := "\\u" + h + "\\u" + l + t;
    assert s[2..6] == h;
    assert s[6..8] == "\\u";
    assert s[8..12] == l;
    assert s[12..] == t;
  }

  /** Decoding what `json.dumps` escaped gives back the original string. */
  lemma {:induction false} UnescapeEscape(s: string)
    ensures Unescape(Escape(s)) == Some(s)
    decreases |s|
  {
    if s != [] {
      UnescapeEscape(s[1..]);
      UnescapeChar(s[0], Escape(s[1..]));
      assert [s[0]] + s[1..] == s;
    }
  }
}
