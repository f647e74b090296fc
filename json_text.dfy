/** JSON string literals as `JSON.stringify` writes them and `JSON.parse` reads them
    (ECMAScript QuoteJSONString and the string grammar of RFC 8259, section 7). */
module JsonText {
  import opened Wrappers
  import opened Strings

  const Quote := '"'
  const Backslash := '\\'
  const Backspace: char := 8 as char
  const FormFeed: char := 12 as char

  /** One character of a string literal: the two-character escapes for backspace, tab, line
      feed, form feed, carriage return, quote and backslash; `\u00xx` with lower-case hex for the
      other control characters; every other character as itself. */
  function EscapeChar(c: char): (r: string)
    ensures |r| >= 1 && (r[0] == Backslash <==> |r| > 1)
    ensures |r| == 1 ==> r[0] == c && c != Quote && c != Backslash && c as int >= 0x20
  {
    if c == Backspace then "\\b"
    else if c == '\t' then "\\t"
    else if c == '\n' then "\\n"
    else if c == FormFeed then "\\f"
    else if c == '\r' then "\\r"
    else if c == Quote then "\\\""
    else if c == Backslash then "\\\\"
    else if c as int < 0x20 then "\\u00" + [HexDigit(c as int / 16), HexDigit(c as int % 16)]
    else [c]
  }

  function Escape(s: string): string {
    if s == [] then [] else EscapeChar(s[0]) + Escape(s[1..])
  }

  /** `JSON.stringify(s)` for a string `s`. */
  function QuoteString(s: string): (r: string)
    ensures |r| >= 2 && r[0] == Quote
  {
    [Quote] + Escape(s) + [Quote]
  }

  /** The value of the four hexadecimal digits `s[i..i+4]`, when they are digits. */
  function HexQuad(s: string, i: nat): (r: Option<nat>)
    requires i + 4 <= |s|
    ensures r.Some? ==> r.value < 0x10000
    ensures r.Some? <==> forall j :: i <= j < i + 4 ==> HexValue(s[j]).Some?
  {
    var h0, h1, h2, h3 := HexValue(s[i]), HexValue(s[i + 1]), HexValue(s[i + 2]), HexValue(s[i + 3]);
    if h0.None? || h1.None? || h2.None? || h3.None? then None
    else Some(((h0.value * 16 + h1.value) * 16 + h2.value) * 16 + h3.value)
  }

  /** The code point a UTF-16 surrogate pair stands for. */
  function PairCodePoint(high: int, low: int): (c: int)
    requires 0xD800 <= high < 0xDC00 && 0xDC00 <= low < 0xE000
    ensures 0x10000 <= c < 0x110000
  {
    0x10000 + (high - 0xD800) * 0x400 + (low - 0xDC00)
  }

  /** The character an escape sequence (after its backslash) stands for, and the text after it.
      A `\uXXXX` escape of a high surrogate followed by one of a low surrogate is one character
      above U+FFFF; a surrogate escape on its own denotes no character. */
  function Unescape(s: string): (r: Option<(char, string)>)
    ensures r.Some? ==> |r.value.1| < |s|
  {
    if s == [] then None
    else if s[0] == Quote then Some((Quote, s[1..]))
    else if s[0] == Backslash then Some((Backslash, s[1..]))
    else if s[0] == '/' then Some(('/', s[1..]))
    else if s[0] == 'b' then Some((Backspace, s[1..]))
    else if s[0] == 'f' then Some((FormFeed, s[1..]))
    else if s[0] == 'n' then Some(('\n', s[1..]))
    else if s[0] == 'r' then Some(('\r', s[1..]))
    else if s[0] == 't' then Some(('\t', s[1..]))
    else if s[0] == 'u' && |s| >= 5 then
      match HexQuad(s, 1)
      case None => None
      case Some(v) =>
        if v < 0xD800 || 0xE000 <= v then Some((v as char, s[5..]))
        else if v < 0xDC00 && |s| >= 11 && s[5] == Backslash && s[6] == 'u' then
          var w := HexQuad(s, 7);
          if w.Some? && 0xDC00 <= w.value < 0xE000 then
            Some((PairCodePoint(v, w.value) as char, s[11..]))
          else None
        else None
    else None
  }

  /** Four lower-case hexadecimal digits of `v`, most significant first. */
  function QuadText(v: nat): (r: string)
    requires v < 0x10000
    ensures |r| == 4
  {
    [HexDigit(v / 0x1000), HexDigit(v / 0x100 % 16), HexDigit(v / 16 % 16), HexDigit(v % 16)]
  }

  /** A `\u` escape (after its backslash) for `c`: one escape below U+10000, the escapes of its
      UTF-16 surrogate pair above. */
  function UnicodeEscape(c: char): string {
    if c as int < 0x10000 then "u" + QuadText(c as int)
    else
      var u := c as int - 0x10000;
      "u" + QuadText(0xD800 + u / 0x400) + [Backslash] + "u" + QuadText(0xDC00 + u % 0x400)
  }

  lemma HexQuadOfText(s: string, i: nat, v: nat)
    requires v < 0x10000 && i + 4 <= |s| && s[i..i + 4] == QuadText(v)
    ensures HexQuad(s, i) == Some(v)
  {
    var t := QuadText(v);
    assert s[i] == t[0] && s[i + 1] == t[1] && s[i + 2] == t[2] && s[i + 3] == t[3];
    HexValueOfDigit(v / 0x1000);
    HexValueOfDigit(v / 0x100 % 16);
    HexValueOfDigit(v / 16 % 16);
    HexValueOfDigit(v % 16);
    DigitsOfQuad(v);
  }

  lemma DigitsOfQuad(v: nat)
    requires v < 0x10000
    ensures ((v / 0x1000 * 16 + v / 0x100 % 16) * 16 + v / 16 % 16) * 16 + v % 16 == v
  {
    assert v / 0x100 == v / 0x1000 * 16 + v / 0x100 % 16;
    assert v / 16 == v / 0x100 * 16 + v / 16 % 16;
  }

  /** `JSON.parse` reads every character back from its `\u` escape, including one above U+FFFF
      written as a surrogate pair. */
  lemma UnescapeUnicode(c: char, rest: string)
    ensures Unescape(UnicodeEscape(c) + rest) == Some((c, rest))
  {
    if c as int < 0x10000 {
      var s := UnicodeEscape(c) + rest;
      HexQuadOfText(s, 1, c as int);
      assert s[5..] == rest;
    } else {
      UnescapePair(c, rest);
    }
  }

  lemma UnescapePair(c: char, rest: string)
    requires c as int >= 0x10000
    ensures Unescape(UnicodeEscape(c) + rest) == Some((c, rest))
  {
    var u := c as int - 0x10000;
    var high, low := 0xD800 + u / 0x400, 0xDC00 + u % 0x400;
    var s := UnicodeEscape(c) + rest;
    assert s == "u" + QuadText(high) + [Backslash] + "u" + QuadText(low) + rest;
    HexQuadOfText(s, 1, high);
    HexQuadOfText(s, 7, low);
    assert s[5] == Backslash && s[6] == 'u';
    assert PairCodePoint(high, low) == c as int;
    assert s[11..] == rest;
  }

  /** The body of a string literal up to and including its closing quote: the characters it
      denotes and the text after the quote. Raw control characters are not allowed. */
  function ParseChars(s: string): (r: Option<(string, string)>)
    ensures r.Some? ==> |r.value.1| < |s|
    decreases |s|
  {
    if s == [] then None
    else if s[0] == Quote then Some(([], s[1..]))
    else if s[0] as int < 0x20 then None
    else
      var next := if s[0] == Backslash then Unescape(s[1..]) else Some((s[0], s[1..]));
      match next
      case None => None
      case Some((c, rest)) =>
        match ParseChars(rest)
        case None => None
        case Some((t, after)) => Some(([c] + t, after))
  }

  /** A string literal at the front of `s`. */
  function ParseString(s: string): Option<(string, string)> {
    if s != [] && s[0] == Quote then ParseChars(s[1..]) else None
  }

  lemma UnescapeControl(c: char, rest: string)
    requires c as int < 0x20
    ensures Unescape("u00" + [HexDigit(c as int / 16), HexDigit(c as int % 16)] + rest) == Some((c, rest))
  {
    var s := "u00" + [HexDigit(c as int / 16), HexDigit(c as int % 16)] + rest;
    assert HexValue(s[3]) == Some(c as int / 16) && HexValue(s[4]) == Some(c as int % 16);
    assert s[5..] == rest;
  }

  lemma ParseEscapedChar(c: char, rest: string)
    ensures ParseChars(EscapeChar(c) + rest) == match ParseChars(rest)
      case None => None
      case Some((t, after)) => Some(([c] + t, after))
  {
    var e := EscapeChar(c);
    var s := e + rest;
    if |e| > 1 {
      assert s[1..] == e[1..] + rest;
      if c as int < 0x20 && c != Backspace && c != '\t' && c != '\n' && c != FormFeed && c != '\r' {
        UnescapeControl(c, rest);
        assert e[1..] == "u00" + [HexDigit(c as int / 16), HexDigit(c as int % 16)];
      }
    } else {
      assert s[1..] == rest;
    }
  }

  /** Reading back what was written gives the string and leaves the text after it. */
  lemma {:induction false} ParseQuoted(s: string, rest: string)
    ensures ParseChars(Escape(s) + [Quote] + rest) == Some((s, rest))
  {
    if s == [] {
      assert Escape(s) + [Quote] + rest == [Quote] + rest;
    } else {
      assert Escape(s) + [Quote] + rest == EscapeChar(s[0]) + (Escape(s[1..]) + [Quote] + rest);
      ParseEscapedChar(s[0], Escape(s[1..]) + [Quote] + rest);
      ParseQuoted(s[1..], rest);
      assert [s[0]] + s[1..] == s;
    }
  }

  lemma ParseQuoteString(s: string, rest: string)
    ensures ParseString(QuoteString(s) + rest) == Some((s, rest))
  {
    assert (QuoteString(s) + rest)[1..] == Escape(s) + [Quote] + rest;
    ParseQuoted(s, rest);
  }

  /** Escaping never turns an ASCII string into one with non-ASCII characters. */
  lemma {:induction false} EscapeAscii(s: string)
    requires forall i :: 0 <= i < |s| ==> s[i] as int < 0x80
    ensures forall i :: 0 <= i < |Escape(s)| ==> Escape(s)[i] as int < 0x80
  {
    if s != [] {
      EscapeAscii(s[1..]);
      var e := EscapeChar(s[0]);
      forall i | 0 <= i < |Escape(s)| ensures Escape(s)[i] as int < 0x80 {
        if i >= |e| {
          assert Escape(s)[i] == Escape(s[1..])[i - |e|];
        }
      }
    }
  }
}
