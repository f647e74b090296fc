/** The C library's `strtol(text, nullptr, 16)` and the conversion of its `long` result to
    `uint8_t`, as the colour parsers use them (section 7.22.1.4 of ISO/IEC 9899:2011). */
module Strtol {
  import opened Wrappers
  import opened Strings
  import opened Bytes

  /** `long` is 32 bits wide on the Photon's ARM Cortex-M3. */
  const LongMax: int := 0x7FFF_FFFF
  const LongMin: int := -0x8000_0000

  /** `isspace` in the "C" locale. */
  predicate IsSpace(c: char) {
    c == ' ' || 9 <= c as int <= 13
  }

  predicate IsHexDigit(c: char) {
    HexValue(c).Some?
  }

  /** The text after the leading white space. */
  function SkipSpaces(s: string): (r: string)
    ensures |r| <= |s|
    ensures r == [] || !IsSpace(r[0])
  {
    if s != [] && IsSpace(s[0]) then SkipSpaces(s[1..]) else s
  }

  /** What `SkipSpaces` leaves is a suffix of its input, and everything before it is white space. */
  lemma {:induction false} SkipSpacesSuffix(s: string)
    ensures SkipSpaces(s) == s[|s| - |SkipSpaces(s)|..]
    ensures forall i :: 0 <= i < |s| - |SkipSpaces(s)| ==> IsSpace(s[i])
  {
    if s != [] && IsSpace(s[0]) {
      SkipSpacesSuffix(s[1..]);
      assert s[1..][|s| - 1 - |SkipSpaces(s)|..] == s[|s| - |SkipSpaces(s)|..];
      forall i | 0 <= i < |s| - |SkipSpaces(s)|
        ensures IsSpace(s[i])
      {
        if i > 0 {
          assert s[i] == s[1..][i - 1];
        }
      }
    }
  }

  /** The number of hexadecimal digits `s` starts with. */
  function HexRun(s: string): (n: nat)
    ensures n <= |s|
    ensures forall i :: 0 <= i < n ==> IsHexDigit(s[i])
    ensures n < |s| ==> !IsHexDigit(s[n])
  {
    if s != [] && IsHexDigit(s[0]) then 1 + HexRun(s[1..]) else 0
  }

  /** The value of a string of hexadecimal digits, most significant first. */
  function HexNumber(digits: string): nat
    requires forall i :: 0 <= i < |digits| ==> IsHexDigit(digits[i])
  {
    if digits == [] then 0
    else
      assert IsHexDigit(digits[|digits| - 1]);
      HexNumber(digits[..|digits| - 1]) * 16 + HexValue(digits[|digits| - 1]).value
  }

  /** `strtol(text, nullptr, 16)`: white space, an optional sign, an optional `0x`/`0X` prefix
      (taken only when a digit follows it) and the longest run of hexadecimal digits. No digits
      give 0; a value out of range is clamped to `LONG_MIN`/`LONG_MAX`. */
  function Strtol16(text: string): (r: int)
    ensures LongMin <= r <= LongMax
  {
    var t := SkipSpaces(text);
    var negative := t != [] && t[0] == '-';
    var unsigned := if t != [] && (t[0] == '-' || t[0] == '+') then t[1..] else t;
    var digits := if |unsigned| >= 3 && unsigned[0] == '0' && (unsigned[1] == 'x' || unsigned[1] == 'X') &&
                      IsHexDigit(unsigned[2])
                  then unsigned[2..] else unsigned;
    var n: int := HexNumber(digits[..HexRun(digits)]);
    if negative then (if -n < LongMin then LongMin else -n)
    else (if n > LongMax then LongMax else n)
  }

  /** Conversion to `uint8_t`: the value modulo 256 (section 6.3.1.3 of ISO/IEC 9899:2011). */
  function ToUint8(x: int): (b: Byte)
    ensures (x - b) % 256 == 0
    ensures 0 <= x < 256 ==> b == x
  {
    assert x == (x / 256) * 256 + x % 256;
    x % 256
  }

  /** Two hexadecimal digits read as the byte they spell. */
  lemma Strtol16TwoDigits(hi: char, lo: char)
    requires IsHexDigit(hi) && IsHexDigit(lo)
    ensures Strtol16([hi, lo]) == HexValue(hi).value * 16 + HexValue(lo).value
  {
    var s := [hi, lo];
    assert !IsSpace(hi);
    assert SkipSpaces(s) == s;
    assert HexRun(s) == 2 by {
      assert HexRun(s[1..]) == 1 by { assert s[1..][1..] == []; }
    }
    assert s[..2] == s;
    assert s[..1] == [hi];
    assert HexNumber([hi]) == HexValue(hi).value by { assert [hi][..0] == []; }
  }

  /** A single hexadecimal digit read on its own. */
  lemma Strtol16OneDigit(d: char)
    requires IsHexDigit(d)
    ensures Strtol16([d]) == HexValue(d).value
  {
    var s := [d];
    assert !IsSpace(d);
    assert SkipSpaces(s) == s;
    assert HexRun(s) == 1 by { assert s[1..] == []; }
    assert s[..1] == s;
    assert HexNumber(s) == HexValue(d).value by { assert s[..0] == []; }
  }

  /** A sign is read: `"-1"` is minus one, which becomes 255 as a byte. */
  lemma Strtol16Negative()
    ensures Strtol16("-1") == -1
    ensures ToUint8(Strtol16("-1")) == 255
  {
    var s := "-1";
    assert SkipSpaces(s) == s;
    assert s[1..] == "1";
    assert HexRun("1") == 1 by { assert "1"[1..] == []; }
    assert "1"[..1] == "1";
    assert HexNumber("1") == 1 by { assert "1"[..0] == []; }
  }
}
