/** Base 64 encoding as RFC 4648 defines it: the standard alphabet with `=` padding (section 4),
    Node's `'base64'`, and the URL- and filename-safe alphabet without padding (section 5),
    Node's `'base64url'`. */
module Base64 {
  import opened Wrappers
  import opened Bytes

  datatype Alphabet = Standard | UrlSafe

  /** The character for a six-bit value: A-Z, a-z, 0-9, then `+ /` or `- _`. */
  function CharOf(a: Alphabet, v: nat): (c: char)
    requires v < 64
  {
    if v < 26 then ('A' as int + v) as char
    else if v < 52 then ('a' as int + v - 26) as char
    else if v < 62 then ('0' as int + v - 52) as char
    else if v == 62 then (if a == Standard then '+' else '-')
    else (if a == Standard then '/' else '_')
  }

  /** The six-bit value of a character of the alphabet. */
  function ValueOf(a: Alphabet, c: char): (r: Option<nat>)
    ensures r.Some? ==> r.value < 64 && CharOf(a, r.value) == c
  {
    if 'A' <= c <= 'Z' then Some(c as int - 'A' as int)
    else if 'a' <= c <= 'z' then Some(c as int - 'a' as int + 26)
    else if '0' <= c <= '9' then Some(c as int - '0' as int + 52)
    else if c == (if a == Standard then '+' else '-') then Some(62)
    else if c == (if a == Standard then '/' else '_') then Some(63)
    else None
  }

  lemma ValueOfCharOf(a: Alphabet, v: nat)
    requires v < 64
    ensures ValueOf(a, CharOf(a, v)) == Some(v)
  {
  }

  predicate InAlphabet(a: Alphabet, c: char) {
    ValueOf(a, c).Some?
  }

  const Pad := '='

  /** Three octets as four characters. */
  function Quad(a: Alphabet, x: Byte, y: Byte, z: Byte): string {
    [CharOf(a, x / 4), CharOf(a, (x % 4) * 16 + y / 16), CharOf(a, (y % 16) * 4 + z / 64), CharOf(a, z % 64)]
  }

  /** The final one or two octets: two or three characters, then padding in the standard
      alphabet only. */
  function TailOne(a: Alphabet, x: Byte): string {
    [CharOf(a, x / 4), CharOf(a, (x % 4) * 16)] + (if a == Standard then [Pad, Pad] else [])
  }

  function TailTwo(a: Alphabet, x: Byte, y: Byte): string {
    [CharOf(a, x / 4), CharOf(a, (x % 4) * 16 + y / 16), CharOf(a, (y % 16) * 4)] + (if a == Standard then [Pad] else [])
  }

  function Encode(a: Alphabet, b: seq<Byte>): (s: string)
    decreases |b|
  {
    if |b| >= 3 then Quad(a, b[0], b[1], b[2]) + Encode(a, b[3..])
    else if |b| == 2 then TailTwo(a, b[0], b[1])
    else if |b| == 1 then TailOne(a, b[0])
    else []
  }

  /** Decoding of text in the form `Encode` produces; `None` for anything else. Node's decoder
      is more lenient (it skips characters outside the alphabet and tolerates missing padding). */
  function Decode(a: Alphabet, s: string): (r: Option<seq<Byte>>)
    decreases |s|
  {
    if s == [] then Some([])
    else if |s| < 2 then None
    else
      var v0, v1 := ValueOf(a, s[0]), ValueOf(a, s[1]);
      if v0.None? || v1.None? then None
      else
        var x: Byte := v0.value * 4 + v1.value / 16;
        if (a == Standard && s == s[..2] + [Pad, Pad]) || (a == UrlSafe && |s| == 2) then Some([x])
        else if |s| < 3 then None
        else
          var v2 := ValueOf(a, s[2]);
          if v2.None? then None
          else
            var y: Byte := (v1.value % 16) * 16 + v2.value / 4;
            if (a == Standard && s == s[..3] + [Pad]) || (a == UrlSafe && |s| == 3) then Some([x, y])
            else if |s| < 4 then None
            else
              var v3 := ValueOf(a, s[3]);
              if v3.None? then None
              else
                var z: Byte := (v2.value % 4) * 64 + v3.value;
                match Decode(a, s[4..])
                case None => None
                case Some(rest) => Some([x, y, z] + rest)
  }

  lemma QuadValues(a: Alphabet, x: Byte, y: Byte, z: Byte)
    ensures var q := Quad(a, x, y, z);
      && ValueOf(a, q[0]) == Some(x / 4)
      && ValueOf(a, q[1]) == Some((x % 4) * 16 + y / 16)
      && ValueOf(a, q[2]) == Some((y % 16) * 4 + z / 64)
      && ValueOf(a, q[3]) == Some(z % 64)
      && (x / 4) * 4 + ((x % 4) * 16 + y / 16) / 16 == x
      && (((x % 4) * 16 + y / 16) % 16) * 16 + ((y % 16) * 4 + z / 64) / 4 == y
      && (((y % 16) * 4 + z / 64) % 4) * 64 + z % 64 == z
  {
    ValueOfCharOf(a, x / 4);
    ValueOfCharOf(a, (x % 4) * 16 + y / 16);
    ValueOfCharOf(a, (y % 16) * 4 + z / 64);
    ValueOfCharOf(a, z % 64);
  }

  lemma DecodeTailOne(a: Alphabet, x: Byte)
    ensures Decode(a, TailOne(a, x)) == Some([x])
  {
    ValueOfCharOf(a, x / 4);
    ValueOfCharOf(a, (x % 4) * 16);
    var s := TailOne(a, x);
    assert a == Standard ==> s == s[..2] + [Pad, Pad];
  }

  lemma DecodeTailTwo(a: Alphabet, x: Byte, y: Byte)
    ensures Decode(a, TailTwo(a, x, y)) == Some([x, y])
  {
    ValueOfCharOf(a, x / 4);
    ValueOfCharOf(a, (x % 4) * 16 + y / 16);
    ValueOfCharOf(a, (y % 16) * 4);
    var s := TailTwo(a, x, y);
    assert a == Standard ==> s == s[..3] + [Pad];
    assert s != s[..2] + [Pad, Pad] by { assert s[2] != Pad; }
  }

  /** A full group of four characters decodes to its three octets, ahead of whatever follows. */
  lemma DecodeQuad(a: Alphabet, x: Byte, y: Byte, z: Byte, t: string)
    ensures Decode(a, Quad(a, x, y, z) + t) ==
      match Decode(a, t)
      case None => None
      case Some(rest) => Some([x, y, z] + rest)
  {
    var q := Quad(a, x, y, z);
    var s := q + t;
    QuadValues(a, x, y, z);
    assert s[0] == q[0] && s[1] == q[1] && s[2] == q[2] && s[3] == q[3];
    assert s[4..] == t;
    assert s != s[..2] + [Pad, Pad] by { assert s[2] != Pad; }
    assert s != s[..3] + [Pad] by { assert s[3] != Pad; }
  }

  /** Decoding what was encoded gives back the octets, in either alphabet. */
  lemma {:induction false} DecodeEncode(a: Alphabet, b: seq<Byte>)
    ensures Decode(a, Encode(a, b)) == Some(b)
    decreases |b|
  {
    if |b| >= 3 {
      DecodeQuad(a, b[0], b[1], b[2], Encode(a, b[3..]));
      DecodeEncode(a, b[3..]);
      assert [b[0], b[1], b[2]] + b[3..] == b;
    } else if |b| == 2 {
      DecodeTailTwo(a, b[0], b[1]);
      assert [b[0], b[1]] == b;
    } else if |b| == 1 {
      DecodeTailOne(a, b[0]);
      assert [b[0]] == b;
    }
  }

  function OutputLength(a: Alphabet, n: nat): nat {
    if a == Standard then 4 * ((n + 2) / 3) else (4 * n + 2) / 3
  }

  /** The length of the text: four characters per started group of three octets in the standard
      alphabet; no padding, hence ⌈4n/3⌉ characters, in the URL-safe one. */
  lemma {:induction false} EncodeLength(a: Alphabet, b: seq<Byte>)
    ensures |Encode(a, b)| == OutputLength(a, |b|)
    decreases |b|
  {
    if |b| >= 3 {
      EncodeLength(a, b[3..]);
      var n := |b| - 3;
      assert (n + 3 + 2) / 3 == (n + 2) / 3 + 1;
      assert (4 * (n + 3) + 2) / 3 == (4 * n + 2) / 3 + 4;
    }
  }

  /** URL-safe text uses only `A-Z a-z 0-9 - _`; standard text uses its own alphabet and `=`. */
  lemma {:induction false} EncodeCharacters(a: Alphabet, b: seq<Byte>)
    ensures forall i :: 0 <= i < |Encode(a, b)| ==>
      InAlphabet(a, Encode(a, b)[i]) || (a == Standard && Encode(a, b)[i] == Pad)
    decreases |b|
  {
    var s := Encode(a, b);
    if |b| >= 3 {
      EncodeCharacters(a, b[3..]);
      QuadValues(a, b[0], b[1], b[2]);
      forall i | 0 <= i < |s| ensures InAlphabet(a, s[i]) || (a == Standard && s[i] == Pad) {
        if i >= 4 {
          assert s[i] == Encode(a, b[3..])[i - 4];
        }
      }
    } else if |b| == 2 {
      ValueOfCharOf(a, b[0] / 4);
      ValueOfCharOf(a, (b[0] % 4) * 16 + b[1] / 16);
      ValueOfCharOf(a, (b[1] % 16) * 4);
    } else if |b| == 1 {
      ValueOfCharOf(a, b[0] / 4);
      ValueOfCharOf(a, (b[0] % 4) * 16);
    }
  }

  /** The URL-safe alphabet: text from it can be placed in a path segment unescaped. */
  predicate UrlSafeChar(c: char) {
    'A' <= c <= 'Z' || 'a' <= c <= 'z' || '0' <= c <= '9' || c == '-' || c == '_'
  }

  lemma UrlSafeText(b: seq<Byte>)
    ensures forall i :: 0 <= i < |Encode(UrlSafe, b)| ==> UrlSafeChar(Encode(UrlSafe, b)[i])
  {
    EncodeCharacters(UrlSafe, b);
  }

  /** Standard text is never URL-safe once a value of 62 or 63 occurs: `Encode` of the octet 0xFB
      is `+w==`. */
  lemma StandardIsNotUrlSafe()
    ensures Encode(Standard, [0xFB]) == "+w==" && !UrlSafeChar(Encode(Standard, [0xFB])[0])
  {
  }
}
