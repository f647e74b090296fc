/** Reading a colour from six hexadecimal characters, the part the two firmware `Color` classes
    share: each pair of characters goes through `strtol`, and a pair that reads as 0 is refused
    unless it is literally `"00"`. */
module HexColor {
  import opened Wrappers
  import opened Strings
  import opened Bytes
  import opened Strtol

  datatype Rgb = Rgb(red: Byte, green: Byte, blue: Byte)

  /** Wiring's `String::substring(left, right)`: the bounds are swapped when reversed, a start at
      or past the end gives the empty string, and the end is cut back to the length. */
  function WiringSubstring(s: string, left: nat, right: nat): (r: string)
    ensures left <= right <= |s| ==> r == s[left..right]
    ensures left <= right && left < |s| < right ==> r == s[left..]
    ensures left <= right && left >= |s| ==> r == []
  {
    var lo, hi := if left > right then right else left, if left > right then left else right;
    if lo >= |s| then [] else s[lo..if hi > |s| then |s| else hi]
  }

  /** The text of pair `i`: `hex.substring(i * 2, i * 2 + 2)`. */
  function PairText(hex: string, i: nat): string {
    WiringSubstring(hex, i * 2, i * 2 + 2)
  }

  /** `(uint8_t) strtol(text, nullptr, 16)`. */
  function ByteOf(text: string): Byte {
    ToUint8(Strtol16(text))
  }

  /** One loop step: the pair's byte, or `None` when it reads as 0 without being `"00"`. */
  function ParsePair(text: string): (r: Option<Byte>)
    ensures r.Some? <==> ByteOf(text) != 0 || text == "00"
    ensures r.Some? ==> r.value == ByteOf(text)
  {
    var b := ByteOf(text);
    if b == 0 && text != "00" then None else Some(b)
  }

  /** The three pairs of `hex`, each accepted, as red, green and blue. */
  function ParseHex(hex: string): (r: Option<Rgb>)
    ensures r.Some? <==> ParsePair(PairText(hex, 0)).Some? && ParsePair(PairText(hex, 1)).Some? &&
                         ParsePair(PairText(hex, 2)).Some?
    ensures r.Some? ==> r.value == Rgb(ParsePair(PairText(hex, 0)).value, ParsePair(PairText(hex, 1)).value,
                                       ParsePair(PairText(hex, 2)).value)
  {
    match (ParsePair(PairText(hex, 0)), ParsePair(PairText(hex, 1)), ParsePair(PairText(hex, 2)))
    case (Some(r), Some(g), Some(b)) => Some(Rgb(r, g, b))
    case _ => None
  }

  /** The loop both `Color` classes run over their local `colors[3]` array: each pair is read
      with `strtol` and the first refused pair ends the loop with failure. */
  method ReadPairs(hex: string) returns (r: Option<Rgb>)
    ensures r == ParseHex(hex)
  {
    var colors := new Byte[3];
    for i := 0 to 3
      invariant forall j :: 0 <= j < i ==> ParsePair(PairText(hex, j)) == Some(colors[j])
    {
      ghost var before := colors[..];
      var byteText := PairText(hex, i);
      colors[i] := ByteOf(byteText);
      if colors[i] == 0 && byteText != "00" {
        assert ParsePair(PairText(hex, i)).None?;
        return None;
      }
      assert forall j :: 0 <= j < i ==> colors[j] == before[j];
    }
    return Some(Rgb(colors[0], colors[1], colors[2]));
  }

  /** A byte as two lower-case hexadecimal digits. */
  function ByteText(b: Byte): (r: string)
    ensures |r| == 2
  {
    [HexDigit(b / 16), HexDigit(b % 16)]
  }

  /** A colour as six lower-case hexadecimal digits. */
  function HexText(c: Rgb): (r: string)
    ensures |r| == 6
  {
    ByteText(c.red) + ByteText(c.green) + ByteText(c.blue)
  }

  /** Every byte survives writing it as two digits and reading it back. */
  lemma ParsePairOfByteText(b: Byte)
    ensures ParsePair(ByteText(b)) == Some(b)
  {
    var hi, lo := b / 16, b % 16;
    var t := ByteText(b);
    HexValueOfDigit(hi);
    HexValueOfDigit(lo);
    assert t == [HexDigit(hi), HexDigit(lo)];
    Strtol16TwoDigits(HexDigit(hi), HexDigit(lo));
    assert Strtol16(t) == hi * 16 + lo == b;
    assert ByteOf(t) == b;
    if b == 0 {
      assert t == "00";
    }
  }

  /** Every colour survives writing it as six digits and reading it back. */
  lemma ParseHexText(c: Rgb)
    ensures ParseHex(HexText(c)) == Some(c)
  {
    var h := HexText(c);
    assert PairText(h, 0) == ByteText(c.red);
    assert PairText(h, 1) == ByteText(c.green);
    assert PairText(h, 2) == ByteText(c.blue);
    ParsePairOfByteText(c.red);
    ParsePairOfByteText(c.green);
    ParsePairOfByteText(c.blue);
  }

  /** Only the first six characters are read. */
  lemma ParseHexIgnoresTail(hex: string)
    requires |hex| >= 6
    ensures ParseHex(hex) == ParseHex(hex[..6])
  {
    assert PairText(hex, 0) == PairText(hex[..6], 0);
    assert PairText(hex, 1) == PairText(hex[..6], 1);
    assert PairText(hex, 2) == PairText(hex[..6], 2);
  }

  /** With four characters or fewer the blue pair is empty, reads as 0 and is refused. */
  lemma ShortTextsRefused(hex: string)
    requires |hex| <= 4
    ensures ParseHex(hex).None?
  {
    assert PairText(hex, 2) == [];
    assert Strtol16([]) == 0;
    assert ParsePair(PairText(hex, 2)).None?;
  }

  /** With five characters the single blue digit is read on its own. */
  lemma FiveCharactersAccepted()
    ensures ParseHex("fffff") == Some(Rgb(255, 255, 15))
  {
    var s := "fffff";
    assert PairText(s, 0) == ['f', 'f'] && PairText(s, 1) == ['f', 'f'] && PairText(s, 2) == ['f'];
    Strtol16TwoDigits('f', 'f');
    Strtol16OneDigit('f');
    assert ParsePair(['f', 'f']) == Some(255);
    assert ParsePair(['f']) == Some(15);
  }
}
