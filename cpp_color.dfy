/** The colour of the newer firmware (cpp/photon/src/Color.h): the accepted hex text and its three
    bytes, replaced together only when a whole six-character text reads correctly. */
module CppColor {
  import opened Wrappers
  import opened Bytes
  import opened HexColor

  class Color {
    var hex: string
    var red: Byte
    var green: Byte
    var blue: Byte

    /** `Color(hex = "000000")`: black, then `setHex(hex)`. */
    constructor (hex: string)
      ensures ParseHex(hex).Some? && |hex| == 6 ==>
                GetHex() == hex && Rgb(Red(), Green(), Blue()) == ParseHex(hex).value
      ensures !(ParseHex(hex).Some? && |hex| == 6) ==>
                GetHex() == "000000" && Red() == 0 && Green() == 0 && Blue() == 0
    {
      this.hex := "000000";
      red, green, blue := 0, 0, 0;
      new;
      var _ := SetHex(hex);
    }

    function GetHex(): string
      reads this
    {
      hex
    }

    function Red(): Byte
      reads this
    {
      red
    }

    function Green(): Byte
      reads this
    {
      green
    }

    function Blue(): Byte
      reads this
    {
      blue
    }

    /** `setHex(hex)`: a text of any length but 6, or with a pair that is refused, changes
        nothing; otherwise the text and its three bytes are stored. */
    method SetHex(hex: string) returns (ok: bool)
      modifies this
      ensures ok <==> |hex| == 6 && ParseHex(hex).Some?
      ensures ok ==> GetHex() == hex && Rgb(Red(), Green(), Blue()) == ParseHex(hex).value
      ensures !ok ==> GetHex() == old(GetHex()) && Red() == old(Red()) && Green() == old(Green()) && Blue() == old(Blue())
    {
      if |hex| != 6 {
        return false;
      }
      var colors := ReadPairs(hex);
      if colors.None? {
        return false;
      }
      this.hex := hex;
      red, green, blue := colors.value.red, colors.value.green, colors.value.blue;
      return true;
    }
  }

  /** A default colour is black with hex `"000000"`, and any colour written as six digits is
      accepted back with exactly its bytes. */
  lemma SetHexAcceptsHexText(c: Rgb)
    ensures ParseHex("000000") == Some(Rgb(0, 0, 0))
    ensures |HexText(c)| == 6 && ParseHex(HexText(c)) == Some(c)
  {
    assert HexText(Rgb(0, 0, 0)) == "000000";
    ParseHexText(Rgb(0, 0, 0));
    ParseHexText(c);
  }
}
