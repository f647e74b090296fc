/** The colour of the older firmware (photon/src/Color.h): three public bytes, replaced together
    only when the first three character pairs of a text read correctly. */
module PhotonColor {
  import opened Wrappers
  import opened Bytes
  import opened HexColor

  class Color {
    var blue: Byte
    var green: Byte
    var red: Byte

    /** `Color(red = 0, green = 0, blue = 0)`. */
    constructor (red: Byte, green: Byte, blue: Byte)
      ensures this.red == red && this.green == green && this.blue == blue
    {
      this.blue := blue;
      this.green := green;
      this.red := red;
    }

    /** `fromHex(hex)`: no length check; the pairs are cut with Wiring's clamping `substring`, so
        text past six characters is ignored and a short text leaves short or empty pairs. */
    method FromHex(hex: string) returns (ok: bool)
      modifies this
      ensures ok <==> ParseHex(hex).Some?
      ensures ok ==> Rgb(red, green, blue) == ParseHex(hex).value
      ensures !ok ==> red == old(red) && green == old(green) && blue == old(blue)
    {
      var colors := ReadPairs(hex);
      if colors.None? {
        return false;
      }
      red, green, blue := colors.value.red, colors.value.green, colors.value.blue;
      return true;
    }
  }
}
