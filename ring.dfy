/** The Internet Button's ring of eleven RGB LEDs as the firmware drives it. The device library
    is not part of this model: its five operations are given the effect their names describe on
    an array of LEDs, and every call is also recorded in order. */
module Ring {
  import opened Bytes

  const RingLedCount: int := 11

  datatype Led = Off | On(red: Byte, green: Byte, blue: Byte)

  /** A call made on the device. LED numbers run from 1 to 11. */
  datatype Op =
    | AllLedsOff
    | AllLedsOn(red: Byte, green: Byte, blue: Byte)
    | LedOn(ledNumber: int, red: Byte, green: Byte, blue: Byte)
    | LedOff(ledNumber: int)
    | SetBrightness(brightness: Byte)

  class InternetButton {
    /** `leds[n - 1]` is LED number `n`. */
    const leds: array<Led>
    var brightness: Byte
    var log: seq<Op>

    ghost predicate Valid()
      reads this
    {
      leds.Length == RingLedCount
    }

    constructor ()
      ensures Valid() && fresh(leds) && log == []
      ensures forall i :: 0 <= i < RingLedCount ==> leds[i] == Off
    {
      leds := new Led[RingLedCount](_ => Off);
      brightness := 255;
      log := [];
    }

    method AllOff()
      requires Valid()
      modifies this, leds
      ensures forall i :: 0 <= i < RingLedCount ==> leds[i] == Off
      ensures brightness == old(brightness) && log == old(log) + [AllLedsOff]
    {
      forall i | 0 <= i < leds.Length {
        leds[i] := Off;
      }
      log := log + [AllLedsOff];
    }

    method AllOn(red: Byte, green: Byte, blue: Byte)
      requires Valid()
      modifies this, leds
      ensures forall i :: 0 <= i < RingLedCount ==> leds[i] == On(red, green, blue)
      ensures brightness == old(brightness) && log == old(log) + [AllLedsOn(red, green, blue)]
    {
      forall i | 0 <= i < leds.Length {
        leds[i] := On(red, green, blue);
      }
      log := log + [AllLedsOn(red, green, blue)];
    }

    /** `ledOn(n, r, g, b)`: a number outside 1..11 names no LED. */
    method LightLed(ledNumber: int, red: Byte, green: Byte, blue: Byte)
      requires Valid()
      modifies this, leds
      ensures forall i :: 0 <= i < RingLedCount ==>
                leds[i] == if i == ledNumber - 1 then On(red, green, blue) else old(leds[i])
      ensures brightness == old(brightness) && log == old(log) + [LedOn(ledNumber, red, green, blue)]
    {
      if 1 <= ledNumber <= RingLedCount {
        leds[ledNumber - 1] := On(red, green, blue);
      }
      log := log + [LedOn(ledNumber, red, green, blue)];
    }

    method DarkenLed(ledNumber: int)
      requires Valid()
      modifies this, leds
      ensures forall i :: 0 <= i < RingLedCount ==>
                leds[i] == if i == ledNumber - 1 then Off else old(leds[i])
      ensures brightness == old(brightness) && log == old(log) + [LedOff(ledNumber)]
    {
      if 1 <= ledNumber <= RingLedCount {
        leds[ledNumber - 1] := Off;
      }
      log := log + [LedOff(ledNumber)];
    }

    method SetLevel(brightness: Byte)
      modifies this
      ensures this.brightness == brightness && log == old(log) + [SetBrightness(brightness)]
    {
      this.brightness := brightness;
      log := log + [SetBrightness(brightness)];
    }
  }
}
