/** The older firmware's display modes (photon/src/DisplayMode.h): a mode keeps references to
    the ring and the colour (photon/src/Color.h) and, except for the solid mode, a period length
    from which each update builds a `Period`. The six subclasses are one class here, told apart
    by their kind. */
module DisplayModes {
  import opened Bytes
  import opened Ring
  import opened PhotonColor
  import RingPatterns

  /** `PERIOD_MILLIS`, the default period length. */
  const PeriodMillis: UInt64 := 2000

  class DisplayMode {
    const kind: RingPatterns.Kind
    /** A public, writable field in the source. */
    var name: string
    const color: Color
    const device: InternetButton
    /** Unused by the solid mode, which has no such field. */
    const periodMillis: UInt64

    /** The constructor of the subclass for `kind`, which fixes the initial name. */
    constructor (kind: RingPatterns.Kind, device: InternetButton, color: Color, periodMillis: UInt64)
      ensures this.kind == kind && this.device == device && this.color == color
      ensures this.periodMillis == periodMillis
      ensures name == RingPatterns.Name(kind)
    {
      this.kind := kind;
      this.name := RingPatterns.Name(kind);
      this.color := color;
      this.device := device;
      this.periodMillis := periodMillis;
    }

    method Start()
      requires device.Valid()
      modifies device, device.leds
      ensures forall i :: 0 <= i < RingLedCount ==> device.leds[i] == Off
      ensures device.brightness == 255
      ensures device.log == old(device.log) + [AllLedsOff, SetBrightness(255)]
    {
      RingPatterns.Start(device);
    }

    /** `update()`, with the eased phase, the spin's tail index and the eased brightness that the
        source computes from the period's progress given as inputs. Every mode but the solid one
        builds a `Period`, which divides by the period length. */
    method Update(phase: int, tail: Byte, brightness: Byte)
      requires device.Valid()
      requires kind != RingPatterns.Solid ==> periodMillis > 0
      requires kind == RingPatterns.Spin ==> tail <= 244
      modifies device, device.leds
      ensures forall i :: 0 <= i < RingLedCount ==>
                device.leds[i] == RingPatterns.Frame(kind, phase, tail, color.red, color.green, color.blue, i)
      ensures device.brightness ==
                if kind == RingPatterns.Flash || kind == RingPatterns.Pulse then brightness else old(device.brightness)
      ensures device.log ==
                old(device.log) + RingPatterns.UpdateOps(kind, phase, tail, brightness, color.red, color.green, color.blue)
    {
      RingPatterns.Update(device, kind, phase, tail, brightness, color.red, color.green, color.blue);
    }
  }
}
