/** The newer firmware's patterns (photon/src/Patterns.h): a pattern keeps references to the
    ring, the colour (cpp/photon/src/Color.h, whose accessors it calls) and the animation
    timeline. The six subclasses are one class here, told apart by their kind. */
module Patterns {
  import opened Bytes
  import opened Ring
  import opened CppColor
  import opened Timelines
  import RingPatterns

  class Pattern {
    const kind: RingPatterns.Kind
    const name: string
    const color: Color
    const device: InternetButton
    const timeline: Timeline

    /** The constructor of the subclass for `kind`, which fixes the name. */
    constructor (kind: RingPatterns.Kind, device: InternetButton, color: Color, timeline: Timeline)
      ensures this.kind == kind && this.device == device && this.color == color && this.timeline == timeline
      ensures GetName() == RingPatterns.Name(kind)
    {
      this.kind := kind;
      this.name := RingPatterns.Name(kind);
      this.color := color;
      this.device := device;
      this.timeline := timeline;
    }

    function GetName(): string {
      name
    }

    method Start()
      requires device.Valid()
      modifies device, device.leds
      ensures forall i :: 0 <= i < RingLedCount ==> device.leds[i] == Off
      ensures device.brightness == 255
      ensures device.log == old(device.log) + [AllLedsOff, SetBrightness(255)]
    {
      RingPatterns.Start(device);
    }

    /** `update()`, with the eased phase, the spin's tail index and the eased brightness that the
        source computes from `timeline.progress()` given as inputs. */
    method Update(phase: int, tail: Byte, brightness: Byte)
      requires device.Valid()
      requires kind == RingPatterns.Spin ==> tail <= 244
      modifies device, device.leds
      ensures forall i :: 0 <= i < RingLedCount ==>
                device.leds[i] == RingPatterns.Frame(kind, phase, tail, color.Red(), color.Green(), color.Blue(), i)
      ensures device.brightness ==
                if kind == RingPatterns.Flash || kind == RingPatterns.Pulse then brightness else old(device.brightness)
      ensures device.log ==
                old(device.log) + RingPatterns.UpdateOps(kind, phase, tail, brightness, color.Red(), color.Green(), color.Blue())
    {
      RingPatterns.Update(device, kind, phase, tail, brightness, color.Red(), color.Green(), color.Blue());
    }
  }
}
