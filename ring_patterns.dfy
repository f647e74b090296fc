/** The light patterns both firmware generations draw on the ring (photon/src/Patterns.h and
    photon/src/DisplayMode.h have the same six): what each update leaves on the LEDs and which
    device calls it makes. The eased values the source computes in floating point are inputs:
    `phase` is `easeBinary(progress)`, `tail` is `round(11 * progress)` and `brightness` is
    `round(255 * ease(progress))`. */
module RingPatterns {
  import opened Bytes
  import opened Ring

  datatype Kind = Solid | Blink | Flash | Pulse | Spin | Alternate

  /** The name each pattern reports. */
  function Name(kind: Kind): string {
    match kind
    case Solid => "solid"
    case Blink => "blink"
    case Flash => "flash"
    case Pulse => "pulse"
    case Spin => "spin"
    case Alternate => "alternate"
  }

  /** The names tell the patterns apart. */
  lemma NamesDistinct(k1: Kind, k2: Kind)
    ensures Name(k1) == Name(k2) <==> k1 == k2
  {
  }

  /** `round(RING_LED_COUNT * 2 / 3.0)`, the length of the spinning arc. */
  const ArcLedCount: int := 7

  /** The LED the `k`-th step of a spin starting at `tail` writes. */
  function SpinLedNumber(tail: int, k: int): int {
    (tail + k) % RingLedCount + 1
  }

  /** Whether the spin starting at `tail` lights the LED at position `i` (LED number `i + 1`). */
  predicate SpinLit(tail: int, i: int) {
    (i - tail) % RingLedCount < ArcLedCount
  }

  /** Whether the alternating pattern in `phase` lights the LED at position `i`. */
  predicate AlternateLit(phase: int, i: int) {
    i % 2 == phase
  }

  /** The ring after an update: LED position `i` of the result. */
  function Frame(kind: Kind, phase: int, tail: int, red: Byte, green: Byte, blue: Byte, i: int): Led {
    match kind
    case Solid => On(red, green, blue)
    case Blink => if phase == 1 then On(red, green, blue) else Off
    case Flash => On(red, green, blue)
    case Pulse => On(red, green, blue)
    case Spin => if SpinLit(tail, i) then On(red, green, blue) else Off
    case Alternate => if AlternateLit(phase, i) then On(red, green, blue) else Off
  }

  /** The device calls a spin makes, in order: `count` steps from the tail round the ring. */
  function SpinOps(tail: int, red: Byte, green: Byte, blue: Byte, count: nat): (ops: seq<Op>)
    ensures |ops| == count
  {
    seq(count, k => if k < ArcLedCount then LedOn(SpinLedNumber(tail, k), red, green, blue)
                    else LedOff(SpinLedNumber(tail, k)))
  }

  function AlternateOps(phase: int, red: Byte, green: Byte, blue: Byte, count: nat): (ops: seq<Op>)
    ensures |ops| == count
  {
    seq(count, i => if AlternateLit(phase, i) then LedOn(i + 1, red, green, blue) else LedOff(i + 1))
  }

  /** The device calls one update makes. */
  function UpdateOps(kind: Kind, phase: int, tail: int, brightness: Byte, red: Byte, green: Byte, blue: Byte): seq<Op> {
    match kind
    case Solid => [AllLedsOn(red, green, blue)]
    case Blink => if phase == 1 then [AllLedsOn(red, green, blue)] else [AllLedsOff]
    case Flash => [SetBrightness(brightness), AllLedsOn(red, green, blue)]
    case Pulse => [SetBrightness(brightness), AllLedsOn(red, green, blue)]
    case Spin => SpinOps(tail, red, green, blue, RingLedCount)
    case Alternate => AlternateOps(phase, red, green, blue, RingLedCount)
  }

  /** The number of the LED a call writes, or 0 for calls that write no single LED. */
  function Written(op: Op): int {
    match op
    case LedOn(n, _, _, _) => n
    case LedOff(n) => n
    case _ => 0
  }

  /** A spin lights the seven LEDs `((tail + k) mod 11) + 1` for `k` in 0..6 and no other. */
  lemma SpinLightsArc(tail: int, i: int)
    requires 0 <= i < RingLedCount
    ensures SpinLit(tail, i) <==> exists k :: 0 <= k < ArcLedCount && SpinLedNumber(tail, k) == i + 1
  {
    if SpinLit(tail, i) {
      var k := (i - tail) % RingLedCount;
      SameResidue(tail + k, i);
      assert SpinLedNumber(tail, k) == i + 1;
    }
    if k :| 0 <= k < ArcLedCount && SpinLedNumber(tail, k) == i + 1 {
      SameResidue(i - tail, k);
    }
  }

  /** Two integers that differ by a multiple of 11 leave the same remainder. */
  lemma SameResidue(a: int, b: int)
    requires 0 <= b < RingLedCount
    ensures a % RingLedCount == b <==> (a - b) % RingLedCount == 0
  {
  }

  /** Whether some call in `ops` writes LED number `n`. */
  predicate WritesLed(ops: seq<Op>, n: int) {
    exists k :: 0 <= k < |ops| && Written(ops[k]) == n
  }

  /** The `k`-th call of a spin writes LED number `SpinLedNumber(tail, k)`. */
  lemma SpinStepWrites(tail: int, red: Byte, green: Byte, blue: Byte, k: int)
    requires 0 <= k < RingLedCount
    ensures Written(SpinOps(tail, red, green, blue, RingLedCount)[k]) == SpinLedNumber(tail, k)
  {
  }

  /** Two different steps of one spin write different LEDs. */
  lemma SpinStepsDistinct(tail: int, j: int, k: int)
    requires 0 <= j < k < RingLedCount
    ensures SpinLedNumber(tail, j) != SpinLedNumber(tail, k)
  {
    if SpinLedNumber(tail, j) == SpinLedNumber(tail, k) {
      var b := (tail + j) % RingLedCount;
      SameResidue(tail + k, b);
      SameResidue(tail + j, b);
      DifferenceOfMultiples(tail + k - b, tail + j - b);
      assert false;
    }
  }

  /** A spin writes every LED number from 1 to 11 exactly once. */
  lemma SpinWritesEachLedOnce(tail: int, red: Byte, green: Byte, blue: Byte)
    ensures forall j, k :: 0 <= j < k < RingLedCount ==>
              Written(SpinOps(tail, red, green, blue, RingLedCount)[j]) != Written(SpinOps(tail, red, green, blue, RingLedCount)[k])
    ensures forall n :: 1 <= n <= RingLedCount ==> WritesLed(SpinOps(tail, red, green, blue, RingLedCount), n)
  {
    var ops := SpinOps(tail, red, green, blue, RingLedCount);
    forall j, k | 0 <= j < k < RingLedCount
      ensures Written(ops[j]) != Written(ops[k])
    {
      SpinStepWrites(tail, red, green, blue, j);
      SpinStepWrites(tail, red, green, blue, k);
      SpinStepsDistinct(tail, j, k);
    }
    forall n | 1 <= n <= RingLedCount
      ensures WritesLed(ops, n)
    {
      var k := (n - 1 - tail) % RingLedCount;
      SameResidue(tail + k, n - 1);
      SpinStepWrites(tail, red, green, blue, k);
    }
  }

  lemma DifferenceOfMultiples(x: int, y: int)
    requires x % RingLedCount == 0 && y % RingLedCount == 0
    ensures (x - y) % RingLedCount == 0
  {
    var p, q := x / RingLedCount, y / RingLedCount;
    assert x - y == (p - q) * RingLedCount;
  }

  /** `start()`: every LED off, then full brightness. */
  method Start(device: InternetButton)
    requires device.Valid()
    modifies device, device.leds
    ensures forall i :: 0 <= i < RingLedCount ==> device.leds[i] == Off
    ensures device.brightness == 255
    ensures device.log == old(device.log) + [AllLedsOff, SetBrightness(255)]
  {
    device.AllOff();
    device.SetLevel(255);
  }

  /** `update()` of a pattern of the given kind in the given colour. A spin counts its LED index
      in a `uint8_t`, which would wrap round and never reach `tail + 11` from a tail above 244. */
  method Update(device: InternetButton, kind: Kind, phase: int, tail: Byte, brightness: Byte,
                red: Byte, green: Byte, blue: Byte)
    requires device.Valid()
    requires kind == Spin ==> tail <= 244
    modifies device, device.leds
    ensures forall i :: 0 <= i < RingLedCount ==> device.leds[i] == Frame(kind, phase, tail, red, green, blue, i)
    ensures device.brightness == if kind == Flash || kind == Pulse then brightness else old(device.brightness)
    ensures device.log == old(device.log) + UpdateOps(kind, phase, tail, brightness, red, green, blue)
  {
    match kind
    case Solid =>
      device.AllOn(red, green, blue);
    case Blink =>
      if phase == 1 {
        device.AllOn(red, green, blue);
      } else {
        device.AllOff();
      }
    case Flash =>
      device.SetLevel(brightness);
      device.AllOn(red, green, blue);
    case Pulse =>
      device.SetLevel(brightness);
      device.AllOn(red, green, blue);
    case Spin =>
      SpinRing(device, tail, red, green, blue);
    case Alternate =>
      AlternateRing(device, phase, red, green, blue);
  }

  /** The spin loop: from the tail once round the ring, lighting the first seven LEDs. */
  method SpinRing(device: InternetButton, tail: Byte, red: Byte, green: Byte, blue: Byte)
    requires device.Valid() && tail <= 244
    modifies device, device.leds
    ensures forall i :: 0 <= i < RingLedCount ==>
              device.leds[i] == if SpinLit(tail, i) then On(red, green, blue) else Off
    ensures device.brightness == old(device.brightness)
    ensures device.log == old(device.log) + SpinOps(tail, red, green, blue, RingLedCount)
  {
    var headLedIndex := tail + ArcLedCount;
    var ledIndex := tail;
    while ledIndex < tail + RingLedCount
      invariant tail <= ledIndex <= tail + RingLedCount
      invariant device.Valid() && device.brightness == old(device.brightness)
      invariant device.log == old(device.log) + SpinOps(tail, red, green, blue, ledIndex - tail)
      invariant forall i :: 0 <= i < RingLedCount ==>
                  device.leds[i] == if (i - tail) % RingLedCount < ledIndex - tail
                                    then (if SpinLit(tail, i) then On(red, green, blue) else Off)
                                    else old(device.leds[i])
    {
      var ledNumber := ledIndex % RingLedCount + 1;
      ghost var step := ledIndex - tail;
      assert ledNumber == SpinLedNumber(tail, step);
      assert (ledNumber - 1 - tail) % RingLedCount == step by {
        SameResidue(ledIndex - tail, step);
      }
      if ledIndex >= tail && ledIndex < headLedIndex {
        device.LightLed(ledNumber, red, green, blue);
      } else {
        device.DarkenLed(ledNumber);
      }
      assert SpinOps(tail, red, green, blue, step + 1) == SpinOps(tail, red, green, blue, step) + [SpinOps(tail, red, green, blue, step + 1)[step]];
      ledIndex := ledIndex + 1;
    }
  }

  /** The alternating loop: LED `i + 1` is lit exactly when `i % 2` equals the phase. */
  method AlternateRing(device: InternetButton, phase: int, red: Byte, green: Byte, blue: Byte)
    requires device.Valid()
    modifies device, device.leds
    ensures forall i :: 0 <= i < RingLedCount ==>
              device.leds[i] == if AlternateLit(phase, i) then On(red, green, blue) else Off
    ensures device.brightness == old(device.brightness)
    ensures device.log == old(device.log) + AlternateOps(phase, red, green, blue, RingLedCount)
  {
    var ledIndex := 0;
    while ledIndex < RingLedCount
      invariant 0 <= ledIndex <= RingLedCount
      invariant device.Valid() && device.brightness == old(device.brightness)
      invariant device.log == old(device.log) + AlternateOps(phase, red, green, blue, ledIndex)
      invariant forall i :: 0 <= i < RingLedCount ==>
                  device.leds[i] == if i < ledIndex
                                    then (if AlternateLit(phase, i) then On(red, green, blue) else Off)
                                    else old(device.leds[i])
    {
      var ledNumber := ledIndex + 1;
      if ledIndex % 2 == phase {
        device.LightLed(ledNumber, red, green, blue);
      } else {
        device.DarkenLed(ledNumber);
      }
      assert AlternateOps(phase, red, green, blue, ledIndex + 1) == AlternateOps(phase, red, green, blue, ledIndex) + [AlternateOps(phase, red, green, blue, ledIndex + 1)[ledIndex]];
      ledIndex := ledIndex + 1;
    }
  }
}
