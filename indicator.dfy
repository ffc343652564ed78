/** The light indicator of `loop()`: the LDR reading is scaled to volts and
    compared against three bands; the band that matches drives one of the red,
    blue and green pins HIGH and the other two LOW. When no band matches, no
    pin is written and the pins keep the state of the previous iteration, so
    the classifier is a transition over the pin state.

    Voltages are exact reals; the firmware computes the product in double
    precision, stores it in a `float` and compares that with `double` constants. */
module Indicator {

  import Amplitude

  /** The levels last written to the red, blue and green pins. */
  datatype Pins = Pins(red: bool, blue: bool, green: bool)

  /** The three light bands: dark (red), medium (blue), bright (green). */
  datatype Band = Dark | Medium | Bright

  /** The reference voltage that full scale, `Amplitude.AdcMax`, maps to. */
  const VRef: real := 3.3

  /** Band limits, written as the firmware writes them: margins of 0.05 V
      around 1.1 V and below 2.2 V. */
  const DarkBelow: real := 1.1 - 0.05
  const MediumFrom: real := 1.1 + 0.05
  const MediumBelow: real := 2.2 - 0.05
  const BrightFrom: real := 2.2
  const BrightBelow: real := 3.3

  /** `raw * (3.3 / 4095.0)`, over the reals. */
  function Voltage(raw: int): (v: real)
    ensures 0 <= raw <= Amplitude.AdcMax ==> 0.0 <= v <= VRef
    ensures v == 0.0 <==> raw == 0
    ensures v == VRef <==> raw == Amplitude.AdcMax
  {
    raw as real * (VRef / Amplitude.AdcMax as real)
  }

  /** A larger reading never gives a lower voltage. */
  lemma VoltageMonotonic(a: int, b: int)
    requires a <= b
    ensures Voltage(a) <= Voltage(b)
  {
  }

  /** The interval of voltages that selects each band. */
  predicate InBand(b: Band, v: real) {
    match b
    case Dark => v < DarkBelow
    case Medium => MediumFrom <= v < MediumBelow
    case Bright => BrightFrom <= v < BrightBelow
  }

  /** Voltages that select no band: [1.05, 1.15), [2.15, 2.2) and 3.3 upwards. */
  predicate InDeadZone(v: real) {
    (DarkBelow <= v < MediumFrom) || (MediumBelow <= v < BrightFrom) || BrightBelow <= v
  }

  /** The pin pattern that shows a band. */
  function Lit(b: Band): (p: Pins)
    ensures ExactlyOneHigh(p)
  {
    match b
    case Dark => Pins(true, false, false)
    case Medium => Pins(false, true, false)
    case Bright => Pins(false, false, true)
  }

  predicate ExactlyOneHigh(p: Pins) {
    (p.red && !p.blue && !p.green) || (!p.red && p.blue && !p.green) || (!p.red && !p.blue && p.green)
  }

  /** The bands do not overlap, so the order of the `else if` chain does not
      decide which band wins; and a voltage is in a band or in a dead zone,
      never both. */
  lemma BandsPartition(v: real)
    ensures forall b1, b2 :: InBand(b1, v) && InBand(b2, v) ==> b1 == b2
    ensures InDeadZone(v) <==> forall b :: !InBand(b, v)
  {
    assert InBand(Dark, v) || InBand(Medium, v) || InBand(Bright, v) || InDeadZone(v);
  }

  /** One pass over the threshold chain: the first band that matches writes
      its pattern to all three pins; otherwise no pin is written. */
  function Classify(prev: Pins, v: real): (next: Pins)
    ensures forall b :: InBand(b, v) ==> next == Lit(b)
    ensures InDeadZone(v) ==> next == prev
    ensures ExactlyOneHigh(next) || next == prev
  {
    if v < DarkBelow then
      Pins(red := true, blue := false, green := false)
    else if v < MediumBelow && v >= MediumFrom then
      Pins(red := false, blue := true, green := false)
    else if v < BrightBelow && v >= BrightFrom then
      Pins(red := false, blue := false, green := true)
    else
      prev
  }

  /** Classifying the same voltage again changes nothing. */
  lemma ClassifyIdempotent(p: Pins, v: real)
    ensures Classify(Classify(p, v), v) == Classify(p, v)
  {
  }

  /** The classifier in terms of the raw LDR reading: red for 0..1302, hold
      for 1303..1427, blue for 1428..2667, hold for 2668..2729, green for
      2730..4094, hold at 4095. */
  lemma ClassifyRaw(prev: Pins, raw: int)
    requires 0 <= raw <= Amplitude.AdcMax
    ensures Classify(prev, Voltage(raw)) ==
      if raw <= 1302 then Lit(Dark)
      else if raw < 1428 then prev
      else if raw <= 2667 then Lit(Medium)
      else if raw < 2730 then prev
      else if raw < Amplitude.AdcMax then Lit(Bright)
      else prev
  {
    var v := Voltage(raw);
    assert v == raw as real * 11.0 / 13650.0;
    assert v < DarkBelow <==> raw <= 1302;
    assert v >= MediumFrom <==> raw >= 1428;
    assert v < MediumBelow <==> raw <= 2667;
    assert v >= BrightFrom <==> raw >= 2730;
    assert v < BrightBelow <==> raw < Amplitude.AdcMax;
  }

  /** The pin state after successive iterations of `loop()`, one LDR voltage
      per iteration, starting from `p`. */
  function Run(p: Pins, vs: seq<real>): (r: Pins)
    ensures ExactlyOneHigh(r) || r == p
    decreases |vs|
  {
    if vs == [] then p else Run(Classify(p, vs[0]), vs[1..])
  }

  /** Across iterations the pins show the band of the last voltage that was
      in a band; if every voltage fell in a dead zone, the pins are as they
      started. */
  lemma {:induction false} RunShowsLastBand(p: Pins, vs: seq<real>)
    ensures (forall i :: 0 <= i < |vs| ==> InDeadZone(vs[i])) ==> Run(p, vs) == p
    ensures forall k, b ::
      (0 <= k < |vs| && InBand(b, vs[k]) && forall j :: k < j < |vs| ==> InDeadZone(vs[j]))
      ==> Run(p, vs) == Lit(b)
    decreases |vs|
  {
    if vs != [] {
      var q := Classify(p, vs[0]);
      var rest := vs[1..];
      RunShowsLastBand(q, rest);
      forall k, b | 0 <= k < |vs| && InBand(b, vs[k]) &&
        (forall j :: k < j < |vs| ==> InDeadZone(vs[j]))
        ensures Run(p, vs) == Lit(b)
      {
        if k > 0 {
          assert InBand(b, rest[k - 1]);
          assert forall j :: k - 1 < j < |rest| ==> InDeadZone(rest[j]) by {
            forall j | k - 1 < j < |rest| ensures InDeadZone(rest[j]) {
              assert rest[j] == vs[j + 1];
            }
          }
        } else {
          assert q == Lit(b);
          assert forall j :: 0 <= j < |rest| ==> InDeadZone(rest[j]) by {
            forall j | 0 <= j < |rest| ensures InDeadZone(rest[j]) {
              assert rest[j] == vs[j + 1];
            }
          }
        }
      }
      if forall i :: 0 <= i < |vs| ==> InDeadZone(vs[i]) {
        assert InDeadZone(vs[0]);
        assert forall i :: 0 <= i < |rest| ==> InDeadZone(rest[i]) by {
          forall i | 0 <= i < |rest| ensures InDeadZone(rest[i]) {
            assert rest[i] == vs[i + 1];
          }
        }
      }
    }
  }

  /** Once a voltage has fallen in a band, exactly one pin is HIGH from then
      on, whatever the later voltages are. */
  lemma {:induction false} RunKeepsOneHigh(p: Pins, vs: seq<real>)
    requires ExactlyOneHigh(p) || exists i :: 0 <= i < |vs| && !InDeadZone(vs[i])
    ensures ExactlyOneHigh(Run(p, vs))
    decreases |vs|
  {
    if vs != [] {
      var q := Classify(p, vs[0]);
      if !InDeadZone(vs[0]) {
        BandsPartition(vs[0]);
        var b :| InBand(b, vs[0]);
        assert ExactlyOneHigh(q);
      } else {
        assert q == p;
        if !ExactlyOneHigh(p) {
          var i :| 0 <= i < |vs| && !InDeadZone(vs[i]);
          assert i > 0 && !InDeadZone(vs[1..][i - 1]);
        }
      }
      RunKeepsOneHigh(q, vs[1..]);
    }
  }
}
