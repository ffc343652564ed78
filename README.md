# Sound-amplitude scan and light indicator of an ESP32 sensor sketch

The firmware runs one polling loop, `loop()` in `src/main.cpp`, which does two things:

- **Sound intensity.** For 50 ms it reads the sound sensor over and over. It keeps a running
  maximum `signalMax`, which starts at 0, and a running minimum `signalMin`, which starts
  at 4095. A reading of 4095, the ADC's full scale, counts as a spike and is skipped. The
  intensity it reports is `peakToPeak = signalMax - signalMin`.
- **Light indicator.** It reads the LDR once and scales the reading to volts, using
  `raw * 3.3 / 4095`. Then it picks one of three bands. Below 1.05 V it lights red. From
  1.15 V up to 2.15 V it lights blue. From 2.2 V up to 3.3 V it lights green. The chosen
  pin goes HIGH and the other two go LOW. If no band matches, no pin is written, so the
  pins keep whatever the previous iteration left on them.

Two modules model these:

- `Amplitude` (`amplitude.dfy`) covers the sound scan. The method `SampleWindow` has the
  same `while` loop and the same nested `if` / `else if` as the firmware. It is proved
  against the fold `Scan` and against two quantified characterisations, one for the final
  maximum and one for the final minimum.
- `Indicator` (`indicator.dfy`) covers the light classifier. `Classify` is a transition
  function that takes the previous pins and a voltage and returns the new pins. `Run`
  folds `Classify` over a sequence of voltages, one per iteration of `loop()`.

Because the minimum is only tested in the `else` of the maximum test, a sample that
raises the running maximum is never compared with the minimum. So the final `signalMin`
is the smallest of 4095 and the non-spike samples that did *not* raise the maximum
(`ScanMin`), not the smallest sample. This has two consequences:

- A window of two or more equal samples below 4095 still reports 0 (`ConstantWindow`),
  because the second sample reaches the minimum test.
- A strictly rising window of samples above 0 reports a negative intensity
  (`RisingWindow`). The shortest case is a single sample. A rising window that starts at
  0, such as [0, 1], is not negative: the 0 does not raise the maximum and so sets the
  minimum.

The sentinels 0 and 4095 (src/main.cpp:59-60) are chosen so that the first kept sample
would move both accumulators. The `else if` at line 67 stops that, so the intensity can
come out negative. The model follows the code, and the difference is recorded under
"Findings".

Voltages are exact reals in the model. Interfaces:

- The 50 ms window of `analogRead` calls becomes a `seq<int>` of samples.
- The LDR reading becomes an `int` or a `real` parameter.
- `digitalWrite` becomes the returned `Pins` value.

## Model

| member | source | states |
|---|---|---|
| `Amplitude.Step` | src/main.cpp:65-67 | A sample of 4095 or more changes nothing. The maximum never falls and the minimum never rises. At most one of them changes. The maximum changes only to a non-spike sample, and the minimum only to a sample no larger than the old maximum. Afterwards every non-spike sample is at most the maximum. |
| `Amplitude.SampleWindow` | src/main.cpp:57-72 | The loop gives the same result as the fold `Scan`. `signalMax` is the largest of 0 and all non-spike samples. `signalMin` is the smallest of 4095 and the non-spike samples that did not raise the running maximum. `peakToPeak` is their difference. |
| `Amplitude.Scan` | src/main.cpp:59-69 | The accumulators after the loop has consumed a window, oldest sample first, starting from the sentinels. The maximum is at least 0 and is either 0 or a sample of the window. The minimum is at most 4095 and is either 4095 or a sample of the window. |
| `Amplitude.ScanMax` | src/main.cpp:59-66 | After any window, the maximum is at least 0, at least every sample below 4095, and is either 0 or one of those samples. |
| `Amplitude.ScanMin` | src/main.cpp:60-67 | After any window, the minimum is at most 4095. It is at most every non-spike sample that did not raise the running maximum, and it is either 4095 or one of those samples. |
| `Amplitude.SpikesIgnored` | src/main.cpp:65 | Removing every full-scale sample from a window leaves both accumulators unchanged. |
| `Amplitude.AllSpikes` | src/main.cpp:58-72 | A window of only 4095s leaves the sentinels 0 and 4095 in place, so the intensity is -4095. |
| `Amplitude.ConstantWindow` | src/main.cpp:59-72 | Two or more equal samples v, with 0 <= v < 4095, give maximum v, minimum v and intensity 0. |
| `Amplitude.RisingWindow` | src/main.cpp:59-72 | A non-empty, strictly rising window of samples strictly between 0 and 4095 leaves the minimum at 4095. The intensity is then the last sample minus 4095, which is negative. |
| `Amplitude.PeakToPeakRange` | src/main.cpp:58-72 | When every sample is in [0, 4095], the maximum is in [0, 4094], the minimum is in [0, 4095] and the intensity is in [-4095, 4094]. |
| `Amplitude.StepIntended` | src/main.cpp:65-67 | In the corrected step, a spike changes nothing. Any other sample ends up between the new minimum and the new maximum. |
| `Amplitude.ScanIntended` | src/main.cpp:59-69 | The corrected scan, with independent maximum and minimum tests. Every sample below 4095 lies between its final minimum and its final maximum. |
| `Amplitude.IntendedScanCorrect` | src/main.cpp:59-72 | The corrected scan yields the true maximum and the true minimum of the non-spike samples. Its intensity is never negative once one sample is below 4095. |
| `Amplitude.RisingPairDisagrees` | src/main.cpp:65-72 | On the window [1, 2] the firmware reports -4093 and the corrected scan reports 1. |
| `Indicator.Voltage` | src/main.cpp:83 | A reading in [0, 4095] maps into [0, 3.3] V. The voltage is 0 exactly at reading 0 and 3.3 exactly at reading 4095. |
| `Indicator.VoltageMonotonic` | src/main.cpp:83 | A larger reading never gives a lower voltage. |
| `Indicator.Lit` | src/main.cpp:84-98 | Every band's pin pattern has exactly one pin HIGH. |
| `Indicator.BandsPartition` | src/main.cpp:84-98 | No voltage is in two bands. A voltage is in a dead zone exactly when it is in no band. |
| `Indicator.Classify` | src/main.cpp:84-98 | Below 1.05 V the pins are red only. In [1.15, 2.15) they are blue only. In [2.2, 3.3) they are green only. In the dead zones [1.05, 1.15), [2.15, 2.2) and from 3.3 up, all three pins keep their previous values. The result either has exactly one pin HIGH or equals the previous pins. |
| `Indicator.ClassifyIdempotent` | src/main.cpp:84-98 | Applying the classifier twice with the same voltage gives the same pins as applying it once. |
| `Indicator.ClassifyRaw` | src/main.cpp:82-98 | In raw LDR counts: 0..1302 gives red, 1428..2667 gives blue and 2730..4094 gives green. The readings 1303..1427, 2668..2729 and 4095 hold the previous pins. |
| `Indicator.Run` | src/main.cpp:84-98 | The pins after successive calls of `loop()`, one LDR voltage per call. The pins keep their levels between calls. The result has exactly one pin HIGH or equals the starting pins. |
| `Indicator.RunShowsLastBand` | src/main.cpp:84-98 | Over successive iterations the pins show the band of the last voltage that was in a band. If every voltage was in a dead zone, the pins are unchanged. |
| `Indicator.RunKeepsOneHigh` | src/main.cpp:84-98 | Start with exactly one pin HIGH, or see one voltage that is in a band. From then on exactly one pin is HIGH, whatever voltages follow. |

## Left out

- `setup()` (src/main.cpp:11-19) is left out. It only sets pin modes and the serial baud rate.
- The serial output (src/main.cpp:76-79, 100-101) is left out. This includes Arduino's float-to-text formatting.
- The extra sound reading `soundVolt` (src/main.cpp:73) is left out. It is only printed.
- The commented-out classifier (src/main.cpp:22-53) is left out. It is dead code.
- Real time is left out: `millis()`, the 50 ms busy-wait and the unsigned wrap-around of `millis() - startMillis`. The window is the finite sequence of readings taken before the deadline. Which samples fall in it is not modelled.
- The 32-bit width of `int` on the target is not modelled. When every sample is in [0, 4095], the maximum is in [0, 4094], the minimum in [0, 4095] and the intensity in [-4095, 4094] (`PeakToPeakRange`), so no wrap-around can occur.
- `Indicator.Classify` and `Indicator.ClassifyRaw` do not model IEEE single- and double-precision rounding. They work on exact reals. The firmware stores the voltage in a `float` and compares it with `double` constants, so it can disagree with the model at a band edge. At reading 4095 the real voltage is exactly 3.3, which holds the pins. The `float` nearest 3.3 is below the `double` 3.3, so the firmware most likely lights green there. At reading 2730 the real voltage is exactly 2.2. The firmware's result there depends on rounding that is not modelled.

## Findings

| source | as written | input that shows it | evidently intended | confidence | as-written member | corrected member |
|---|---|---|---|---|---|---|
| src/main.cpp:66-67 | The minimum is updated only when the sample did not raise the maximum (`else if`). | The window [1, 2] gives maximum 2, minimum 4095 and a peak-to-peak of -4093. Any single-sample window with a value in (0, 4095) is also negative. | The two tests should be independent, so that the first valid sample moves both sentinels and the intensity is never negative once a sample is below 4095. | not executed | `Amplitude.RisingWindow` | `Amplitude.IntendedScanCorrect` |

The rest of the model, `Amplitude.SampleWindow` included, keeps the as-written behaviour,
because that is what the firmware prints. `Amplitude.StepIntended` and
`Amplitude.ScanIntended` define the corrected scan. Nothing else in the sketch uses the
intensity, which is only printed.
