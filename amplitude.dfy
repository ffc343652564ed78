/** The sound-intensity measurement of `loop()`: a window of 12-bit ADC samples
    is folded into a running maximum and minimum, full-scale readings are
    discarded as spikes, and the peak-to-peak amplitude is their difference.

    The 50 ms busy-wait on `millis()` and the repeated `analogRead` calls are
    replaced by the finite sequence of samples read before the deadline. */
module Amplitude {

  /** Full scale of the 12-bit ADC; a reading of this value is a "spike". */
  const AdcMax: int := 4095

  /** A reading the ADC can return. */
  predicate IsSample(x: int) {
    0 <= x <= AdcMax
  }

  /** The two accumulators of the scan. */
  datatype Window = Window(signalMax: int, signalMin: int)
  {
    /** The reported sound intensity. */
    function PeakToPeak(): int {
      signalMax - signalMin
    }
  }

  /** The accumulators before the first sample: `signalMax = 0`, `signalMin = 4095`. */
  const Initial: Window := Window(0, AdcMax)

  /** One iteration of the scan loop. Because the minimum is only tested in the
      `else` of the maximum test, a sample never moves both accumulators. */
  function Step(w: Window, sample: int): (r: Window)
    ensures sample >= AdcMax ==> r == w
    ensures r.signalMax >= w.signalMax && r.signalMin <= w.signalMin
    ensures r.signalMax == w.signalMax || r.signalMin == w.signalMin
    ensures r.signalMax != w.signalMax ==> r.signalMax == sample && sample < AdcMax
    ensures r.signalMin != w.signalMin ==> r.signalMin == sample && sample <= w.signalMax
    ensures sample < AdcMax && sample <= w.signalMax ==> r.signalMin <= sample
    ensures sample < AdcMax ==> sample <= r.signalMax
  {
    if sample < AdcMax then
      if sample > w.signalMax then Window(sample, w.signalMin)
      else if sample < w.signalMin then Window(w.signalMax, sample)
      else w
    else w
  }

  /** The accumulators after the scan has consumed `s`, oldest sample first. */
  function Scan(s: seq<int>): (r: Window)
    ensures 0 <= r.signalMax && (r.signalMax == 0 || r.signalMax in s)
    ensures r.signalMin <= AdcMax && (r.signalMin == AdcMax || r.signalMin in s)
    decreases |s|
  {
    if s == [] then Initial else Step(Scan(s[..|s| - 1]), s[|s| - 1])
  }

  /** Sample `i` is below full scale and strictly above 0 and every earlier
      non-spike sample: it raises the running maximum, and so, through the
      `else if`, is never compared with the running minimum. */
  ghost predicate RaisesMax(s: seq<int>, i: int)
    requires 0 <= i < |s|
  {
    0 < s[i] < AdcMax && forall j :: 0 <= j < i && s[j] < AdcMax ==> s[j] < s[i]
  }

  /** `m` is the largest of 0 and all non-spike samples of `s`. */
  ghost predicate IsWindowMax(s: seq<int>, m: int) {
    && 0 <= m
    && (forall i :: 0 <= i < |s| && s[i] < AdcMax ==> s[i] <= m)
    && (m == 0 || exists i :: 0 <= i < |s| && s[i] < AdcMax && s[i] == m)
  }

  /** `m` is the smallest of 4095 and the non-spike samples of `s` that did
      not raise the running maximum. */
  ghost predicate IsWindowMin(s: seq<int>, m: int) {
    && m <= AdcMax
    && (forall i :: 0 <= i < |s| && s[i] < AdcMax && !RaisesMax(s, i) ==> m <= s[i])
    && (m == AdcMax || exists i :: 0 <= i < |s| && s[i] < AdcMax && !RaisesMax(s, i) && s[i] == m)
  }

  /** The loop at the heart of the measurement: the sequence stands in for the
      readings taken before the 50 ms deadline. */
  method SampleWindow(samples: seq<int>) returns (signalMax: int, signalMin: int, peakToPeak: int)
    ensures Window(signalMax, signalMin) == Scan(samples)
    ensures IsWindowMax(samples, signalMax)
    ensures IsWindowMin(samples, signalMin)
    ensures peakToPeak == signalMax - signalMin
  {
    signalMax := 0;
    signalMin := AdcMax;
    var i := 0;
    while i < |samples|
      invariant 0 <= i <= |samples|
      invariant Window(signalMax, signalMin) == Scan(samples[..i])
    {
      var sample := samples[i];
      assert samples[..i + 1][..i] == samples[..i];
      if sample < AdcMax {
        if sample > signalMax {
          signalMax := sample;
        } else if sample < signalMin {
          signalMin := sample;
        }
      }
      i := i + 1;
    }
    assert samples[..i] == samples;
    ScanMax(samples);
    ScanMin(samples);
    peakToPeak := signalMax - signalMin;
  }

  /** After the scan, `signalMax` is the maximum of 0 and every sample below 4095. */
  lemma {:induction false} ScanMax(s: seq<int>)
    ensures IsWindowMax(s, Scan(s).signalMax)
    decreases |s|
  {
    if s != [] {
      var n := |s| - 1;
      var p := s[..n];
      ScanMax(p);
      assert forall i :: 0 <= i < n ==> s[i] == p[i];
      var m := Scan(p).signalMax;
      if s[n] < AdcMax && s[n] > m {
        assert s[n] == Scan(s).signalMax;
      } else {
        assert Scan(s).signalMax == m;
        if m != 0 {
          var k :| 0 <= k < |p| && p[k] < AdcMax && p[k] == m;
          assert s[k] == m;
        }
      }
    }
  }

  /** Sample `n` raises the running maximum exactly when it exceeds the
      maximum accumulated over the samples before it. */
  lemma RaisesMaxIff(s: seq<int>, n: int)
    requires 0 <= n < |s| && s[n] < AdcMax
    ensures RaisesMax(s, n) <==> s[n] > Scan(s[..n]).signalMax
  {
    var p := s[..n];
    ScanMax(p);
    assert forall j :: 0 <= j < n ==> s[j] == p[j];
  }

  /** Raising the running maximum at `i` depends only on samples up to `i`. */
  lemma RaisesMaxPrefix(s: seq<int>, n: int, i: int)
    requires 0 <= i < n <= |s|
    ensures RaisesMax(s[..n], i) <==> RaisesMax(s, i)
  {
    assert forall j :: 0 <= j <= i ==> s[..n][j] == s[j];
  }

  /** After the scan, `signalMin` is the minimum of 4095 and the samples below
      4095 that did not raise the running maximum. */
  lemma {:induction false} ScanMin(s: seq<int>)
    ensures IsWindowMin(s, Scan(s).signalMin)
    decreases |s|
  {
    if s != [] {
      var n := |s| - 1;
      var p := s[..n];
      ScanMin(p);
      var mp := Scan(p).signalMin;
      var m := Scan(s).signalMin;
      assert forall i :: 0 <= i < n ==> s[i] == p[i];
      forall i | 0 <= i < n
        ensures RaisesMax(p, i) <==> RaisesMax(s, i)
      {
        RaisesMaxPrefix(s, n, i);
      }
      if s[n] < AdcMax {
        RaisesMaxIff(s, n);
      }
      if m != mp {
        assert m == s[n];
      } else if m != AdcMax {
        var k :| 0 <= k < |p| && p[k] < AdcMax && !RaisesMax(p, k) && p[k] == m;
        assert s[k] == m && !RaisesMax(s, k);
      }
    }
  }

  /** The window with every full-scale reading removed. */
  function WithoutSpikes(s: seq<int>): (r: seq<int>)
    ensures |r| <= |s|
    ensures forall x :: x in r ==> x in s && x < AdcMax
    decreases |s|
  {
    if s == [] then []
    else if s[|s| - 1] < AdcMax then WithoutSpikes(s[..|s| - 1]) + [s[|s| - 1]]
    else WithoutSpikes(s[..|s| - 1])
  }

  /** A full-scale reading never changes either accumulator, wherever it
      occurs: removing every spike from the window leaves the result unchanged. */
  lemma {:induction false} SpikesIgnored(s: seq<int>)
    ensures Scan(WithoutSpikes(s)) == Scan(s)
    decreases |s|
  {
    if s != [] {
      var n := |s| - 1;
      SpikesIgnored(s[..n]);
      if s[n] < AdcMax {
        var r := WithoutSpikes(s[..n]) + [s[n]];
        assert r[..|r| - 1] == WithoutSpikes(s[..n]);
      }
    }
  }

  /** A window made only of spikes leaves both sentinels in place, so the
      reported intensity is 0 - 4095. */
  lemma {:induction false} AllSpikes(s: seq<int>)
    requires forall i :: 0 <= i < |s| ==> s[i] == AdcMax
    ensures Scan(s) == Initial
    ensures Scan(s).PeakToPeak() == -AdcMax
    decreases |s|
  {
    if s != [] {
      AllSpikes(s[..|s| - 1]);
    }
  }

  /** A constant window of at least two samples of a value `v` below 4095:
      the first sample raises the maximum (unless v is 0), the second is then
      compared with the minimum, and the intensity is 0. */
  lemma {:induction false} ConstantWindow(s: seq<int>, v: int)
    requires |s| >= 2 && 0 <= v < AdcMax
    requires forall i :: 0 <= i < |s| ==> s[i] == v
    ensures Scan(s) == Window(v, v)
    ensures Scan(s).PeakToPeak() == 0
    decreases |s|
  {
    var p := s[..|s| - 1];
    assert forall i :: 0 <= i < |p| ==> p[i] == s[i];
    if |s| > 2 {
      ConstantWindow(p, v);
    } else {
      assert p[..0] == [];
      assert Scan(p) == Step(Initial, v);
    }
    assert s[|s| - 1] == v;
  }

  /** Strictly rising window: every sample lies strictly between 0 and 4095
      and exceeds the one before it. Each sample raises the maximum, so none
      reaches the minimum test, the minimum keeps its sentinel and the
      intensity is `last - 4095`, negative. A single-sample window is the
      shortest case. */
  lemma {:induction false} RisingWindow(s: seq<int>)
    requires |s| > 0
    requires forall i :: 0 <= i < |s| ==> 0 < s[i] < AdcMax
    requires forall i :: 0 < i < |s| ==> s[i - 1] < s[i]
    ensures Scan(s) == Window(s[|s| - 1], AdcMax)
    ensures Scan(s).PeakToPeak() == s[|s| - 1] - AdcMax < 0
    decreases |s|
  {
    var p := s[..|s| - 1];
    assert forall i :: 0 <= i < |p| ==> p[i] == s[i];
    if |s| > 1 {
      RisingWindow(p);
    } else {
      assert p == [];
    }
  }

  /** With ADC readings only, both accumulators stay in range and the
      intensity lies between -4095 and 4094. */
  lemma PeakToPeakRange(s: seq<int>)
    requires forall i :: 0 <= i < |s| ==> IsSample(s[i])
    ensures 0 <= Scan(s).signalMax < AdcMax
    ensures 0 <= Scan(s).signalMin <= AdcMax
    ensures -AdcMax <= Scan(s).PeakToPeak() <= AdcMax - 1
  {
    ScanMax(s);
    ScanMin(s);
    var w := Scan(s);
    if w.signalMin != AdcMax {
      var k :| 0 <= k < |s| && s[k] < AdcMax && !RaisesMax(s, k) && s[k] == w.signalMin;
      assert IsSample(s[k]);
    }
  }

  /** The scan as evidently intended: the minimum test is independent of the
      maximum test, so the first non-spike sample moves both sentinels. */
  function StepIntended(w: Window, sample: int): (r: Window)
    ensures sample >= AdcMax ==> r == w
    ensures r.signalMax >= w.signalMax && r.signalMin <= w.signalMin
    ensures sample < AdcMax ==> r.signalMin <= sample <= r.signalMax
  {
    if sample < AdcMax then
      Window(if sample > w.signalMax then sample else w.signalMax,
             if sample < w.signalMin then sample else w.signalMin)
    else w
  }

  function ScanIntended(s: seq<int>): (r: Window)
    ensures 0 <= r.signalMax && r.signalMin <= AdcMax
    ensures forall i :: 0 <= i < |s| && s[i] < AdcMax ==> r.signalMin <= s[i] <= r.signalMax
    decreases |s|
  {
    if s == [] then Initial else StepIntended(ScanIntended(s[..|s| - 1]), s[|s| - 1])
  }

  /** `m` is the smallest of 4095 and all non-spike samples of `s`. */
  ghost predicate IsTrueMin(s: seq<int>, m: int) {
    && m <= AdcMax
    && (forall i :: 0 <= i < |s| && s[i] < AdcMax ==> m <= s[i])
    && (m == AdcMax || exists i :: 0 <= i < |s| && s[i] < AdcMax && s[i] == m)
  }

  /** The corrected scan's maximum is the largest of 0 and the non-spike samples. */
  lemma {:induction false} IntendedScanMax(s: seq<int>)
    ensures IsWindowMax(s, ScanIntended(s).signalMax)
    decreases |s|
  {
    if s != [] {
      var n := |s| - 1;
      var p := s[..n];
      IntendedScanMax(p);
      assert forall i :: 0 <= i < n ==> s[i] == p[i];
      var m, mp := ScanIntended(s).signalMax, ScanIntended(p).signalMax;
      if mp != 0 && m == mp {
        var k :| 0 <= k < |p| && p[k] < AdcMax && p[k] == mp;
        assert s[k] == m;
      }
    }
  }

  /** The corrected scan's minimum is the smallest of 4095 and the non-spike samples. */
  lemma {:induction false} IntendedScanMin(s: seq<int>)
    ensures IsTrueMin(s, ScanIntended(s).signalMin)
    decreases |s|
  {
    if s != [] {
      var n := |s| - 1;
      var p := s[..n];
      IntendedScanMin(p);
      assert forall i :: 0 <= i < n ==> s[i] == p[i];
      var m, mp := ScanIntended(s).signalMin, ScanIntended(p).signalMin;
      if mp != AdcMax && m == mp {
        var k :| 0 <= k < |p| && p[k] < AdcMax && p[k] == mp;
        assert s[k] == m;
      }
    }
  }

  /** The corrected scan yields the true maximum and the true minimum of the
      non-spike samples; as soon as one sample is below 4095 the intensity
      is never negative. */
  lemma IntendedScanCorrect(s: seq<int>)
    ensures IsWindowMax(s, ScanIntended(s).signalMax)
    ensures IsTrueMin(s, ScanIntended(s).signalMin)
    ensures (exists i :: 0 <= i < |s| && s[i] < AdcMax) ==> ScanIntended(s).PeakToPeak() >= 0
  {
    IntendedScanMax(s);
    IntendedScanMin(s);
  }

  /** The two-sample rising window [1, 2]: the firmware reports 2 - 4095,
      the intended scan reports 2 - 1. */
  lemma RisingPairDisagrees()
    ensures Scan([1, 2]).PeakToPeak() == -4093
    ensures ScanIntended([1, 2]).PeakToPeak() == 1
  {
    RisingWindow([1, 2]);
    assert [1, 2][..1] == [1];
    assert [1][..0] == [];
  }
}
