/** Post-processing around the automatic sleep stager: notch filtering of
    the power-line noise, cutting a recording into overlapping windows,
    smoothing the predicted labels and widening them from five-second
    epochs to seconds. The classifier and the feature extraction are not
    part of this model. */
module AutoStage {
  import opened Py
  import opened Annotation
  import opened Base
  import opened Signals

  // ---- filter_power_line_noise ----

  /** The default `noise_band` setting. */
  const DefaultNoise := "50-100-150"

  /** The three stop bands around 50, 100 and 150 Hz. */
  const MainsBands: seq<(int, int)> := [(47, 53), (97, 103), (147, 153)]

  /** The stop bands chosen for a rate `sf`. The thresholds 106, 206 and 306
      Hz are twice the bands' upper edges: a band is used exactly when it
      lies below the Nyquist frequency `sf / 2`. Any `noise_band` other than
      the default only ever gets the 50 Hz band. */
  function NoiseBands(noiseBand: string, sf: real): (bands: seq<(int, int)>)
    ensures bands <= MainsBands
    ensures forall k :: 0 <= k < |bands| ==> 2.0 * bands[k].1 as real < sf
    ensures noiseBand == DefaultNoise ==>
      forall k :: 0 <= k < |MainsBands| ==> (k < |bands| <==> 2.0 * MainsBands[k].1 as real < sf)
    ensures noiseBand != DefaultNoise ==> bands == if sf > 106.0 then MainsBands[..1] else []
  {
    if noiseBand == DefaultNoise && sf > 306.0 then MainsBands
    else if noiseBand == DefaultNoise && sf > 206.0 then MainsBands[..2]
    else if sf > 106.0 then MainsBands[..1]
    else []
  }

  /** One call `signal_filter(data, sf, btype='bandstop', low, high)`,
      keeping only the filtered data (the filter's name is dropped, so the
      rendering of numbers in it does not matter). */
  function Notch<C>(data: seq<real>, sf: real, band: (int, int),
                    design: (string, Cutoff) -> Result<C>,
                    apply: (C, seq<real>) -> Result<seq<real>>): Result<seq<real>>
  {
    match SignalFilter(data, FloatValue(sf), "bandstop", IntValue(band.0), IntValue(band.1),
                       (x: real) => "", design, apply)
    case Err(e) => Err(e)
    case Ok(out) => Ok(out.0)
  }

  /** The bands applied one after another, in order; the first failing
      filter call ends the chain with its exception. */
  function NotchAll<C>(data: seq<real>, sf: real, bands: seq<(int, int)>,
                       design: (string, Cutoff) -> Result<C>,
                       apply: (C, seq<real>) -> Result<seq<real>>): Result<seq<real>>
    decreases |bands|
  {
    if |bands| == 0 then Ok(data)
    else
      match Notch(data, sf, bands[0], design, apply)
      case Err(e) => Err(e)
      case Ok(d) => NotchAll(d, sf, bands[1..], design, apply)
  }

  /** `filter_power_line_noise(data, sf, noise_band)`. */
  method FilterPowerLineNoise<C>(data: seq<real>, sf: real, noiseBand: string,
                                 design: (string, Cutoff) -> Result<C>,
                                 apply: (C, seq<real>) -> Result<seq<real>>)
    returns (r: Result<seq<real>>)
    ensures r == NotchAll(data, sf, NoiseBands(noiseBand, sf), design, apply)
  {
    var bands := NoiseBands(noiseBand, sf);
    var cur := data;
    var i := 0;
    while i < |bands|
      invariant 0 <= i <= |bands|
      invariant NotchAll(cur, sf, bands[i..], design, apply) == NotchAll(data, sf, bands, design, apply)
    {
      var step := Notch(cur, sf, bands[i], design, apply);
      if step.Err? {
        return Err(step.exc);
      }
      assert bands[i..][1..] == bands[i + 1..];
      cur := step.value;
      i := i + 1;
    }
    return Ok(cur);
  }

  /** At 106 Hz or below no band is used and the data comes back untouched,
      whatever the filter would do. */
  lemma LowRateUntouched<C>(data: seq<real>, sf: real, noiseBand: string,
                            design: (string, Cutoff) -> Result<C>,
                            apply: (C, seq<real>) -> Result<seq<real>>)
    requires sf <= 106.0
    ensures NotchAll(data, sf, NoiseBands(noiseBand, sf), design, apply) == Ok(data)
  {
  }

  /** Each notch designs a bandstop filter whose normalised edges are the
      band's edges over the Nyquist frequency. */
  lemma NotchDesign<C>(data: seq<real>, sf: real, band: (int, int),
                       design: (string, Cutoff) -> Result<C>,
                       apply: (C, seq<real>) -> Result<seq<real>>)
    requires sf != 0.0
    ensures var cut := Band(Nyquist(band.0 as real, sf), Nyquist(band.1 as real, sf));
      Notch(data, sf, band, design, apply)
        == match design("bandstop", cut)
           case Err(e) => Err(e)
           case Ok(coef) => apply(coef, data)
  {
    BandPlan(FloatValue(sf), "bandstop", IntValue(band.0), IntValue(band.1), (x: real) => "");
  }

  /** A band below the Nyquist frequency has normalised edges strictly
      between 0 and 1, as the filter design asks. */
  lemma NyquistBelowOne(x: real, sf: real)
    requires 0.0 < x && 2.0 * x < sf
    ensures 0.0 < Nyquist(x, sf) < 1.0
  {
    var n := Nyquist(x, sf);
    var h := sf / 2.0;
    assert n * h == x && h > x;
    PositiveFactor(n, h);
    assert (1.0 - n) * h == h - x;
    PositiveFactor(1.0 - n, h);
  }

  lemma PositiveFactor(a: real, h: real)
    requires h > 0.0 && a * h > 0.0
    ensures a > 0.0
  {
  }

  /** Every chosen band has normalised edges `0 < low < high < 1`. */
  lemma ChosenBandsNormalised(noiseBand: string, sf: real)
    ensures forall k :: 0 <= k < |NoiseBands(noiseBand, sf)| ==>
      var b := NoiseBands(noiseBand, sf)[k];
      0.0 < Nyquist(b.0 as real, sf) < Nyquist(b.1 as real, sf) < 1.0
  {
    var bands := NoiseBands(noiseBand, sf);
    forall k | 0 <= k < |bands|
      ensures 0.0 < Nyquist(bands[k].0 as real, sf) < Nyquist(bands[k].1 as real, sf) < 1.0
    {
      var b := bands[k];
      assert b == MainsBands[k];
      assert 0 < b.0 < b.1;
      NyquistBelowOne(b.1 as real, sf);
      NyquistBelowOne(b.0 as real, sf);
      var lo, hi, h := Nyquist(b.0 as real, sf), Nyquist(b.1 as real, sf), sf / 2.0;
      assert lo * h < hi * h;
      assert h > 0.0;
    }
  }

  // ---- split_window_data ----

  /** One window of samples with the state it is labelled with. */
  datatype Window = Window(samples: seq<real>, state: int)

  /** The number of values `0, stride, 2 * stride, ...` below
      `secs - stride`. */
  function WindowCount(secs: int, stride: int): nat
    requires stride > 0
  {
    if secs - stride <= 0 then 0 else (secs - stride - 1) / stride + 1
  }

  lemma MulLe(a: int, b: int, s: nat)
    requires a <= b
    ensures a * s <= b * s
  {
  }

  /** The `j`-th start `j * stride` is in the range exactly when `j` is below
      the count. */
  lemma WindowCountExact(secs: int, stride: int, j: nat)
    requires stride > 0
    ensures j < WindowCount(secs, stride) <==> j * stride < secs - stride
  {
    var m := secs - stride;
    if m > 0 {
      var q, r := (m - 1) / stride, (m - 1) % stride;
      assert m - 1 == q * stride + r && 0 <= r < stride;
      if j <= q {
        MulLe(j, q, stride);
      } else {
        MulLe(q + 1, j, stride);
        assert (q + 1) * stride == q * stride + stride;
      }
    } else {
      assert j * stride >= 0;
    }
  }

  /** The window starting at second `start`:
      `data[int(start * sf) : int((start + window_length) * sf)]`. */
  function WindowAt(data: seq<real>, sf: real, state: int, windowLength: int, start: int): (w: Window)
    ensures w.state == state && |w.samples| <= |data|
  {
    Window(Slice(data, Samples(start, sf), Samples(start + windowLength, sf)), state)
  }

  /** What `split_window_data(data, sf, state, window_length, stride_length)`
      returns: no window when the recording is shorter than 20 seconds,
      otherwise one window per start `0, stride, ...` below the whole
      seconds minus one stride. */
  function WindowsSpec(data: seq<real>, sf: real, state: int, windowLength: int, stride: int): Result<seq<Window>>
  {
    if sf == 0.0 then Err(ZeroDivisionError)
    else if (|data| as real) / sf < 20.0 then Ok([])
    else if stride == 0 then Err(ValueError)
    else if stride < 0 then Ok([])
    else
      var secs := ((|data| as real) / sf).Floor;
      Ok(seq(WindowCount(secs, stride), j => WindowAt(data, sf, state, windowLength, j * stride)))
  }

  /** `split_window_data`. */
  method SplitWindowData(data: seq<real>, sf: real, state: int, windowLength: int, stride: int)
    returns (r: Result<seq<Window>>)
    ensures r == WindowsSpec(data, sf, state, windowLength, stride)
  {
    if sf == 0.0 {
      return Err(ZeroDivisionError);
    }
    if (|data| as real) / sf < 20.0 {
      return Ok([]);
    }
    if stride == 0 {
      return Err(ValueError);
    }
    if stride < 0 {
      return Ok([]);
    }
    var secs := ((|data| as real) / sf).Floor;
    var windows := WindowLoop(data, sf, state, windowLength, stride, secs);
    return Ok(windows);
  }

  /** The loop of `split_window_data`: one window per start `i = 0, stride,
      2*stride, ...` below `secs - stride`. */
  method WindowLoop(data: seq<real>, sf: real, state: int, windowLength: int, stride: int, secs: int)
    returns (windows: seq<Window>)
    requires stride > 0
    ensures windows == seq(WindowCount(secs, stride), j => WindowAt(data, sf, state, windowLength, j * stride))
  {
    windows := [];
    var i := 0;
    ghost var j: nat := 0;
    WindowCountExact(secs, stride, 0);
    while i < secs - stride
      invariant i == j * stride && j <= WindowCount(secs, stride)
      invariant windows == seq(j, k => WindowAt(data, sf, state, windowLength, k * stride))
      decreases secs - i
    {
      WindowCountExact(secs, stride, j);
      WindowsStep(data, sf, state, windowLength, stride, j);
      windows := windows + [WindowAt(data, sf, state, windowLength, i)];
      i := i + stride;
      j := j + 1;
    }
    WindowCountExact(secs, stride, j);
    assert j == WindowCount(secs, stride);
  }

  lemma WindowsStep(data: seq<real>, sf: real, state: int, windowLength: int, stride: int, j: nat)
    ensures seq(j + 1, k => WindowAt(data, sf, state, windowLength, k * stride))
         == seq(j, k => WindowAt(data, sf, state, windowLength, k * stride)) + [WindowAt(data, sf, state, windowLength, j * stride)]
  {
    var s := seq(j + 1, k => WindowAt(data, sf, state, windowLength, k * stride));
    var t := seq(j, k => WindowAt(data, sf, state, windowLength, k * stride));
    assert forall k :: 0 <= k < j ==> s[k] == t[k];
    assert s == t + [s[j]];
  }

  /** A recording shorter than 20 seconds gives no window, whatever the
      window length: the threshold is the literal 20. */
  lemma ShortRecording(data: seq<real>, sf: real, state: int, windowLength: int, stride: int)
    requires sf != 0.0 && (|data| as real) / sf < 20.0
    ensures WindowsSpec(data, sf, state, windowLength, stride) == Ok([])
  {
  }

  /** Window `j` starts at second `j * stride`, there is one window for each
      such start below the whole seconds minus one stride, and each is
      labelled with `state`. */
  lemma WindowStarts(data: seq<real>, sf: real, state: int, windowLength: int, stride: int, j: nat)
    requires sf != 0.0 && (|data| as real) / sf >= 20.0 && stride > 0
    ensures var r := WindowsSpec(data, sf, state, windowLength, stride);
      && r.Ok?
      && (j < |r.value| <==> j * stride < ((|data| as real) / sf).Floor - stride)
      && (j < |r.value| ==> r.value[j] == Window(Slice(data, Samples(j * stride, sf), Samples(j * stride + windowLength, sf)), state))
  {
    WindowCountExact(((|data| as real) / sf).Floor, stride, j);
  }

  // ---- result_constraints ----

  /** One pass of the smoothing loop at `idx`: a REM epoch right after a
      Wake epoch becomes NREM, then an epoch whose two neighbours agree
      takes their state. */
  function StepAt(p: seq<int>, idx: int): (q: seq<int>)
    requires 1 <= idx <= |p| - 2
    ensures |q| == |p|
  {
    var p1 := if p[idx] == Wake && p[idx + 1] == REM then p[idx + 1 := NREM] else p;
    if p1[idx - 1] == p1[idx + 1] then p1[idx := p1[idx - 1]] else p1
  }

  /** The labels after the passes at `1 .. k - 1`. */
  function SmoothUpTo(p: seq<int>, k: int): (q: seq<int>)
    requires 1 <= k && (k == 1 || k <= |p| - 1)
    ensures |q| == |p|
  {
    if k == 1 then p else StepAt(SmoothUpTo(p, k - 1), k - 1)
  }

  /** `result_constraints(pred_label)`: the passes at every inner epoch. */
  function Constraints(p: seq<int>): seq<int>
  {
    if |p| < 2 then p else SmoothUpTo(p, |p| - 1)
  }

  /** `result_constraints`: the loop runs on a copy of the labels. */
  method ResultConstraints(predLabel: seq<int>) returns (out: seq<int>)
    ensures out == Constraints(predLabel)
  {
    var a := new int[|predLabel|](i requires 0 <= i < |predLabel| => predLabel[i]);
    if |predLabel| < 2 {
      return a[..];
    }
    for idx := 1 to |predLabel| - 1
      invariant a[..] == SmoothUpTo(predLabel, idx)
    {
      var current := a[idx];
      if current == Wake && a[idx + 1] == REM {
        a[idx + 1] := NREM;
      }
      if a[idx - 1] == a[idx + 1] {
        a[idx] := a[idx - 1];
      }
    }
    return a[..];
  }

  /** No REM epoch directly after the Wake epoch at `j`. */
  predicate NoRemAfterWake(q: seq<int>, j: int)
    requires 0 <= j < |q| - 1
  {
    !(q[j] == Wake && q[j + 1] == REM)
  }

  /** The epoch at `i` is not an isolated one between two equal
      neighbours. */
  predicate NotIsolated(q: seq<int>, i: int)
    requires 1 <= i < |q| - 1
  {
    q[i - 1] == q[i + 1] ==> q[i] == q[i - 1]
  }

  /** What holds after the passes at `1 .. k - 1`: the first label is kept,
      both rules hold at every epoch already passed, and the labels after
      `k` are still the input's (the pass at `k - 1` may rewrite label `k`). */
  predicate SmoothedBelow(p: seq<int>, q: seq<int>, k: int)
    requires |q| == |p| && 1 <= k <= |q|
  {
    && (|p| > 0 ==> q[0] == p[0])
    && (forall j :: 1 <= j < k && j < |q| - 1 ==> NoRemAfterWake(q, j))
    && (forall i :: 1 <= i < k && i < |q| - 1 ==> NotIsolated(q, i))
    && (forall j :: k < j < |q| ==> q[j] == p[j])
  }

  /** The pass at `k` keeps both rules at the epochs before it and
      establishes them at `k`. */
  lemma StepKeeps(p: seq<int>, q: seq<int>, k: int)
    requires |q| == |p| && 1 <= k <= |q| - 2
    requires SmoothedBelow(p, q, k)
    ensures SmoothedBelow(p, StepAt(q, k), k + 1)
  {
    var q2 := StepAt(q, k);
    forall j | 1 <= j < k + 1 && j < |q2| - 1
      ensures NoRemAfterWake(q2, j)
    {
      if j < k - 1 {
        assert q2[j] == q[j] && q2[j + 1] == q[j + 1];
        assert NoRemAfterWake(q, j);
      } else if j == k - 1 {
        assert q2[j] == q[j];
        assert q2[k] == q[k] || q2[k] == q[k - 1];
        assert NoRemAfterWake(q, j);
      }
    }
    forall i | 1 <= i < k + 1 && i < |q2| - 1
      ensures NotIsolated(q2, i)
    {
      if i < k - 1 {
        assert q2[i - 1] == q[i - 1] && q2[i] == q[i] && q2[i + 1] == q[i + 1];
        assert NotIsolated(q, i);
      } else if i == k - 1 {
        assert q2[i - 1] == q[i - 1] && q2[i] == q[i];
        assert q2[k] == q[k] || q2[k] == q[k - 1];
        assert NotIsolated(q, i);
      }
    }
  }

  lemma {:induction false} SmoothInvariant(p: seq<int>, k: int)
    requires 1 <= k && (k == 1 || k <= |p| - 1)
    ensures |p| >= 1 ==> SmoothedBelow(p, SmoothUpTo(p, k), k)
  {
    if k > 1 {
      SmoothInvariant(p, k - 1);
      StepKeeps(p, SmoothUpTo(p, k - 1), k - 1);
    }
  }

  /** The promises of `result_constraints`: the labels keep their number
      and their first value, no REM follows a Wake at an inner epoch, and
      no inner epoch is left isolated between two equal neighbours. */
  lemma ConstraintsHold(p: seq<int>)
    ensures |Constraints(p)| == |p|
    ensures |p| > 0 ==> Constraints(p)[0] == p[0]
    ensures forall j :: 1 <= j <= |p| - 2 ==> NoRemAfterWake(Constraints(p), j)
    ensures forall i :: 1 <= i <= |p| - 2 ==> NotIsolated(Constraints(p), i)
  {
    if |p| >= 2 {
      SmoothInvariant(p, |p| - 1);
    }
  }

  // ---- label expansion in auto_stage_gbm ----

  /** `[item for each in pred_label for item in [each] * 5]`. */
  function ExpandLabels(pred: seq<int>): seq<int>
  {
    if |pred| == 0 then [] else Repeat(pred[0], 5) + ExpandLabels(pred[1..])
  }

  /** Each five-second label becomes five one-second labels, in order:
      second `i` carries label `i / 5`. */
  lemma {:induction false} ExpandLabelsAt(pred: seq<int>)
    ensures |ExpandLabels(pred)| == 5 * |pred|
    ensures forall i :: 0 <= i < |ExpandLabels(pred)| ==> ExpandLabels(pred)[i] == pred[i / 5]
  {
    if |pred| > 0 {
      ExpandLabelsAt(pred[1..]);
      var e := ExpandLabels(pred);
      forall i | 0 <= i < |e|
        ensures e[i] == pred[i / 5]
      {
        if i >= 5 {
          assert e[i] == ExpandLabels(pred[1..])[i - 5];
          assert (i - 5) / 5 == i / 5 - 1;
        }
      }
    }
  }

  /** The labels `auto_stage_gbm` returns for the classifier's predictions
      `pred`: smoothed, then widened to seconds. */
  function AutoStageLabels(pred: seq<int>): seq<int>
  {
    ExpandLabels(Constraints(pred))
  }

  /** Second `i` carries the smoothed label of epoch `i / 5`, and the
      first five seconds carry the classifier's first label unchanged. */
  lemma AutoStageSeconds(pred: seq<int>)
    ensures |AutoStageLabels(pred)| == 5 * |pred|
    ensures forall i :: 0 <= i < |AutoStageLabels(pred)| ==> AutoStageLabels(pred)[i] == Constraints(pred)[i / 5]
    ensures |pred| > 0 ==> AutoStageLabels(pred)[..5] == Repeat(pred[0], 5)
  {
    ConstraintsHold(pred);
    ExpandLabelsAt(Constraints(pred));
  }
}
