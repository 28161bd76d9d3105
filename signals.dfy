/** Filter dispatch and per-state cropping of a recording. The filter design
    and the zero-phase filtering are calls into a numerical library and are
    parameters here; floats are exact reals. */
module Signals {
  import opened Py
  import opened Text
  import opened Annotation
  import opened Base

  // ---- signal_filter ----

  /** The normalised cutoff handed to the filter design: one frequency, a
      band of two, or the non-finite values an array division by a zero
      rate produces. */
  datatype Cutoff = Single(w: real) | Band(lo: real, hi: real) | NonFinite

  /** `str(x)` for a number: an int is printed exactly, a float by
      `floatText`. */
  function NumText(n: Num, floatText: real -> string): string
  {
    match n
    case Int(i) => IntToString(i)
    case Float(r) => floatText(r)
  }

  /** `x / (.5 * sf)`: a frequency as a fraction of the Nyquist frequency
      `sf / 2`. */
  function Nyquist(x: real, f: real): (r: real)
    requires f != 0.0
    ensures r * (f / 2.0) == x
  {
    var half := 0.5 * f;
    assert half == f / 2.0 && half != 0.0;
    x / half
  }

  /** The checks and the cutoff and name chosen by `signal_filter`, before
      any filter is built. */
  function FilterPlan(sfv: Value, btype: string, low: Value, high: Value, floatText: real -> string): Result<(Cutoff, string)>
  {
    if AsNum(sfv).None? || AsNum(low).None? || AsNum(high).None? then Err(TypeError)
    else
      var f := AsNum(sfv).value.Real();
      var lo, hi := AsNum(low).value, AsNum(high).value;
      if btype == "lowpass" then
        if f == 0.0 then Err(ZeroDivisionError)
        else Ok((Single(Nyquist(hi.Real(), f)), btype + "_" + NumText(hi, floatText)))
      else if btype == "highpass" then
        if f == 0.0 then Err(ZeroDivisionError)
        else Ok((Single(Nyquist(lo.Real(), f)), btype + "_" + NumText(lo, floatText)))
      else if btype == "bandpass" || btype == "bandstop" then
        var name := btype + "_" + NumText(lo, floatText) + "_" + NumText(hi, floatText);
        if f == 0.0 then Ok((NonFinite, name))
        else Ok((Band(Nyquist(lo.Real(), f), Nyquist(hi.Real(), f)), name))
      else Err(ValueError)
  }

  /** `signal_filter(data, sf, btype, low, high)`: `design` stands for the
      third-order Butterworth `iirfilter` (whose ValueError is raised again
      as ValueError) and `apply` for `filtfilt`; the result is the filtered
      data and the name of the filter. */
  function SignalFilter<C>(data: seq<real>, sfv: Value, btype: string, low: Value, high: Value,
                           floatText: real -> string,
                           design: (string, Cutoff) -> Result<C>,
                           apply: (C, seq<real>) -> Result<seq<real>>): Result<(seq<real>, string)>
  {
    match FilterPlan(sfv, btype, low, high, floatText)
    case Err(e) => Err(e)
    case Ok(plan) =>
      match design(btype, plan.0)
      case Err(e) => Err(e)
      case Ok(coef) =>
        match apply(coef, data)
        case Err(e) => Err(e)
        case Ok(y) => Ok((y, plan.1))
  }

  /** A rate, low or high threshold that is not a number raises TypeError,
      and a filter type other than the four known ones raises ValueError;
      in both cases no filter is designed or applied, whatever the library
      would do. */
  lemma FilterRejects<C>(data: seq<real>, sfv: Value, btype: string, low: Value, high: Value,
                         floatText: real -> string,
                         design: (string, Cutoff) -> Result<C>, apply: (C, seq<real>) -> Result<seq<real>>,
                         design2: (string, Cutoff) -> Result<C>, apply2: (C, seq<real>) -> Result<seq<real>>)
    ensures !(sfv.IntValue? || sfv.FloatValue?) || !(low.IntValue? || low.FloatValue?) || !(high.IntValue? || high.FloatValue?)
      ==> SignalFilter(data, sfv, btype, low, high, floatText, design, apply) == Err(TypeError)
    ensures (sfv.IntValue? || sfv.FloatValue?) && (low.IntValue? || low.FloatValue?) && (high.IntValue? || high.FloatValue?)
      && btype !in ["lowpass", "highpass", "bandpass", "bandstop"]
      ==> SignalFilter(data, sfv, btype, low, high, floatText, design, apply) == Err(ValueError)
           == SignalFilter(data, sfv, btype, low, high, floatText, design2, apply2)
  {
  }

  /** A zero rate raises ZeroDivisionError for the one-frequency filters
      and gives non-finite cutoffs for the band filters. */
  lemma ZeroRatePlan(sfv: Value, btype: string, low: Value, high: Value, floatText: real -> string)
    requires AsNum(sfv).Some? && AsNum(low).Some? && AsNum(high).Some?
    requires AsNum(sfv).value.Real() == 0.0
    ensures btype == "lowpass" || btype == "highpass" ==> FilterPlan(sfv, btype, low, high, floatText) == Err(ZeroDivisionError)
    ensures btype == "bandpass" || btype == "bandstop" ==>
      var p := FilterPlan(sfv, btype, low, high, floatText);
      p.Ok? && p.value.0 == NonFinite
  {
  }

  /** Lowpass: the cutoff is `high` over the Nyquist frequency, and the
      filter is named `lowpass_{high}`. */
  lemma LowpassPlan(sfv: Value, btype: string, low: Value, high: Value, floatText: real -> string)
    requires AsNum(sfv).Some? && AsNum(low).Some? && AsNum(high).Some?
    requires btype == "lowpass"
    requires AsNum(sfv).value.Real() != 0.0
    ensures FilterPlan(sfv, btype, low, high, floatText)
      == Ok((Single(Nyquist(AsNum(high).value.Real(), AsNum(sfv).value.Real())), btype + "_" + NumText(AsNum(high).value, floatText)))
  {
  }

  /** Highpass: the cutoff is `low` over the Nyquist frequency, and the
      filter is named `highpass_{low}`. */
  lemma HighpassPlan(sfv: Value, btype: string, low: Value, high: Value, floatText: real -> string)
    requires AsNum(sfv).Some? && AsNum(low).Some? && AsNum(high).Some?
    requires btype == "highpass"
    requires AsNum(sfv).value.Real() != 0.0
    ensures FilterPlan(sfv, btype, low, high, floatText)
      == Ok((Single(Nyquist(AsNum(low).value.Real(), AsNum(sfv).value.Real())), btype + "_" + NumText(AsNum(low).value, floatText)))
  {
  }

  /** Bandpass and bandstop: the cutoffs are `low` and `high` over the
      Nyquist frequency, and the filter is named `{btype}_{low}_{high}`. */
  lemma BandPlan(sfv: Value, btype: string, low: Value, high: Value, floatText: real -> string)
    requires AsNum(sfv).Some? && AsNum(low).Some? && AsNum(high).Some?
    requires btype == "bandpass" || btype == "bandstop"
    requires AsNum(sfv).value.Real() != 0.0
    ensures var f := AsNum(sfv).value.Real();
      FilterPlan(sfv, btype, low, high, floatText)
        == Ok((Band(Nyquist(AsNum(low).value.Real(), f), Nyquist(AsNum(high).value.Real(), f)),
               btype + "_" + NumText(AsNum(low).value, floatText) + "_" + NumText(AsNum(high).value, floatText)))
  {
  }

  /** A filter that is designed and applied yields the library's output
      under the planned name. */
  lemma FilterOutput<C>(data: seq<real>, sfv: Value, btype: string, low: Value, high: Value,
                        floatText: real -> string,
                        design: (string, Cutoff) -> Result<C>, apply: (C, seq<real>) -> Result<seq<real>>)
    ensures var r := SignalFilter(data, sfv, btype, low, high, floatText, design, apply);
      var p := FilterPlan(sfv, btype, low, high, floatText);
      && (r.Ok? <==> p.Ok? && design(btype, p.value.0).Ok? && apply(design(btype, p.value.0).value, data).Ok?)
      && (r.Ok? ==> r.value == (apply(design(btype, p.value.0).value, data).value, p.value.1))
      && (p.Err? ==> r == Err(p.exc))
  {
  }

  // ---- crop_state_data ----

  /** The runs of the annotation, from `lst2group` over `[idx, state]`. */
  function StateRuns(sleepState: seq<int>): seq<Run<int>>
  {
    Lst2Group(Enumerate(sleepState, 0))
  }

  /** `[signal[int(first * sf): int(last * sf)] for run in runs if run.value == k]`. */
  function StatePieces(runs: seq<Run<int>>, signal: seq<real>, f: real, k: int): seq<seq<real>>
  {
    if |runs| == 0 then []
    else
      (if runs[0].value == k then [Slice(signal, Samples(runs[0].first, f), Samples(runs[0].last, f))] else [])
      + StatePieces(runs[1..], signal, f, k)
  }

  /** The samples of one channel in state `k`: its pieces flattened in run
      order. */
  function StateSignal(runs: seq<Run<int>>, signal: seq<real>, f: real, k: int): seq<real>
  {
    Concat(StatePieces(runs, signal, f, k))
  }

  /** The state-`k` samples of every channel. */
  function StateSignals(c: Contents, runs: seq<Run<int>>, k: int): (r: seq<seq<real>>)
    requires |c.sf| == |c.signals|
    ensures |r| == |c.signals|
  {
    seq(|c.signals|, i requires 0 <= i < |c.signals| => StateSignal(runs, c.signals[i], c.sf[i].Real(), k))
  }

  /** The seconds of state `k` that survive the cut: each run of `k`
      contributes `last - first`, one second less than it covers. */
  function StateSeconds(runs: seq<Run<int>>, k: int): int
  {
    if |runs| == 0 then 0
    else (if runs[0].value == k then runs[0].last - runs[0].first else 0) + StateSeconds(runs[1..], k)
  }

  lemma {:induction false} StatePiecesAppend(a: seq<Run<int>>, b: seq<Run<int>>, signal: seq<real>, f: real, k: int)
    ensures StatePieces(a + b, signal, f, k) == StatePieces(a, signal, f, k) + StatePieces(b, signal, f, k)
  {
    if |a| == 0 {
      assert a + b == b;
    } else {
      assert (a + b)[0] == a[0];
      assert (a + b)[1..] == a[1..] + b;
      StatePiecesAppend(a[1..], b, signal, f, k);
    }
  }

  /** A run of another state contributes nothing to the state-`k` samples;
      in particular runs whose value is none of 1 to 4 reach none of the
      four outputs. */
  lemma StateSignalSkip(runs: seq<Run<int>>, j: int, signal: seq<real>, f: real, k: int)
    requires 0 <= j < |runs| && runs[j].value != k
    ensures StateSignal(runs[..j] + runs[j + 1..], signal, f, k) == StateSignal(runs, signal, f, k)
  {
    var a, x, b := runs[..j], [runs[j]], runs[j + 1..];
    assert runs == a + (x + b);
    StatePiecesAppend(a, x + b, signal, f, k);
    StatePiecesAppend(x, b, signal, f, k);
    StatePiecesAppend(a, b, signal, f, k);
    assert x[1..] == [];
    assert StatePieces(x, signal, f, k) == [];
    assert StatePieces(x + b, signal, f, k) == StatePieces(b, signal, f, k);
    assert StatePieces(runs, signal, f, k) == StatePieces(a + b, signal, f, k);
  }

  /** A run of state `k` adds its slice `[int(first * sf), int(last * sf))`
      after those of the earlier runs. */
  lemma StateSignalRun(runs: seq<Run<int>>, x: Run<int>, signal: seq<real>, f: real)
    ensures StateSignal(runs + [x], signal, f, x.value)
      == StateSignal(runs, signal, f, x.value) + Slice(signal, Samples(x.first, f), Samples(x.last, f))
  {
    var p := StatePieces(runs, signal, f, x.value);
    StatePiecesAppend(runs, [x], signal, f, x.value);
    assert [x][1..] == [];
    var piece := Slice(signal, Samples(x.first, f), Samples(x.last, f));
    assert StatePieces([x], signal, f, x.value) == [piece];
    assert StatePieces(runs + [x], signal, f, x.value) == p + [piece];
    ConcatAppend(p, piece);
  }

  lemma MulMono(a: int, b: int, k: nat)
    requires a <= b
    ensures a * k <= b * k
  {
  }

  /** With a whole rate `k`, the slice of a run inside `[0, n)` of a channel
      of at least `n * k` samples holds `k` samples per second of the run
      but its last. */
  lemma PieceLength(signal: seq<real>, x: Run<int>, k: nat, n: int)
    requires k > 0 && n * k <= |signal| && 0 <= x.first <= x.last < n
    ensures |Slice(signal, Samples(x.first, k as real), Samples(x.last, k as real))| == (x.last - x.first) * k
  {
    WholeProduct(x.first, k);
    WholeProduct(x.last, k);
    MulMono(x.first, x.last, k);
    MulMono(x.last, n, k);
    MulMono(0, x.first, k);
    CutLength(x.first, x.last, k);
  }

  lemma Distrib(a: int, b: int, k: int)
    ensures (a + b) * k == a * k + b * k
  {
  }

  /** With a whole rate `k`, a channel of at least `n * k` samples and runs
      inside `[0, n)`, the state-`s` samples number `k` per surviving
      second. */
  lemma {:induction false} StateSignalLength(runs: seq<Run<int>>, signal: seq<real>, k: nat, n: int, s: int)
    requires k > 0 && n * k <= |signal|
    requires forall i :: 0 <= i < |runs| ==> 0 <= runs[i].first <= runs[i].last < n
    ensures |StateSignal(runs, signal, k as real, s)| == StateSeconds(runs, s) * k
  {
    if |runs| > 0 {
      var x := runs[0];
      var rest := runs[1..];
      StateSignalLength(rest, signal, k, n, s);
      var piece := Slice(signal, Samples(x.first, k as real), Samples(x.last, k as real));
      var head := if x.value == s then [piece] else [];
      var tail := StatePieces(rest, signal, k as real, s);
      assert StatePieces(runs, signal, k as real, s) == head + tail;
      ConcatSplit(head, tail);
      var h := if x.value == s then x.last - x.first else 0;
      if x.value == s {
        PieceLength(signal, x, k, n);
        assert head[1..] == [];
        assert Concat(head) == piece;
      }
      assert |Concat(head)| == h * k;
      Distrib(h, StateSeconds(rest, s), k);
    }
  }

  /** The loop of `crop_state_data` over the channels: the NREM, REM, Wake
      and Init samples of every channel, in channel order. The recording and
      the annotation are only read. */
  method CropStateSignals(m: MiData, anno: MiAnnotation) returns (nrem: seq<seq<real>>, rem: seq<seq<real>>, wake: seq<seq<real>>, init: seq<seq<real>>)
    requires m.Valid()
    ensures nrem == StateSignals(m.State(), StateRuns(anno.sleepState), NREM)
    ensures rem == StateSignals(m.State(), StateRuns(anno.sleepState), REM)
    ensures wake == StateSignals(m.State(), StateRuns(anno.sleepState), Wake)
    ensures init == StateSignals(m.State(), StateRuns(anno.sleepState), Init)
  {
    var runs := StateRuns(anno.sleepState);
    var signals := m.signals;
    ghost var c := m.State();
    nrem, rem, wake, init := [], [], [], [];
    for idx := 0 to |signals|
      invariant nrem == StateSignals(c, runs, NREM)[..idx]
      invariant rem == StateSignals(c, runs, REM)[..idx]
      invariant wake == StateSignals(c, runs, Wake)[..idx]
      invariant init == StateSignals(c, runs, Init)[..idx]
    {
      var signal := signals[idx];
      var f := m.sf[idx].Real();
      nrem := nrem + [StateSignal(runs, signal, f, NREM)];
      rem := rem + [StateSignal(runs, signal, f, REM)];
      wake := wake + [StateSignal(runs, signal, f, Wake)];
      init := init + [StateSignal(runs, signal, f, Init)];
    }
  }

  /** `crop_state_data(midata, mianno)` as written: after the per-state
      samples are gathered, the first constructor call evaluates
      `midata.time`, an attribute `MiData` does not have, so the function
      always raises AttributeError. */
  method CropStateData(m: MiData, anno: MiAnnotation) returns (r: Result<seq<Contents>>)
    requires m.Valid()
    ensures r == Err(AttributeError)
  {
    var nrem, rem, wake, init := CropStateSignals(m, anno);
    return Err(AttributeError);
  }

  /** `crop_state_data` as evidently intended: one recording per state,
      NREM, REM, Wake and Init, each built from that state's samples with
      the input's channels and frequencies. */
  function CropStateDataFixed(c: Contents, anno: MiAnnotation): seq<Result<Contents>>
    requires |c.sf| == |c.signals|
  {
    var runs := StateRuns(anno.sleepState);
    [Build(StateSignals(c, runs, NREM), c.channels, c.sf),
     Build(StateSignals(c, runs, REM), c.channels, c.sf),
     Build(StateSignals(c, runs, Wake), c.channels, c.sf),
     Build(StateSignals(c, runs, Init), c.channels, c.sf)]
  }

  /** On a recording with whole rates whose channels hold exactly
      `duration * sf` samples, annotated for at most its duration, the
      intended per-state recording of state `k` is built without error. It
      keeps the channels and frequencies, lasts the seconds of `k` that
      survive the cut, and holds each channel's state-`k` samples. */
  lemma CropStateWhole(c: Contents, anno: MiAnnotation, k: int)
    requires WholeRates(c.sf) && Aligned(c) && WellFormed(c)
    requires |anno.sleepState| <= c.duration
    requires 1 <= k <= 4
    ensures var runs := StateRuns(anno.sleepState);
      CropStateDataFixed(c, anno)[k - 1]
        == Ok(Contents(StateSignals(c, runs, k), c.channels, c.sf, StateSeconds(runs, k)))
  {
    var runs := StateRuns(anno.sleepState);
    GroupTiles(anno.sleepState, 0, |anno.sleepState|);
    TilesBounds(runs, 0, |anno.sleepState|);
    StateSecondsNonNeg(runs, k);
    var d := Contents(StateSignals(c, runs, k), c.channels, c.sf, StateSeconds(runs, k));
    forall i | 0 <= i < |c.signals| ensures |d.signals[i]| == d.duration * Rate(d.sf[i]) {
      var rate := Rate(c.sf[i]);
      assert c.sf[i].Real() == rate as real;
      MulMono(|anno.sleepState|, c.duration, rate);
      StateSignalLength(runs, c.signals[i], rate, |anno.sleepState|, k);
    }
    assert Aligned(d);
    RebuildWhole(d);
  }

  lemma {:induction false} StateSecondsNonNeg(runs: seq<Run<int>>, k: int)
    requires forall i :: 0 <= i < |runs| ==> runs[i].first <= runs[i].last
    ensures StateSeconds(runs, k) >= 0
  {
    if |runs| > 0 {
      StateSecondsNonNeg(runs[1..], k);
    }
  }
}
