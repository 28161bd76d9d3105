/** The `MiData` container of a multichannel recording: parallel lists of
    signals, channel names and sampling frequencies, with one whole number
    of seconds for all channels. Samples and frequencies are exact reals. */
module Base {
  import opened Py

  /** `math.floor(n / f)`; Python raises ZeroDivisionError for `f == 0`. */
  function FloorDiv(n: int, f: real): (r: Result<int>)
    ensures r.Ok? <==> f != 0.0
    ensures r.Err? ==> r.exc == ZeroDivisionError
    ensures r.Ok? ==> r.value as real <= n as real / f < r.value as real + 1.0
  {
    if f == 0.0 then Err(ZeroDivisionError) else Ok((n as real / f).Floor)
  }

  /** `[math.floor(len(signals[i]) / sf[i]) for i ...]`, in channel order:
      the first zero frequency raises. */
  function Durations(signals: seq<seq<real>>, sf: seq<real>): (r: Result<seq<int>>)
    requires |sf| == |signals|
    ensures r.Ok? ==> |r.value| == |signals|
  {
    if |signals| == 0 then Ok([])
    else match FloorDiv(|signals[0]|, sf[0])
      case Err(e) => Err(e)
      case Ok(d) =>
        match Durations(signals[1..], sf[1..])
        case Err(e) => Err(e)
        case Ok(ds) => Ok([d] + ds)
  }

  /** The durations fail, with ZeroDivisionError, exactly when a frequency
      is zero; otherwise duration `i` is `floor(len(signals[i]) / sf[i])`. */
  lemma {:induction false} DurationsAt(signals: seq<seq<real>>, sf: seq<real>)
    requires |sf| == |signals|
    ensures var r := Durations(signals, sf);
      && (r.Ok? <==> forall i :: 0 <= i < |sf| ==> sf[i] != 0.0)
      && (r.Err? ==> r.exc == ZeroDivisionError)
      && (r.Ok? ==> forall i :: 0 <= i < |signals| ==> r.value[i] == FloorDiv(|signals[i]|, sf[i]).value)
  {
    if |signals| > 0 {
      DurationsAt(signals[1..], sf[1..]);
      var r := Durations(signals, sf);
      if r.Ok? {
        forall i | 0 <= i < |signals| ensures r.value[i] == FloorDiv(|signals[i]|, sf[i]).value {
          if i > 0 {
            assert signals[i] == signals[1..][i - 1] && sf[i] == sf[1..][i - 1];
          }
        }
      }
      if forall i :: 0 <= i < |sf| ==> sf[i] != 0.0 {
        assert forall i :: 0 <= i < |sf[1..]| ==> sf[1..][i] == sf[i + 1];
      }
    }
  }

  predicate AllFloat(sf: seq<Num>)
  {
    forall i :: 0 <= i < |sf| ==> sf[i].Float?
  }

  function Reals(sf: seq<Num>): (r: seq<real>)
    ensures |r| == |sf| && forall i :: 0 <= i < |sf| ==> r[i] == sf[i].Real()
  {
    seq(|sf|, i requires 0 <= i < |sf| => sf[i].Real())
  }

  /** All durations agree and there is at least one. */
  predicate OneValue(ds: seq<int>)
  {
    |ds| > 0 && forall i :: 0 <= i < |ds| ==> ds[i] == ds[0]
  }

  /** `len(set(ds)) == 1` is `OneValue(ds)`. */
  lemma OneValueSet(ds: seq<int>)
    ensures |set i | 0 <= i < |ds| :: ds[i]| == 1 <==> OneValue(ds)
  {
    var s := set i | 0 <= i < |ds| :: ds[i];
    if OneValue(ds) {
      assert s == {ds[0]};
    } else if |ds| > 0 {
      var j :| 0 <= j < |ds| && ds[j] != ds[0];
      assert {ds[0], ds[j]} <= s;
      assert |{ds[0], ds[j]}| == 2;
      SubsetCard({ds[0], ds[j]}, s);
    } else {
      assert s == {};
    }
  }

  lemma SubsetCard(a: set<int>, b: set<int>)
    requires a <= b
    ensures |a| <= |b|
  {
    assert b == a + (b - a);
  }

  /** `int(d * f)`: the number of samples `d` seconds take at rate `f`. */
  function Samples(d: int, f: real): int
  {
    Trunc(d as real * f)
  }

  /** `signals[i][:int(d * sf[i])]` for every channel. */
  function Truncated(signals: seq<seq<real>>, sf: seq<real>, d: int): seq<seq<real>>
    requires |sf| == |signals|
  {
    seq(|signals|, i requires 0 <= i < |signals| => Take(signals[i], Samples(d, sf[i])))
  }

  /** Each stored signal is a prefix of its input: `int(d * sf_i)` samples
      when that is within the signal, the whole signal when it is longer,
      and the signal less that many samples from its end when it is
      negative, as a negative slice bound counts from the end. */
  lemma TruncatedPrefix(signals: seq<seq<real>>, sf: seq<real>, d: int)
    requires |sf| == |signals|
    ensures forall i :: 0 <= i < |signals| ==>
      var r, n, k := Truncated(signals, sf, d)[i], |signals[i]|, Samples(d, sf[i]);
      && r <= signals[i]
      && (0 <= k <= n ==> |r| == k)
      && (k >= n ==> r == signals[i])
      && (k < 0 ==> |r| == if n + k < 0 then 0 else n + k)
  {
    forall i | 0 <= i < |signals|
      ensures Truncated(signals, sf, d)[i] <= signals[i]
    {
      assert Truncated(signals, sf, d)[i] == signals[i][..Bound(Samples(d, sf[i]), |signals[i]|)];
    }
  }

  /** The fields of a `MiData`. */
  datatype Contents = Contents(signals: seq<seq<real>>, channels: seq<string>, sf: seq<Num>, duration: int)

  /** The checks and the truncation of `MiData.__init__`, in the order the
      constructor makes them. */
  function Build(signals: seq<seq<real>>, channels: seq<string>, sf: seq<Num>): Result<Contents>
  {
    if |channels| != |signals| then Err(ValueError)
    else if |sf| != |signals| then Err(ValueError)
    else if !AllFloat(sf) then Err(TypeError)
    else
      var fs := Reals(sf);
      match Durations(signals, fs)
      case Err(e) => Err(e)
      case Ok(ds) =>
        if !OneValue(ds) then Err(ValueError)
        else Ok(Contents(Truncated(signals, fs, ds[0]), channels, sf, ds[0]))
  }

  /** The constructor raises ValueError for a channel or frequency list of
      the wrong length, TypeError for a frequency that is not a float,
      ZeroDivisionError for a zero frequency, and ValueError unless every
      channel has the same `floor(len/sf)`; nothing else fails. */
  lemma BuildErrors(signals: seq<seq<real>>, channels: seq<string>, sf: seq<Num>)
    ensures var b := Build(signals, channels, sf);
      && (|channels| != |signals| ==> b == Err(ValueError))
      && (|channels| == |signals| && |sf| != |signals| ==> b == Err(ValueError))
      && (|channels| == |signals| == |sf| && !AllFloat(sf) ==> b == Err(TypeError))
      && ((|channels| == |signals| == |sf| && AllFloat(sf) && exists i :: 0 <= i < |sf| && sf[i].r == 0.0)
            ==> b == Err(ZeroDivisionError))
      && (b.Ok? <==>
            && |channels| == |signals| == |sf| && AllFloat(sf)
            && (forall i :: 0 <= i < |sf| ==> sf[i].r != 0.0)
            && Durations(signals, Reals(sf)).Ok? && OneValue(Durations(signals, Reals(sf)).value))
  {
    if |channels| == |signals| == |sf| && AllFloat(sf) {
      DurationsAt(signals, Reals(sf));
    }
  }

  /** `floor(n / f) * f` samples fit in `n`, and are not negative, for a
      positive rate. */
  lemma PrefixFits(n: nat, f: real, d: int)
    requires f > 0.0 && FloorDiv(n, f) == Ok(d)
    ensures 0 <= Samples(d, f) <= n
  {
    var q := n as real / f;
    DivTimes(n as real, f);
    assert 0.0 <= d as real <= q;
    ScaleUp(d as real, q, f);
    ScaleUp(0.0, d as real, f);
  }

  /** For a negative rate `floor(n / f) * f` reaches at least `n`, so nothing
      is cut. */
  lemma NegativeKeepsAll(n: nat, f: real, d: int)
    requires f < 0.0 && FloorDiv(n, f) == Ok(d)
    ensures Samples(d, f) >= n
  {
    var q := n as real / f;
    DivTimes(n as real, f);
    assert d as real <= q;
    ScaleDown(d as real, q, f);
  }

  lemma DivTimes(x: real, f: real)
    requires f != 0.0
    ensures (x / f) * f == x
  {
  }

  lemma ScaleUp(a: real, b: real, f: real)
    requires a <= b && f >= 0.0
    ensures a * f <= b * f
  {
    assert (b - a) * f >= 0.0;
  }

  lemma ScaleDown(a: real, b: real, f: real)
    requires a <= b && f <= 0.0
    ensures a * f >= b * f
  {
    assert (b - a) * f <= 0.0;
  }

  /** The invariant every `MiData` keeps: three parallel lists, at least one
      channel, and no zero frequency. */
  predicate WellFormed(c: Contents)
  {
    && |c.signals| == |c.channels| == |c.sf| >= 1
    && forall i :: 0 <= i < |c.sf| ==> c.sf[i].Real() != 0.0
  }

  lemma BuildOk(signals: seq<seq<real>>, channels: seq<string>, sf: seq<Num>)
    requires Build(signals, channels, sf).Ok?
    ensures |channels| == |signals| == |sf| && AllFloat(sf)
    ensures Durations(signals, Reals(sf)).Ok?
    ensures var ds := Durations(signals, Reals(sf)).value;
      OneValue(ds) && Build(signals, channels, sf) == Ok(Contents(Truncated(signals, Reals(sf), ds[0]), channels, sf, ds[0]))
  {
  }

  /** A built `MiData` is well formed and keeps the channels and frequencies;
      every channel has `floor(len / sf)` equal to the common duration; and
      each stored signal is its input cut to `int(duration * sf)` samples:
      a prefix that fits for a positive rate, the whole input for a negative
      one. */
  lemma BuildContents(signals: seq<seq<real>>, channels: seq<string>, sf: seq<Num>)
    requires Build(signals, channels, sf).Ok?
    ensures var c := Build(signals, channels, sf).value;
      && WellFormed(c) && c.channels == channels && c.sf == sf && |c.signals| == |signals|
      && (forall i :: 0 <= i < |signals| ==> FloorDiv(|signals[i]|, sf[i].Real()) == Ok(c.duration))
      && (forall i :: 0 <= i < |signals| && sf[i].Real() > 0.0 ==>
            var k := Samples(c.duration, sf[i].Real());
            0 <= k <= |signals[i]| && c.signals[i] == signals[i][..k])
      && (forall i :: 0 <= i < |signals| && sf[i].Real() < 0.0 ==> c.signals[i] == signals[i])
  {
    BuildOk(signals, channels, sf);
    var fs := Reals(sf);
    DurationsAt(signals, fs);
    var ds := Durations(signals, fs).value;
    var c := Build(signals, channels, sf).value;
    assert c.duration == ds[0];
    forall i | 0 <= i < |signals|
      ensures FloorDiv(|signals[i]|, sf[i].Real()) == Ok(c.duration)
      ensures sf[i].Real() > 0.0 ==> 0 <= Samples(c.duration, sf[i].Real()) <= |signals[i]|
      ensures sf[i].Real() < 0.0 ==> Samples(c.duration, sf[i].Real()) >= |signals[i]|
    {
      assert ds[i] == c.duration;
      if sf[i].Real() > 0.0 {
        PrefixFits(|signals[i]|, sf[i].Real(), c.duration);
      } else if sf[i].Real() < 0.0 {
        NegativeKeepsAll(|signals[i]|, sf[i].Real(), c.duration);
      }
    }
  }

  // ---- whole-number rates ----

  /** The rate of a channel as a whole number of samples per second. */
  function Rate(n: Num): int
  {
    n.Real().Floor
  }

  /** Every frequency is a positive float holding a whole number. */
  predicate WholeRates(sf: seq<Num>)
  {
    forall i :: 0 <= i < |sf| ==> sf[i].Float? && sf[i].r > 0.0 && Rate(sf[i]) as real == sf[i].r
  }

  /** Every channel holds exactly `duration * sf` samples. */
  predicate Aligned(c: Contents)
  {
    && |c.signals| == |c.sf| && c.duration >= 0
    && forall i :: 0 <= i < |c.signals| ==> |c.signals[i]| == c.duration * Rate(c.sf[i])
  }

  lemma WholeProduct(d: int, k: int)
    requires k > 0
    ensures Samples(d, k as real) == d * k
    ensures d >= 0 ==> FloorDiv(d * k, k as real) == Ok(d)
  {
    assert d as real * k as real == (d * k) as real;
    assert (d * k) as real / k as real == d as real;
  }

  /** Channel `i` of an aligned recording with whole rates has exactly the
      common duration and keeps all its samples. */
  lemma WholeChannel(c: Contents, i: int)
    requires WholeRates(c.sf) && Aligned(c) && 0 <= i < |c.signals|
    ensures FloorDiv(|c.signals[i]|, Reals(c.sf)[i]) == Ok(c.duration)
    ensures Take(c.signals[i], Samples(c.duration, Reals(c.sf)[i])) == c.signals[i]
  {
    var k := Rate(c.sf[i]);
    assert Reals(c.sf)[i] == k as real;
    WholeProduct(c.duration, k);
  }

  /** With whole-number rates, building from a recording whose channels hold
      exactly `duration * sf` samples gives that recording back. */
  lemma RebuildWhole(c: Contents)
    requires WholeRates(c.sf) && Aligned(c) && |c.channels| == |c.signals| >= 1
    ensures Build(c.signals, c.channels, c.sf) == Ok(c)
  {
    var fs := Reals(c.sf);
    forall i | 0 <= i < |c.signals|
      ensures FloorDiv(|c.signals[i]|, fs[i]) == Ok(c.duration)
      ensures Take(c.signals[i], Samples(c.duration, fs[i])) == c.signals[i]
    {
      WholeChannel(c, i);
    }
    assert AllFloat(c.sf);
    DurationsAt(c.signals, fs);
    var ds := Durations(c.signals, fs).value;
    assert forall i :: 0 <= i < |ds| ==> ds[i] == c.duration;
    var t := Truncated(c.signals, fs, c.duration);
    assert t == c.signals;
  }

  /** With whole-number rates the constructor leaves every channel with
      exactly `duration * sf` samples. */
  lemma BuildAligned(signals: seq<seq<real>>, channels: seq<string>, sf: seq<Num>)
    requires WholeRates(sf) && Build(signals, channels, sf).Ok?
    ensures Aligned(Build(signals, channels, sf).value)
  {
    var c := Build(signals, channels, sf).value;
    BuildContents(signals, channels, sf);
    forall i | 0 <= i < |signals| ensures |c.signals[i]| == c.duration * Rate(sf[i]) {
      WholeProduct(c.duration, Rate(sf[i]));
      assert sf[i].Real() == Rate(sf[i]) as real;
    }
    assert FloorDiv(|signals[0]|, sf[0].Real()) == Ok(c.duration);
  }

  /** With a rate that is not a whole number, building again can lose a
      second: three samples at 2.5 Hz keep one second and two samples, and
      building from those two gives no second and no samples. */
  lemma RebuildLosesSecond()
    ensures Build([[0.0, 0.0, 0.0]], ["eeg"], [Float(2.5)]) == Ok(Contents([[0.0, 0.0]], ["eeg"], [Float(2.5)], 1))
    ensures Build([[0.0, 0.0]], ["eeg"], [Float(2.5)]) == Ok(Contents([[]], ["eeg"], [Float(2.5)], 0))
  {
    assert Reals([Float(2.5)]) == [2.5];
    var s3: seq<seq<real>> := [[0.0, 0.0, 0.0]];
    var s2: seq<seq<real>> := [[0.0, 0.0]];
    assert s3[1..] == [] && s2[1..] == [];
    var e: seq<real> := [2.5];
    assert e[1..] == [];
    assert FloorDiv(3, 2.5) == Ok(1);
    assert FloorDiv(2, 2.5) == Ok(0);
    assert Durations(s3[1..], e[1..]) == Ok([]);
    assert FloorDiv(|s3[0]|, e[0]) == Ok(1);
    assert Durations(s3, e) == Ok([1] + []);
    assert FloorDiv(|s2[0]|, e[0]) == Ok(0);
    assert Durations(s2, e) == Ok([0] + []);
    assert Samples(1, 2.5) == 2;
    assert Samples(0, 2.5) == 0;
    assert Truncated(s3, e, 1)[0] == s3[0][..2] == [0.0, 0.0];
    assert Truncated(s3, e, 1) == [[0.0, 0.0]];
    assert Truncated(s2, e, 0)[0] == s2[0][..0];
    assert Truncated(s2, e, 0) == [[]];
  }

  // ---- add ----

  /** `add(signal, channel, sf)`: the duration `floor(len(signal) / sf)` is
      computed first, so a frequency that is not a number raises TypeError
      and a zero one ZeroDivisionError; then a duration more than 10 seconds
      away raises ValueError, and a channel name that is not a string
      TypeError; otherwise the three lists grow by one entry. */
  function AddSpec(c: Contents, signal: seq<real>, channel: Value, sfv: Value): Result<Contents>
  {
    match AsNum(sfv)
    case None => Err(TypeError)
    case Some(n) =>
      match FloorDiv(|signal|, n.Real())
      case Err(e) => Err(e)
      case Ok(d) =>
        if Abs(d - c.duration) > 10 then Err(ValueError)
        else if !channel.StrValue? then Err(TypeError)
        else Ok(Contents(c.signals + [signal], c.channels + [channel.s], c.sf + [n], c.duration))
  }

  /** The errors of `add`, in the order it raises them, and when it succeeds. */
  lemma AddCases(c: Contents, signal: seq<real>, channel: Value, sfv: Value)
    ensures var r := AddSpec(c, signal, channel, sfv);
      && (!(sfv.IntValue? || sfv.FloatValue?) ==> r == Err(TypeError))
      && (AsNum(sfv).Some? && AsNum(sfv).value.Real() == 0.0 ==> r == Err(ZeroDivisionError))
      && (AsNum(sfv).Some? && AsNum(sfv).value.Real() != 0.0 ==>
            var d := (|signal| as real / AsNum(sfv).value.Real()).Floor;
            && (Abs(d - c.duration) > 10 ==> r == Err(ValueError))
            && (Abs(d - c.duration) <= 10 && !channel.StrValue? ==> r == Err(TypeError))
            && (r.Ok? <==> Abs(d - c.duration) <= 10 && channel.StrValue?))
  {
  }

  /** A successful `add` keeps every existing entry, appends the new signal,
      name and frequency at the end, leaves the duration alone and keeps the
      recording well formed. */
  lemma AddKeeps(c: Contents, signal: seq<real>, channel: Value, sfv: Value)
    requires WellFormed(c) && AddSpec(c, signal, channel, sfv).Ok?
    ensures var a := AddSpec(c, signal, channel, sfv).value;
      && WellFormed(a) && |a.channels| == |c.channels| + 1 && a.duration == c.duration
      && a.signals[..|c.signals|] == c.signals && a.channels[..|c.channels|] == c.channels
      && a.sf[..|c.sf|] == c.sf
      && a.signals[|c.signals|] == signal && StrValue(a.channels[|c.channels|]) == channel
      && NumValue(a.sf[|c.sf|]) == sfv
  {
    var a := AddSpec(c, signal, channel, sfv).value;
    assert a.signals[..|c.signals|] == c.signals;
    assert a.channels[..|c.channels|] == c.channels;
    assert a.sf[..|c.sf|] == c.sf;
  }

  // ---- delete ----

  function RemoveAt<T>(s: seq<T>, i: nat): seq<T>
    requires i < |s|
  {
    s[..i] + s[i + 1..]
  }

  /** `delete(channel)`: TypeError for a name that is not a string,
      IndexError for an unknown one, ValueError for the last channel;
      otherwise the first channel of that name leaves all three lists. */
  function DeleteSpec(c: Contents, channel: Value): Result<Contents>
    requires WellFormed(c)
  {
    if !channel.StrValue? then Err(TypeError)
    else match IndexOf(c.channels, channel.s)
      case None => Err(IndexError)
      case Some(i) =>
        if |c.channels| == 1 then Err(ValueError)
        else Ok(Contents(RemoveAt(c.signals, i), RemoveAt(c.channels, i), RemoveAt(c.sf, i), c.duration))
  }

  /** The errors of `delete`, and on success the removed position is the
      first one holding the name, every other channel keeps its order and
      the recording stays well formed. */
  lemma DeleteCases(c: Contents, channel: Value)
    requires WellFormed(c)
    ensures var r := DeleteSpec(c, channel);
      && (!channel.StrValue? ==> r == Err(TypeError))
      && (channel.StrValue? && channel.s !in c.channels ==> r == Err(IndexError))
      && (channel.StrValue? && channel.s in c.channels && |c.channels| == 1 ==> r == Err(ValueError))
      && (r.Ok? <==> channel.StrValue? && channel.s in c.channels && |c.channels| > 1)
      && (r.Ok? ==>
            exists i ::
              && 0 <= i < |c.channels| && c.channels[i] == channel.s
              && (forall k :: 0 <= k < i ==> c.channels[k] != channel.s)
              && r.value.signals == c.signals[..i] + c.signals[i + 1..]
              && r.value.channels == c.channels[..i] + c.channels[i + 1..]
              && r.value.sf == c.sf[..i] + c.sf[i + 1..])
      && (r.Ok? ==> WellFormed(r.value) && |r.value.channels| == |c.channels| - 1 && r.value.duration == c.duration)
  {
    var r := DeleteSpec(c, channel);
    if r.Ok? {
      var i := IndexOf(c.channels, channel.s).value;
      var d := r.value;
      forall k | 0 <= k < |d.sf| ensures d.sf[k].Real() != 0.0 {
        if k < i {
          assert d.sf[k] == c.sf[k];
        } else {
          assert d.sf[k] == c.sf[k + 1];
        }
      }
    }
  }

  /** Deleting a channel just added under a fresh name restores the
      recording. */
  lemma DeleteUndoesAdd(c: Contents, signal: seq<real>, name: string, sfv: Value)
    requires WellFormed(c) && name !in c.channels && AddSpec(c, signal, StrValue(name), sfv).Ok?
    ensures DeleteSpec(AddSpec(c, signal, StrValue(name), sfv).value, StrValue(name)) == Ok(c)
  {
    AddKeeps(c, signal, StrValue(name), sfv);
    var a := AddSpec(c, signal, StrValue(name), sfv).value;
    var n := |c.channels|;
    assert IndexOf(a.channels, name) == Some(n);
    assert a.signals[..n] + a.signals[n + 1..] == c.signals;
    assert a.channels[..n] + a.channels[n + 1..] == c.channels;
    assert a.sf[..n] + a.sf[n + 1..] == c.sf;
  }

  // ---- rename_channels ----

  /** `rename_channels(mapping)` on the channel list, with the mapping's
      items in insertion order: each key renames its first occurrence, and
      the first key that is missing stops the renaming with IndexError after
      the earlier renames have been made. */
  function Renamed(chs: seq<string>, mapping: seq<(string, string)>): (seq<string>, Option<Exc>)
    decreases |mapping|
  {
    if |mapping| == 0 then (chs, None)
    else match IndexOf(chs, mapping[0].0)
      case None => (chs, Some(IndexError))
      case Some(i) => Renamed(chs[i := mapping[0].1], mapping[1..])
  }

  /** Renaming keeps the number of channels, and the only error is
      IndexError. */
  lemma {:induction false} RenamedShape(chs: seq<string>, mapping: seq<(string, string)>)
    ensures |Renamed(chs, mapping).0| == |chs|
    ensures Renamed(chs, mapping).1.Some? ==> Renamed(chs, mapping).1 == Some(IndexError)
    decreases |mapping|
  {
    if |mapping| > 0 {
      match IndexOf(chs, mapping[0].0)
      case None =>
      case Some(i) => RenamedShape(chs[i := mapping[0].1], mapping[1..]);
    }
  }

  /** The `mapping` argument of `rename_channels`: a dict, given as its
      items in insertion order, or any other value. Keys and new names are
      strings here; Python would store any value as the new name. */
  datatype Mapping = Dict(items: seq<(string, string)>) | NotDict

  /** `rename_channels(mapping)` on the channel list: a mapping that is not
      a dict raises TypeError before any rename. */
  function Rename(chs: seq<string>, mapping: Mapping): (seq<string>, Option<Exc>)
  {
    match mapping
    case NotDict => (chs, Some(TypeError))
    case Dict(items) => Renamed(chs, items)
  }

  /** Renaming keeps the number of channels; a mapping that is not a dict
      changes nothing and raises TypeError, and a dict can only raise
      IndexError. */
  lemma RenameErrors(chs: seq<string>, mapping: Mapping)
    ensures |Rename(chs, mapping).0| == |chs|
    ensures mapping.NotDict? ==> Rename(chs, mapping) == (chs, Some(TypeError))
    ensures mapping.Dict? && Rename(chs, mapping).1.Some? ==> Rename(chs, mapping).1 == Some(IndexError)
  {
    if mapping.Dict? {
      RenamedShape(chs, mapping.items);
    }
  }

  /** One key: its first occurrence gets the new name and nothing else
      changes; a missing key changes nothing and raises IndexError. */
  lemma RenamedOne(chs: seq<string>, key: string, name: string)
    ensures key in chs ==>
      exists i ::
        && 0 <= i < |chs| && chs[i] == key
        && (forall k :: 0 <= k < i ==> chs[k] != key)
        && Renamed(chs, [(key, name)]) == (chs[i := name], None)
    ensures key !in chs ==> Renamed(chs, [(key, name)]) == (chs, Some(IndexError))
  {
    if key in chs {
      var i := IndexOf(chs, key).value;
      assert [(key, name)][1..] == [];
      assert Renamed(chs, [(key, name)]) == (chs[i := name], None);
    }
  }

  /** Keys are applied in order: renaming with `m1 + m2` is renaming with
      `m1` and then, if that did not fail, with `m2`; so the renames made
      before a failing key persist. */
  lemma {:induction false} RenamedSplit(chs: seq<string>, m1: seq<(string, string)>, m2: seq<(string, string)>)
    ensures Renamed(chs, m1 + m2) ==
      (var r1 := Renamed(chs, m1); if r1.1.Some? then r1 else Renamed(r1.0, m2))
    decreases |m1|
  {
    if |m1| == 0 {
      assert m1 + m2 == m2;
    } else {
      assert (m1 + m2)[0] == m1[0];
      assert (m1 + m2)[1..] == m1[1..] + m2;
      match IndexOf(chs, m1[0].0)
      case None =>
      case Some(i) => RenamedSplit(chs[i := m1[0].1], m1[1..], m2);
    }
  }

  /** Renaming `a` to a fresh name `b` and then `b` back to `a` restores the
      channel list. */
  lemma RenamedBack(chs: seq<string>, a: string, b: string)
    requires a in chs && b !in chs
    ensures Renamed(chs, [(a, b), (b, a)]) == (chs, None)
  {
    var i := IndexOf(chs, a).value;
    var m := [(a, b), (b, a)];
    var c1 := chs[i := b];
    assert m[1..] == [(b, a)];
    assert Renamed(chs, m) == Renamed(c1, [(b, a)]);
    IndexOfFresh(chs, i, b);
    assert [(b, a)][1..] == [];
    assert Renamed(c1, [(b, a)]) == Renamed(c1[i := a], []);
    assert c1[i := a] == chs;
  }

  /** A name not in the list, written at position `i`, is first found there. */
  lemma IndexOfFresh(chs: seq<string>, i: int, b: string)
    requires 0 <= i < |chs| && b !in chs
    ensures IndexOf(chs[i := b], b) == Some(i)
  {
    assert chs[i := b][i] == b;
  }

  // ---- differential ----

  function Minus(a: seq<real>, b: seq<real>): (r: seq<real>)
    requires |a| == |b|
    ensures |r| == |a|
  {
    seq(|a|, k requires 0 <= k < |a| => a[k] - b[k])
  }

  /** `differential(chan1, chan2)`: ValueError unless both names are given,
      IndexError for a name that is not a channel, ValueError for channels
      of different lengths; otherwise `add` of `chan1 - chan2` under the
      name `"{chan1}_{chan2}_diff"` at `chan1`'s frequency. */
  function DiffSpec(c: Contents, chan1: Value, chan2: Value): Result<Contents>
    requires WellFormed(c)
  {
    if chan1.NoneValue? || chan2.NoneValue? then Err(ValueError)
    else if !(chan1.StrValue? && chan1.s in c.channels) then Err(IndexError)
    else if !(chan2.StrValue? && chan2.s in c.channels) then Err(IndexError)
    else
      var i := IndexOf(c.channels, chan1.s).value;
      var j := IndexOf(c.channels, chan2.s).value;
      if |c.signals[i]| != |c.signals[j]| then Err(ValueError)
      else AddSpec(c, Minus(c.signals[i], c.signals[j]), StrValue(chan1.s + "_" + chan2.s + "_diff"), NumValue(c.sf[i]))
  }

  /** The errors of `differential`; on success a new last channel holds the
      sample-by-sample difference of the two named channels (their first
      occurrences), named `"{chan1}_{chan2}_diff"`, at the first one's
      frequency, and every existing channel is kept. */
  lemma DiffCases(c: Contents, chan1: Value, chan2: Value)
    requires WellFormed(c)
    ensures var r := DiffSpec(c, chan1, chan2);
      && (chan1.NoneValue? || chan2.NoneValue? ==> r == Err(ValueError))
      && (!chan1.NoneValue? && !chan2.NoneValue? && !(chan1.StrValue? && chan1.s in c.channels) ==> r == Err(IndexError))
      && (chan1.StrValue? && chan1.s in c.channels && !chan2.NoneValue? && !(chan2.StrValue? && chan2.s in c.channels)
          ==> r == Err(IndexError))
      && (chan1.StrValue? && chan1.s in c.channels && chan2.StrValue? && chan2.s in c.channels
            && |c.signals[IndexOf(c.channels, chan1.s).value]| != |c.signals[IndexOf(c.channels, chan2.s).value]|
          ==> r == Err(ValueError))
      && (r.Ok? ==> chan1.StrValue? && chan2.StrValue? && chan1.s in c.channels && chan2.s in c.channels)
      && (r.Ok? ==>
            var i := IndexOf(c.channels, chan1.s).value;
            var j := IndexOf(c.channels, chan2.s).value;
            var n := |c.channels|;
            && |c.signals[i]| == |c.signals[j]|
            && WellFormed(r.value) && |r.value.channels| == n + 1 && r.value.duration == c.duration
            && r.value.signals[..n] == c.signals && r.value.channels[..n] == c.channels && r.value.sf[..n] == c.sf
            && r.value.channels[n] == chan1.s + "_" + chan2.s + "_diff"
            && r.value.sf[n] == c.sf[i]
            && |r.value.signals[n]| == |c.signals[i]|
            && forall k :: 0 <= k < |c.signals[i]| ==> r.value.signals[n][k] == c.signals[i][k] - c.signals[j][k])
  {
    var r := DiffSpec(c, chan1, chan2);
    if r.Ok? {
      var i := IndexOf(c.channels, chan1.s).value;
      var j := IndexOf(c.channels, chan2.s).value;
      var name := StrValue(chan1.s + "_" + chan2.s + "_diff");
      AddKeeps(c, Minus(c.signals[i], c.signals[j]), name, NumValue(c.sf[i]));
    }
  }

  // ---- crop ----

  /** Channel `i` cut to `[int(start * sf_i), int(end * sf_i))`. */
  function CropSignals(c: Contents, start: int, end: int): (r: seq<seq<real>>)
    requires |c.sf| == |c.signals|
    ensures |r| == |c.signals|
  {
    seq(|c.signals|, i requires 0 <= i < |c.signals| =>
      Slice(c.signals[i], Samples(start, c.sf[i].Real()), Samples(end, c.sf[i].Real())))
  }

  /** What `crop` returns, and the caller's `time_period` list afterwards. */
  datatype CropOut = CropOut(result: Result<Contents>, period: Value)

  /** `crop(time_period)`: TypeError for a non-list, ValueError unless it
      holds two items, TypeError unless both are non-negative ints,
      ValueError unless start < end; then the end is clamped to the
      duration in the caller's list itself, each channel is cut to the
      period and a new `MiData` is built from the pieces. */
  function CropSpec(c: Contents, tp: Value): CropOut
    requires |c.sf| == |c.signals|
  {
    if !tp.ListValue? then CropOut(Err(TypeError), tp)
    else if |tp.items| != 2 then CropOut(Err(ValueError), tp)
    else
      var a, b := tp.items[0], tp.items[1];
      if !(a.IntValue? && b.IntValue? && a.i >= 0 && b.i >= 0) then CropOut(Err(TypeError), tp)
      else if a.i >= b.i then CropOut(Err(ValueError), tp)
      else
        var e := if b.i > c.duration then c.duration else b.i;
        CropOut(Build(CropSignals(c, a.i, e), c.channels, c.sf), ListValue([a, IntValue(e)]))
  }

  /** The errors of `crop`; the period list is changed only by clamping its
      end, and only once all checks have passed. */
  lemma CropCases(c: Contents, tp: Value)
    requires |c.sf| == |c.signals|
    ensures var o := CropSpec(c, tp);
      && (!tp.ListValue? ==> o == CropOut(Err(TypeError), tp))
      && (tp.ListValue? && |tp.items| != 2 ==> o == CropOut(Err(ValueError), tp))
      && (tp.ListValue? && |tp.items| == 2
            && !(tp.items[0].IntValue? && tp.items[0].i >= 0 && tp.items[1].IntValue? && tp.items[1].i >= 0)
          ==> o == CropOut(Err(TypeError), tp))
      && (tp.ListValue? && |tp.items| == 2 && tp.items[0].IntValue? && tp.items[1].IntValue?
            && 0 <= tp.items[1].i <= tp.items[0].i
          ==> o == CropOut(Err(ValueError), tp))
      && (o.period != tp ==>
            && tp.ListValue? && |tp.items| == 2 && tp.items[1].IntValue? && tp.items[1].i > c.duration
            && o.period == ListValue([tp.items[0], IntValue(c.duration)]))
  {
    if tp.ListValue? && |tp.items| == 2 {
      var a, b := tp.items[0], tp.items[1];
      if b.IntValue? && b.i <= c.duration {
        assert IntValue(b.i) == b;
        assert [a, b] == tp.items;
      }
    }
  }

  /** `(e - s) * k` samples lie between the cuts at `s * k` and `e * k`. */
  lemma CutLength(s: int, e: int, k: int)
    ensures e * k - s * k == (e - s) * k
  {
  }

  /** Channel `i` of an aligned whole-rate recording, cut to a period inside
      the recording, holds the samples of those seconds and is aligned to
      their number. */
  lemma CropChannel(c: Contents, s: nat, e: int, i: int)
    requires WholeRates(c.sf) && Aligned(c) && 0 <= i < |c.signals|
    requires s < e <= c.duration
    ensures var k := Rate(c.sf[i]);
      0 <= s * k <= e * k <= |c.signals[i]|
      && CropSignals(c, s, e)[i] == c.signals[i][s * k .. e * k]
      && |CropSignals(c, s, e)[i]| == (e - s) * k
  {
    var k := Rate(c.sf[i]);
    assert c.sf[i].Real() == k as real && k > 0;
    WholeProduct(s, k);
    WholeProduct(e, k);
    CutLength(s, e, k);
    IntScale(0, s, k);
    IntScale(s, e, k);
    IntScale(e, c.duration, k);
    assert |c.signals[i]| == c.duration * k;
  }

  lemma IntScale(a: int, b: int, k: int)
    requires a <= b && k >= 0
    ensures a * k <= b * k
  {
    assert (b - a) * k >= 0;
  }

  /** A period that starts at or after the end leaves channel `i` empty. */
  lemma CropChannelPast(c: Contents, s: nat, i: int)
    requires WholeRates(c.sf) && Aligned(c) && 0 <= i < |c.signals|
    requires s >= c.duration
    ensures CropSignals(c, s, c.duration)[i] == []
  {
    var k := Rate(c.sf[i]);
    assert c.sf[i].Real() == k as real;
    WholeProduct(s, k);
    WholeProduct(c.duration, k);
    assert s * k >= c.duration * k;
  }

  /** With whole-number rates, cropping a recording whose channels hold
      exactly `duration * sf` samples to `[s, e)` gives a recording of
      `min(e, duration) - s` seconds (none when the period starts at or
      after the end) whose channel `i` is the slice from `s * sf_i` to
      `min(e, duration) * sf_i` of the original, which holds exactly that
      many seconds of samples; the channels and frequencies are kept, and
      the period list ends up `[s, min(e, duration)]`. */
  lemma CropWhole(c: Contents, s: nat, e: nat)
    requires WholeRates(c.sf) && Aligned(c) && |c.channels| == |c.signals| >= 1
    requires s < e
    ensures var e' := if e > c.duration then c.duration else e;
      var len := if s < e' then e' - s else 0;
      var o := CropSpec(c, ListValue([IntValue(s), IntValue(e)]));
      && o.period == ListValue([IntValue(s), IntValue(e')])
      && o.result.Ok?
      && o.result.value.channels == c.channels && o.result.value.sf == c.sf
      && o.result.value.duration == len
      && |o.result.value.signals| == |c.signals|
      && (forall i :: 0 <= i < |c.signals| ==>
            && o.result.value.signals[i] == Slice(c.signals[i], s * Rate(c.sf[i]), e' * Rate(c.sf[i]))
            && |o.result.value.signals[i]| == len * Rate(c.sf[i]))
  {
    var e' := if e > c.duration then c.duration else e;
    CropChecksPass(c, s, e);
    var cut := CropSignals(c, s, e');
    var len := if s < e' then e' - s else 0;
    var d := Contents(cut, c.channels, c.sf, len);
    forall i | 0 <= i < |c.signals|
      ensures cut[i] == Slice(c.signals[i], s * Rate(c.sf[i]), e' * Rate(c.sf[i]))
      ensures |cut[i]| == len * Rate(c.sf[i])
    {
      CropCut(c, s, e', i);
    }
    assert Aligned(d);
    RebuildWhole(d);
  }

  /** Channel `i` of the cut, for a period that ends inside the recording. */
  lemma CropCut(c: Contents, s: nat, e: int, i: int)
    requires WholeRates(c.sf) && Aligned(c) && 0 <= i < |c.signals|
    requires e <= c.duration && (s < e || e == c.duration)
    ensures CropSignals(c, s, e)[i] == Slice(c.signals[i], s * Rate(c.sf[i]), e * Rate(c.sf[i]))
    ensures |CropSignals(c, s, e)[i]| == (if s < e then e - s else 0) * Rate(c.sf[i])
  {
    var k := Rate(c.sf[i]);
    assert c.sf[i].Real() == k as real;
    WholeProduct(s, k);
    WholeProduct(e, k);
    if s < e {
      CropChannel(c, s, e, i);
    } else {
      CropChannelPast(c, s, i);
    }
  }

  /** A period of two non-negative ints with `s < e` passes every check. */
  lemma CropChecksPass(c: Contents, s: nat, e: nat)
    requires |c.sf| == |c.signals| && s < e
    ensures var e' := if e > c.duration then c.duration else e;
      CropSpec(c, ListValue([IntValue(s), IntValue(e)]))
        == CropOut(Build(CropSignals(c, s, e'), c.channels, c.sf), ListValue([IntValue(s), IntValue(e')]))
  {
  }

  // ---- pick_chs ----

  /** The first index of each requested name, in request order; a request
      that is not a channel name raises IndexError. */
  function Picks(chs: seq<string>, xs: seq<Value>): (r: Result<seq<nat>>)
    ensures r.Ok? <==> forall k :: 0 <= k < |xs| ==> xs[k].StrValue? && xs[k].s in chs
    ensures r.Err? ==> r.exc == IndexError
    ensures r.Ok? ==> |r.value| == |xs|
    ensures r.Ok? ==> forall k :: 0 <= k < |xs| ==> xs[k].StrValue? && IndexOf(chs, xs[k].s) == Some(r.value[k])
  {
    if |xs| == 0 then Ok([])
    else match Picks(chs, xs[..|xs| - 1])
      case Err(e) => Err(e)
      case Ok(idx) =>
        var x := xs[|xs| - 1];
        if x.StrValue? && x.s in chs then Ok(idx + [IndexOf(chs, x.s).value])
        else Err(IndexError)
  }

  function Gather<T>(s: seq<T>, idx: seq<nat>): (r: seq<T>)
    requires forall k :: 0 <= k < |idx| ==> idx[k] < |s|
    ensures |r| == |idx|
  {
    seq(|idx|, k requires 0 <= k < |idx| => s[idx[k]])
  }

  function StrValues(chs: seq<string>): (r: seq<Value>)
    ensures |r| == |chs| && forall k :: 0 <= k < |chs| ==> r[k] == StrValue(chs[k])
  {
    seq(|chs|, k requires 0 <= k < |chs| => StrValue(chs[k]))
  }

  /** The names `pick_chs` walks through: all channels for `None` or `[]`,
      TypeError for anything else that is not a list. */
  function PickNames(chs: seq<string>, names: Value): Result<seq<Value>>
  {
    if names.NoneValue? || names == ListValue([]) then Ok(StrValues(chs))
    else if !names.ListValue? then Err(TypeError)
    else Ok(names.items)
  }

  /** `pick_chs(ch_names)`: the requested channels, in request order, passed
      through the constructor again. */
  function PickSpec(c: Contents, names: Value): Result<Contents>
    requires WellFormed(c)
  {
    match PickNames(c.channels, names)
    case Err(e) => Err(e)
    case Ok(xs) =>
      match Picks(c.channels, xs)
      case Err(e) => Err(e)
      case Ok(idx) => Build(Gather(c.signals, idx), Gather(c.channels, idx), Gather(c.sf, idx))
  }

  predicate Distinct(chs: seq<string>)
  {
    forall i, j :: 0 <= i < j < |chs| ==> chs[i] != chs[j]
  }

  lemma IndexOfDistinct(chs: seq<string>, k: int)
    requires Distinct(chs) && 0 <= k < |chs|
    ensures IndexOf(chs, chs[k]) == Some(k)
  {
  }

  /** On a recording with whole rates, aligned channels and distinct names,
      picking all channels gives the same recording. */
  lemma PickAllWhole(c: Contents)
    requires WellFormed(c) && WholeRates(c.sf) && Aligned(c) && Distinct(c.channels)
    ensures PickSpec(c, NoneValue) == Ok(c)
  {
    var xs := StrValues(c.channels);
    var idx := Picks(c.channels, xs).value;
    forall k | 0 <= k < |idx| ensures idx[k] == k {
      IndexOfDistinct(c.channels, k);
    }
    assert Gather(c.signals, idx) == c.signals;
    assert Gather(c.channels, idx) == c.channels;
    assert Gather(c.sf, idx) == c.sf;
    RebuildWhole(c);
  }

  /** Picking every channel of a recording at 2.5 Hz with three samples
      loses its only second, because the picked channels are built again. */
  lemma PickAllLosesSecond()
    ensures var c := Build([[0.0, 0.0, 0.0]], ["eeg"], [Float(2.5)]).value;
      PickSpec(c, NoneValue) == Ok(Contents([[]], ["eeg"], [Float(2.5)], 0)) && c.duration == 1
  {
    RebuildLosesSecond();
    PickAllOne(Build([[0.0, 0.0, 0.0]], ["eeg"], [Float(2.5)]).value);
  }

  /** Picking every channel of the one-channel recording of two samples at
      2.5 Hz hands those same lists to the constructor again. */
  lemma PickAllOne(c: Contents)
    requires c == Contents([[0.0, 0.0]], ["eeg"], [Float(2.5)], 1)
    ensures WellFormed(c) && PickSpec(c, NoneValue) == Build([[0.0, 0.0]], ["eeg"], [Float(2.5)])
  {
    var xs := StrValues(c.channels);
    assert xs == [StrValue("eeg")];
    assert PickNames(c.channels, NoneValue) == Ok(xs);
    assert xs[..0] == [];
    assert Picks(c.channels, xs) == Ok([] + [0]);
    assert [] + [0] == [0];
    assert Picks(c.channels, xs) == Ok([0]);
    assert Gather(c.signals, [0]) == [[0.0, 0.0]];
    assert Gather(c.channels, [0]) == ["eeg"];
    assert Gather(c.sf, [0]) == [Float(2.5)];
  }

  /** `pick_chs` as evidently intended: the requested channels keep their
      samples and the recording keeps its duration. */
  function PickKept(c: Contents, names: Value): Result<Contents>
    requires WellFormed(c)
  {
    match PickNames(c.channels, names)
    case Err(e) => Err(e)
    case Ok(xs) =>
      match Picks(c.channels, xs)
      case Err(e) => Err(e)
      case Ok(idx) =>
        // No input reaches the empty branch: an absent or empty request picks
        // every channel, and a well-formed recording has one. It stands for
        // the constructor's ValueError on an empty list.
        if |idx| == 0 then Err(ValueError)
        else Ok(Contents(Gather(c.signals, idx), Gather(c.channels, idx), Gather(c.sf, idx), c.duration))
  }

  /** The intended pick keeps the recording well formed, holds exactly the
      requested channels, each with its own samples and frequency, and
      picking all channels (with distinct names) is the identity. */
  lemma PickKeptSpec(c: Contents, names: Value)
    requires WellFormed(c)
    ensures var r := PickKept(c, names);
      && (r.Ok? ==> WellFormed(r.value) && r.value.duration == c.duration)
      && (r.Ok? ==> names.ListValue? && |names.items| > 0 ==>
            |r.value.channels| == |names.items| &&
            forall k :: 0 <= k < |names.items| ==> StrValue(r.value.channels[k]) == names.items[k])
      && (names.NoneValue? && Distinct(c.channels) ==> r == Ok(c))
  {
    var r := PickKept(c, names);
    if r.Ok? {
      var xs := PickNames(c.channels, names).value;
      var idx := Picks(c.channels, xs).value;
      forall k | 0 <= k < |idx| ensures r.value.sf[k].Real() != 0.0 && StrValue(r.value.channels[k]) == xs[k] {
        assert r.value.sf[k] == c.sf[idx[k]];
      }
    }
    if names.NoneValue? && Distinct(c.channels) {
      var xs := StrValues(c.channels);
      var idx := Picks(c.channels, xs).value;
      forall k | 0 <= k < |idx| ensures idx[k] == k {
        IndexOfDistinct(c.channels, k);
      }
      assert Gather(c.signals, idx) == c.signals;
      assert Gather(c.channels, idx) == c.channels;
      assert Gather(c.sf, idx) == c.sf;
    }
  }

  lemma GatherAppend<T>(s: seq<T>, idx: seq<nat>, i: nat)
    requires (forall k :: 0 <= k < |idx| ==> idx[k] < |s|) && i < |s|
    ensures Gather(s, idx + [i]) == Gather(s, idx) + [s[i]]
  {
  }

  /** The loop of `pick_chs`: each requested name is looked up in order and
      its signal, name and rate are appended; a name that is not a channel
      raises IndexError. */
  method PickLoop(signals: seq<seq<real>>, channels: seq<string>, sf: seq<Num>, xs: seq<Value>)
    returns (r: Result<(seq<seq<real>>, seq<string>, seq<Num>)>)
    requires |signals| == |channels| == |sf|
    ensures r.Err? <==> Picks(channels, xs).Err?
    ensures r.Err? ==> r.exc == IndexError
    ensures r.Ok? ==> var idx := Picks(channels, xs).value;
      r.value == (Gather(signals, idx), Gather(channels, idx), Gather(sf, idx))
  {
    var sigs: seq<seq<real>> := [];
    var sfs: seq<Num> := [];
    var chans: seq<string> := [];
    ghost var idx: seq<nat> := [];
    for j := 0 to |xs|
      invariant Picks(channels, xs[..j]) == Ok(idx)
      invariant forall k :: 0 <= k < |idx| ==> idx[k] < |channels|
      invariant sigs == Gather(signals, idx) && sfs == Gather(sf, idx) && chans == Gather(channels, idx)
    {
      var x := xs[j];
      assert xs[..j + 1][..j] == xs[..j];
      if !(x.StrValue? && x.s in channels) {
        return Err(IndexError);
      }
      var i := IndexOf(channels, x.s).value;
      GatherAppend(signals, idx, i);
      GatherAppend(sf, idx, i);
      GatherAppend(channels, idx, i);
      sigs := sigs + [signals[i]];
      sfs := sfs + [sf[i]];
      chans := chans + [x.s];
      idx := idx + [i];
    }
    assert xs[..|xs|] == xs;
    return Ok((sigs, chans, sfs));
  }

  /** A `MiData` object: three parallel lists changed in place by `add`,
      `delete` and `rename_channels`, the channel count and the common
      duration in seconds. */
  class MiData {
    var signals: seq<seq<real>>
    var channels: seq<string>
    var sf: seq<Num>
    var nChannels: int
    var duration: int

    function State(): Contents
      reads this
    {
      Contents(signals, channels, sf, duration)
    }

    predicate Valid()
      reads this
    {
      nChannels == |channels| && WellFormed(State())
    }

    /** `MiData(signals, channels, sf)` for arguments the constructor
        accepts; `New` handles the rest. */
    constructor (signals0: seq<seq<real>>, channels0: seq<string>, sf0: seq<Num>)
      requires Build(signals0, channels0, sf0).Ok?
      ensures Valid() && State() == Build(signals0, channels0, sf0).value
    {
      BuildContents(signals0, channels0, sf0);
      var c := Build(signals0, channels0, sf0).value;
      signals := c.signals;
      channels := c.channels;
      nChannels := |c.channels|;
      sf := c.sf;
      duration := c.duration;
    }

    /** `MiData(signals, channels, sf)`, raising what the constructor raises. */
    static method New(signals0: seq<seq<real>>, channels0: seq<string>, sf0: seq<Num>) returns (r: Result<MiData>)
      ensures r.Err? <==> Build(signals0, channels0, sf0).Err?
      ensures r.Err? ==> r.exc == Build(signals0, channels0, sf0).exc
      ensures r.Ok? ==> fresh(r.value) && r.value.Valid() && r.value.State() == Build(signals0, channels0, sf0).value
    {
      var b := Build(signals0, channels0, sf0);
      if b.Err? {
        return Err(b.exc);
      }
      var m := new MiData(signals0, channels0, sf0);
      return Ok(m);
    }

    /** `add(signal, channel, sf)`. */
    method Add(signal: seq<real>, channel: Value, sfv: Value) returns (err: Option<Exc>)
      requires Valid()
      modifies this
      ensures Valid()
      ensures var r := AddSpec(old(State()), signal, channel, sfv);
        && (r.Ok? ==> err.None? && State() == r.value)
        && (r.Err? ==> err == Some(r.exc) && State() == old(State()))
    {
      var n := AsNum(sfv);
      if n.None? {
        return Some(TypeError);
      }
      var d := FloorDiv(|signal|, n.value.Real());
      if d.Err? {
        return Some(d.exc);
      }
      if Abs(d.value - duration) > 10 {
        return Some(ValueError);
      }
      if !channel.StrValue? {
        return Some(TypeError);
      }
      AddKeeps(State(), signal, channel, sfv);
      signals := signals + [signal];
      channels := channels + [channel.s];
      nChannels := |channels|;
      sf := sf + [n.value];
      return None;
    }

    /** `delete(channel)`. */
    method Delete(channel: Value) returns (err: Option<Exc>)
      requires Valid()
      modifies this
      ensures Valid()
      ensures var r := DeleteSpec(old(State()), channel);
        && (r.Ok? ==> err.None? && State() == r.value)
        && (r.Err? ==> err == Some(r.exc) && State() == old(State()))
    {
      if !channel.StrValue? {
        return Some(TypeError);
      }
      if channel.s !in channels {
        return Some(IndexError);
      }
      if |channels| == 1 {
        return Some(ValueError);
      }
      DeleteCases(State(), channel);
      var i := IndexOf(channels, channel.s).value;
      signals := RemoveAt(signals, i);
      channels := RemoveAt(channels, i);
      sf := RemoveAt(sf, i);
      nChannels := |channels|;
      return None;
    }

    /** `rename_channels(mapping)`. */
    method RenameChannels(mapping: Mapping) returns (err: Option<Exc>)
      requires Valid()
      modifies this
      ensures Valid()
      ensures (channels, err) == Rename(old(channels), mapping)
      ensures signals == old(signals) && sf == old(sf) && duration == old(duration)
    {
      if mapping.NotDict? {
        return Some(TypeError);
      }
      var items := mapping.items;
      for j := 0 to |items|
        invariant Valid()
        invariant Renamed(channels, items[j..]) == Renamed(old(channels), items)
        invariant signals == old(signals) && sf == old(sf) && duration == old(duration)
      {
        var key := items[j].0;
        if key !in channels {
          return Some(IndexError);
        }
        var i := IndexOf(channels, key).value;
        assert items[j..][1..] == items[j + 1..];
        channels := channels[i := items[j].1];
      }
      assert items[|items|..] == [];
      return None;
    }

    /** `differential(chan1, chan2)`. */
    method Differential(chan1: Value, chan2: Value) returns (err: Option<Exc>)
      requires Valid()
      modifies this
      ensures Valid()
      ensures var r := DiffSpec(old(State()), chan1, chan2);
        && (r.Ok? ==> err.None? && State() == r.value)
        && (r.Err? ==> err == Some(r.exc) && State() == old(State()))
    {
      if chan1.NoneValue? || chan2.NoneValue? {
        return Some(ValueError);
      }
      if !(chan1.StrValue? && chan1.s in channels) {
        return Some(IndexError);
      }
      if !(chan2.StrValue? && chan2.s in channels) {
        return Some(IndexError);
      }
      var i := IndexOf(channels, chan1.s).value;
      var j := IndexOf(channels, chan2.s).value;
      if |signals[i]| != |signals[j]| {
        return Some(ValueError);
      }
      err := Add(Minus(signals[i], signals[j]), StrValue(chan1.s + "_" + chan2.s + "_diff"), NumValue(sf[i]));
    }

    /** `crop(time_period)`: the new recording, and the caller's list as
        `crop` leaves it. */
    method Crop(tp: Value) returns (r: Result<MiData>, period: Value)
      requires Valid()
      ensures var o := CropSpec(State(), tp);
        && period == o.period
        && (r.Err? <==> o.result.Err?)
        && (r.Err? ==> r.exc == o.result.exc)
        && (r.Ok? ==> fresh(r.value) && r.value.Valid() && r.value.State() == o.result.value)
    {
      period := tp;
      if !tp.ListValue? {
        return Err(TypeError), period;
      }
      if |tp.items| != 2 {
        return Err(ValueError), period;
      }
      var a, b := tp.items[0], tp.items[1];
      if !(a.IntValue? && b.IntValue? && a.i >= 0 && b.i >= 0) {
        return Err(TypeError), period;
      }
      if a.i >= b.i {
        return Err(ValueError), period;
      }
      var e := b.i;
      if e > duration {
        e := duration;
        period := ListValue([a, IntValue(e)]);
      } else {
        assert tp.items == [a, IntValue(e)];
      }
      r := New(CropSignals(State(), a.i, e), channels, sf);
    }

    /** `pick_chs(ch_names)`. */
    method PickChs(names: Value) returns (r: Result<MiData>)
      requires Valid()
      ensures var p := PickSpec(State(), names);
        && (r.Err? <==> p.Err?)
        && (r.Err? ==> r.exc == p.exc)
        && (r.Ok? ==> fresh(r.value) && r.value.Valid() && r.value.State() == p.value)
    {
      var xs: seq<Value>;
      if names.NoneValue? || names == ListValue([]) {
        xs := StrValues(channels);
      } else if !names.ListValue? {
        return Err(TypeError);
      } else {
        xs := names.items;
      }
      var picked := PickLoop(signals, channels, sf, xs);
      if picked.Err? {
        return Err(picked.exc);
      }
      var (sigs, chans, sfs) := picked.value;
      r := New(sigs, chans, sfs);
    }
  }
}
