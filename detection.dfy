/** The discrete steps of the slow-wave and spindle detectors. The band
    filtered samples, the peak indices found by the peak finder and the
    above-threshold flags of the spectrogram are inputs. */
module Detection {
  import opened Py
  import opened Annotation

  // ---- zero crossings ----

  /** `np.signbit` on an exact real. */
  predicate SignBit(x: real)
  {
    x < 0.0
  }

  /** The samples at `i` and `i + 1` lie on different sides of zero (zero
      counts as non-negative). */
  predicate Crosses(band: seq<real>, i: int)
    requires 0 <= i < |band| - 1
  {
    SignBit(band[i]) != SignBit(band[i + 1])
  }

  predicate Increasing(s: seq<int>)
  {
    forall a, b :: 0 <= a < b < |s| ==> s[a] < s[b]
  }

  /** The crossings at indices below `n`, in order. */
  function CrossingsBelow(band: seq<real>, n: nat): (zc: seq<int>)
    requires n < |band|
    ensures Increasing(zc)
    ensures forall k :: 0 <= k < |zc| ==> 0 <= zc[k] < n
    ensures forall i :: 0 <= i < n ==> (i in zc <==> Crosses(band, i))
  {
    if n == 0 then []
    else
      var z := CrossingsBelow(band, n - 1);
      if Crosses(band, n - 1) then z + [n - 1] else z
  }

  /** `np.where(np.diff(np.signbit(band)))[0]`: exactly the indices where
      the sign bit changes, in increasing order. */
  function ZeroCrossings(band: seq<real>): (zc: seq<int>)
    ensures Increasing(zc)
    ensures forall k :: 0 <= k < |zc| ==> 0 <= zc[k] < |band| - 1 && Crosses(band, zc[k])
    ensures forall i :: 0 <= i < |band| - 1 && Crosses(band, i) ==> i in zc
  {
    if |band| == 0 then [] else CrossingsBelow(band, |band| - 1)
  }

  // ---- the neg-peak -> zero-crossing -> pos-peak matching ----

  /** The position of the first element of `s` above `x`. */
  function FirstAbove(s: seq<int>, x: int): (r: Option<nat>)
    ensures r.None? <==> forall k :: 0 <= k < |s| ==> s[k] <= x
    ensures r.Some? ==> r.value < |s| && s[r.value] > x && forall k :: 0 <= k < r.value ==> s[k] <= x
  {
    if |s| == 0 then None
    else if s[0] > x then Some(0)
    else match FirstAbove(s[1..], x)
      case None => None
      case Some(j) => Some(j + 1)
  }

  /** `for v in s: if v > x: ...; break`: the loop stops at the first
      element above `x`. */
  method FindFirstAbove(s: seq<int>, x: int) returns (r: Option<nat>)
    ensures r == FirstAbove(s, x)
  {
    for i := 0 to |s|
      invariant forall k :: 0 <= k < i ==> s[k] <= x
    {
      if s[i] > x {
        return Some(i);
      }
    }
    return None;
  }

  /** The first position above a larger bound is no earlier. */
  lemma FirstAboveMono(s: seq<int>, x: int, y: int)
    requires x <= y && FirstAbove(s, x).Some? && FirstAbove(s, y).Some?
    ensures FirstAbove(s, x).value <= FirstAbove(s, y).value
  {
  }

  /** An accepted slow wave: a negative peak, the zero crossing after it and
      the positive peak after that. */
  datatype Swa = Swa(neg: int, zero: int, pos: int)

  /** `True not in (xs >= 0)`. */
  predicate AllNegative(xs: seq<real>)
  {
    forall k :: 0 <= k < |xs| ==> xs[k] < 0.0
  }

  /** `True not in (xs <= 0)`. */
  predicate AllPositive(xs: seq<real>)
  {
    forall k :: 0 <= k < |xs| ==> xs[k] > 0.0
  }

  /** The zero crossing hold list of the held waves `h`. */
  function ZerosOf(h: seq<Swa>): (z: seq<int>)
    ensures |z| == |h| && forall i :: 0 <= i < |h| ==> z[i] == h[i].zero
  {
    seq(|h|, i requires 0 <= i < |h| => h[i].zero)
  }

  /** The negative peak hold list of the held waves `h`. */
  function NegsOf(h: seq<Swa>): (z: seq<int>)
    ensures |z| == |h| && forall i :: 0 <= i < |h| ==> z[i] == h[i].neg
  {
    seq(|h|, i requires 0 <= i < |h| => h[i].neg)
  }

  /** The positive peak hold list of the held waves `h`. */
  function PosOf(h: seq<Swa>): (z: seq<int>)
    ensures |z| == |h| && forall i :: 0 <= i < |h| ==> z[i] == h[i].pos
  {
    seq(|h|, i requires 0 <= i < |h| => h[i].pos)
  }

  /** The wave `t` fits the band: its crossing is the first crossing after
      its negative peak, its positive peak is the first positive peak after
      the crossing, and the samples from the negative peak up to the
      crossing are negative and those strictly between the crossing and
      the positive peak are positive. */
  predicate Wave(band: seq<real>, zc: seq<int>, pos: seq<int>, t: Swa)
  {
    && Linked(zc, pos, t)
    && AllNegative(Slice(band, t.neg, t.zero))
    && AllPositive(Slice(band, t.zero + 1, t.pos))
  }

  /** The crossing of `t` is the first after its negative peak, and its
      positive peak the first after its crossing. */
  predicate Linked(zc: seq<int>, pos: seq<int>, t: Swa)
  {
    && t.neg < t.zero < t.pos
    && FirstAbove(zc, t.neg).Some? && zc[FirstAbove(zc, t.neg).value] == t.zero
    && FirstAbove(pos, t.zero).Some? && pos[FirstAbove(pos, t.zero).value] == t.pos
  }

  /** What the loop body does for the negative peak `n`, given the waves
      already held: only the first crossing after `n`, and only the first
      positive peak after that crossing, are tried, and a crossing already
      held is not taken again. */
  function TryNeg(band: seq<real>, zc: seq<int>, pos: seq<int>, held: seq<Swa>, n: int): (r: Option<Swa>)
    ensures r.Some? ==> r.value.neg == n && r.value.zero !in ZerosOf(held) && Wave(band, zc, pos, r.value)
    ensures r.None? ==> forall t: Swa :: t.neg == n && t.zero !in ZerosOf(held) ==> !Wave(band, zc, pos, t)
  {
    match FirstAbove(zc, n)
    case None => None
    case Some(j) =>
      var z := zc[j];
      if z in ZerosOf(held) then None
      else
        match FirstAbove(pos, z)
        case None => None
        case Some(m) =>
          var p := pos[m];
          if AllPositive(Slice(band, z + 1, p)) && AllNegative(Slice(band, n, z)) then Some(Swa(n, z, p))
          else None
  }

  /** The waves held after the negative peaks `negs`, in order. */
  function Matches(band: seq<real>, negs: seq<int>, zc: seq<int>, pos: seq<int>): seq<Swa>
    decreases |negs|
  {
    if |negs| == 0 then []
    else
      var h := Matches(band, negs[..|negs| - 1], zc, pos);
      match TryNeg(band, zc, pos, h, negs[|negs| - 1])
      case None => h
      case Some(t) => h + [t]
  }

  /** The nested loops of `SWA_detection` that fill the three hold lists. */
  method HoldPeaks(band: seq<real>, negs: seq<int>, zc: seq<int>, pos: seq<int>)
    returns (negHold: seq<int>, posHold: seq<int>, zeroHold: seq<int>)
    ensures var m := Matches(band, negs, zc, pos);
      negHold == NegsOf(m) && zeroHold == ZerosOf(m) && posHold == PosOf(m)
  {
    negHold, posHold, zeroHold := [], [], [];
    ghost var held: seq<Swa> := [];
    for a := 0 to |negs|
      invariant held == Matches(band, negs[..a], zc, pos)
      invariant negHold == NegsOf(held) && zeroHold == ZerosOf(held) && posHold == PosOf(held)
    {
      var n := negs[a];
      assert negs[..a + 1][..a] == negs[..a];
      MatchesStep(band, negs[..a + 1], zc, pos);
      var o := TryPeak(band, zc, pos, zeroHold, n, held);
      if o.Some? {
        HoldAppend(held, o.value);
        negHold := negHold + [o.value.neg];
        posHold := posHold + [o.value.pos];
        zeroHold := zeroHold + [o.value.zero];
        held := held + [o.value];
      }
    }
    assert negs[..|negs|] == negs;
  }

  /** The body of the outer loop of `SWA_detection` for the negative peak
      `n`: the first crossing after `n`, if not already held, and the first
      positive peak after it, kept when the samples between have the right
      signs. */
  method TryPeak(band: seq<real>, zc: seq<int>, pos: seq<int>, zeroHold: seq<int>, n: int, ghost held: seq<Swa>)
    returns (o: Option<Swa>)
    requires zeroHold == ZerosOf(held)
    ensures o == TryNeg(band, zc, pos, held, n)
  {
    o := None;
    var j := FindFirstAbove(zc, n);
    if j.Some? {
      var z := zc[j.value];
      if z !in zeroHold {
        var m := FindFirstAbove(pos, z);
        if m.Some? {
          var p := pos[m.value];
          if AllPositive(Slice(band, z + 1, p)) && AllNegative(Slice(band, n, z)) {
            o := Some(Swa(n, z, p));
          }
        }
      }
    }
  }

  /** Appending a wave appends its three indices to the hold lists. */
  lemma HoldAppend(h: seq<Swa>, t: Swa)
    ensures NegsOf(h + [t]) == NegsOf(h) + [t.neg]
    ensures ZerosOf(h + [t]) == ZerosOf(h) + [t.zero]
    ensures PosOf(h + [t]) == PosOf(h) + [t.pos]
  {
  }

  /** One step of the matching: the waves held after `negs` are those held
      after all but its last peak, with the last peak's wave if it has
      one. */
  lemma MatchesStep(band: seq<real>, negs: seq<int>, zc: seq<int>, pos: seq<int>)
    requires |negs| > 0
    ensures var h := Matches(band, negs[..|negs| - 1], zc, pos);
      var o := TryNeg(band, zc, pos, h, negs[|negs| - 1]);
      Matches(band, negs, zc, pos) == if o.None? then h else h + [o.value]
  {
  }

  /** Every held wave fits the band and has one of `negs` as its negative
      peak. */
  lemma {:induction false} MatchesAccepted(band: seq<real>, negs: seq<int>, zc: seq<int>, pos: seq<int>)
    ensures var m := Matches(band, negs, zc, pos);
      forall i :: 0 <= i < |m| ==> m[i].neg in negs && Wave(band, zc, pos, m[i])
    decreases |negs|
  {
    if |negs| > 0 {
      var pre := negs[..|negs| - 1];
      MatchesAccepted(band, pre, zc, pos);
      MatchesStep(band, negs, zc, pos);
      var h := Matches(band, pre, zc, pos);
      var m := Matches(band, negs, zc, pos);
      forall i | 0 <= i < |m| ensures m[i].neg in negs && Wave(band, zc, pos, m[i]) {
        if i < |h| {
          assert m[i] == h[i];
          assert h[i].neg in pre;
        } else {
          assert m[i].neg == negs[|negs| - 1];
        }
      }
    }
  }

  lemma HeldWave(band: seq<real>, negs: seq<int>, zc: seq<int>, pos: seq<int>, i: nat)
    requires i < |Matches(band, negs, zc, pos)|
    ensures Wave(band, zc, pos, Matches(band, negs, zc, pos)[i])
  {
    MatchesAccepted(band, negs, zc, pos);
  }

  /** Inside the recording the sign conditions speak of the samples
      themselves: `band[neg .. zero - 1] < 0` and `band[zero + 1 .. pos - 1] > 0`. */
  lemma WaveSigns(band: seq<real>, zc: seq<int>, pos: seq<int>, t: Swa)
    requires Wave(band, zc, pos, t) && 0 <= t.neg && t.pos <= |band|
    ensures forall k :: t.neg <= k < t.zero ==> band[k] < 0.0
    ensures forall k :: t.zero < k < t.pos ==> band[k] > 0.0
  {
    var a := Slice(band, t.neg, t.zero);
    var b := Slice(band, t.zero + 1, t.pos);
    forall k | t.neg <= k < t.zero ensures band[k] < 0.0 {
      assert a[k - t.neg] == band[k];
    }
    forall k | t.zero < k < t.pos ensures band[k] > 0.0 {
      assert b[k - t.zero - 1] == band[k];
    }
  }

  predicate DistinctZeros(m: seq<Swa>)
  {
    forall i, j :: 0 <= i < j < |m| ==> m[i].zero != m[j].zero
  }

  /** A zero crossing is held at most once. */
  lemma {:induction false} MatchesZerosDistinct(band: seq<real>, negs: seq<int>, zc: seq<int>, pos: seq<int>)
    ensures DistinctZeros(Matches(band, negs, zc, pos))
    decreases |negs|
  {
    if |negs| > 0 {
      var pre := negs[..|negs| - 1];
      MatchesZerosDistinct(band, pre, zc, pos);
      MatchesStep(band, negs, zc, pos);
      var h := Matches(band, pre, zc, pos);
      var o := TryNeg(band, zc, pos, h, negs[|negs| - 1]);
      if o.Some? {
        AppendFreshZero(h, o.value);
      }
    }
  }

  lemma AppendFreshZero(h: seq<Swa>, t: Swa)
    requires DistinctZeros(h) && t.zero !in ZerosOf(h)
    ensures DistinctZeros(h + [t])
  {
    var m := h + [t];
    forall i, j | 0 <= i < j < |m| ensures m[i].zero != m[j].zero {
      if j < |h| {
        assert m[i] == h[i] && m[j] == h[j];
      } else {
        assert m[i] == h[i] && ZerosOf(h)[i] == h[i].zero;
      }
    }
  }

  predicate NegsIncrease(m: seq<Swa>)
  {
    forall i, j :: 0 <= i < j < |m| ==> m[i].neg < m[j].neg
  }

  /** With increasing negative peaks, the held waves are ordered by their
      negative peaks. */
  lemma {:induction false} MatchesOrdered(band: seq<real>, negs: seq<int>, zc: seq<int>, pos: seq<int>)
    requires Increasing(negs)
    ensures NegsIncrease(Matches(band, negs, zc, pos))
    decreases |negs|
  {
    if |negs| > 0 {
      var pre := negs[..|negs| - 1];
      var last := negs[|negs| - 1];
      assert Increasing(pre);
      MatchesOrdered(band, pre, zc, pos);
      MatchesAccepted(band, pre, zc, pos);
      MatchesStep(band, negs, zc, pos);
      var h := Matches(band, pre, zc, pos);
      var o := TryNeg(band, zc, pos, h, last);
      if o.Some? {
        forall i | 0 <= i < |h| ensures h[i].neg < last {
          assert h[i].neg in pre;
          var k :| 0 <= k < |pre| && pre[k] == h[i].neg;
          assert negs[k] == h[i].neg;
        }
        AppendLaterNeg(h, o.value);
      }
    }
  }

  lemma AppendLaterNeg(h: seq<Swa>, t: Swa)
    requires NegsIncrease(h) && forall i :: 0 <= i < |h| ==> h[i].neg < t.neg
    ensures NegsIncrease(h + [t])
  {
    var m := h + [t];
    forall i, j | 0 <= i < j < |m| ensures m[i].neg < m[j].neg {
      assert m[i] == h[i];
      if j < |h| {
        assert m[j] == h[j];
      }
    }
  }

  /** Two fitting waves with ordered negative peaks and different crossings
      have ordered crossings and positive peaks. */
  lemma WavesOrdered(zc: seq<int>, pos: seq<int>, a: Swa, b: Swa)
    requires Increasing(zc) && Increasing(pos)
    requires Linked(zc, pos, a) && Linked(zc, pos, b)
    requires a.neg < b.neg && a.zero != b.zero
    ensures a.zero < b.zero && a.pos <= b.pos
  {
    FirstAboveMono(zc, a.neg, b.neg);
    var ia, ib := FirstAbove(zc, a.neg).value, FirstAbove(zc, b.neg).value;
    assert ia <= ib;
    if ia < ib {
      assert zc[ia] < zc[ib];
    }
    FirstAboveMono(pos, a.zero, b.zero);
    var ja, jb := FirstAbove(pos, a.zero).value, FirstAbove(pos, b.zero).value;
    if ja < jb {
      assert pos[ja] < pos[jb];
    }
  }

  /** With increasing peaks and crossings, the held crossings increase and
      the held positive peaks never decrease. */
  lemma MatchesMonotone(band: seq<real>, negs: seq<int>, zc: seq<int>, pos: seq<int>)
    requires Increasing(negs) && Increasing(zc) && Increasing(pos)
    ensures var m := Matches(band, negs, zc, pos);
      forall i, j :: 0 <= i < j < |m| ==> m[i].zero < m[j].zero && m[i].pos <= m[j].pos
  {
    var m := Matches(band, negs, zc, pos);
    MatchesOrdered(band, negs, zc, pos);
    MatchesZerosDistinct(band, negs, zc, pos);
    forall i, j | 0 <= i < j < |m| ensures m[i].zero < m[j].zero && m[i].pos <= m[j].pos {
      HeldWave(band, negs, zc, pos, i);
      HeldWave(band, negs, zc, pos, j);
      WavesOrdered(zc, pos, m[i], m[j]);
    }
  }

  // ---- end crossings ----

  /** `np.searchsorted(a, v)` (side "left") on a sorted `a`: the first
      position whose element is not below `v`. */
  function SearchLeft(a: seq<int>, v: int): (j: nat)
    ensures j <= |a|
    ensures forall k :: 0 <= k < j ==> a[k] < v
    ensures j < |a| ==> a[j] >= v
  {
    if |a| == 0 then 0
    else if a[0] >= v then 0
    else SearchLeft(a[1..], v) + 1
  }

  /** The crossings with the sentinel `last_pos + 1` appended when every
      crossing precedes the last held positive peak. */
  function WithSentinel(zc: seq<int>, lastPos: int): seq<int>
    requires |zc| > 0
  {
    if zc[|zc| - 1] < lastPos then zc + [lastPos + 1] else zc
  }

  /** `zero_crossing[np.searchsorted(zero_crossing, positive_peaks_hold)]`
      after the sentinel step. An empty crossing or hold list fails at its
      `[-1]`, and a position past the end fails the indexing. */
  function EndCrossings(zc: seq<int>, posHold: seq<int>): Result<seq<int>>
  {
    if |zc| == 0 || |posHold| == 0 then Err(IndexError)
    else
      var zc2 := WithSentinel(zc, posHold[|posHold| - 1]);
      MapAll(posHold, (p: int) => var j := SearchLeft(zc2, p); if j < |zc2| then Ok(zc2[j]) else Err(IndexError))
  }

  /** The end crossing of one held peak `p` no later than the last held
      peak: the first crossing at or after `p`, or the sentinel when every
      crossing comes before `p`. */
  lemma EndAt(zc: seq<int>, lastPos: int, p: int)
    requires |zc| > 0 && Increasing(zc) && p <= lastPos
    ensures var zc2 := WithSentinel(zc, lastPos);
      var j := SearchLeft(zc2, p);
      && j < |zc2|
      && zc2[j] >= p
      && (forall k :: 0 <= k < |zc| && zc[k] >= p ==> zc2[j] <= zc[k])
      && (zc2[j] in zc || (zc2[j] == lastPos + 1 && forall k :: 0 <= k < |zc| ==> zc[k] < p))
  {
    var zc2 := WithSentinel(zc, lastPos);
    var j := SearchLeft(zc2, p);
    assert zc2[|zc2| - 1] >= lastPos;
    assert forall k :: 0 <= k < |zc| ==> zc2[k] == zc[k];
    if j < |zc| {
      forall k | 0 <= k < |zc| && zc[k] >= p ensures zc2[j] <= zc[k] {
        if j < k {
          assert zc[j] < zc[k];
        }
      }
    }
  }

  /** When no held peak is after the last one, every held peak gets its end
      crossing. */
  lemma EndCrossingsFound(zc: seq<int>, posHold: seq<int>)
    requires |zc| > 0 && Increasing(zc) && |posHold| > 0
    requires forall i :: 0 <= i < |posHold| ==> posHold[i] <= posHold[|posHold| - 1]
    ensures EndCrossings(zc, posHold).Ok?
    ensures var ends := EndCrossings(zc, posHold).value;
      && |ends| == |posHold|
      && forall i :: 0 <= i < |ends| ==> EndOf(zc, posHold, i, ends[i])
  {
    var last := posHold[|posHold| - 1];
    var zc2 := WithSentinel(zc, last);
    var f := (p: int) => var j := SearchLeft(zc2, p); if j < |zc2| then Ok(zc2[j]) else Err(IndexError);
    forall i | 0 <= i < |posHold| ensures f(posHold[i]).Ok? && EndOf(zc, posHold, i, f(posHold[i]).value) {
      EndAt(zc, last, posHold[i]);
    }
  }

  /** `e` is the end crossing of the `i`-th held peak: at or after the peak,
      no later than any crossing at or after it, and either a crossing or
      the sentinel after the last held peak when every crossing is before
      the peak. */
  predicate EndOf(zc: seq<int>, posHold: seq<int>, i: int, e: int)
    requires 0 <= i < |posHold|
  {
    && e >= posHold[i]
    && (forall k :: 0 <= k < |zc| && zc[k] >= posHold[i] ==> e <= zc[k])
    && (e in zc || (e == posHold[|posHold| - 1] + 1 && forall k :: 0 <= k < |zc| ==> zc[k] < posHold[i]))
  }

  // ---- the slow-wave records ----

  /** One slow wave as `SWA_detection` reports it. The peak values are the
      peak indices, as the source records them; `ptp` is their difference
      and `slope` is `ptp` over the time between the peaks, `None` standing
      for the non-finite value of a zero time. */
  datatype SwaRecord = SwaRecord(startTime: real, negTime: real, middleTime: real, posTime: real,
                                 endTime: real, duration: real, negPeak: int, posPeak: int,
                                 ptp: int, slope: Option<real>, frequency: real)

  /** `peak_to_peak / (time_pos_peak - time_neg_peak)`. */
  function Slope(ptp: int, dt: real): Option<real>
  {
    if dt == 0.0 then None else Some(ptp as real / dt)
  }

  /** The record of the held wave `t` between the given start and end times. */
  function WaveRecord(t: Swa, startTime: real, endTime: real, sf: real, t0: real): SwaRecord
    requires sf != 0.0 && endTime - startTime != 0.0
  {
    var negTime, posTime := t.neg as real / sf + t0, t.pos as real / sf + t0;
    var ptp := t.pos - t.neg;
    SwaRecord(startTime, negTime, t.zero as real / sf + t0, posTime, endTime, endTime - startTime,
              t.neg, t.pos, ptp, Slope(ptp, posTime - negTime), 1.0 / (endTime - startTime))
  }

  /** The half-cycle frequency `1 / duration` lies inside the band. A zero
      duration gives an infinite frequency, which lies above any band. */
  predicate InBand(duration: real, lo: real, hi: real)
  {
    duration != 0.0 && !(1.0 / duration > hi || 1.0 / duration < lo)
  }

  /** The records for the start crossings `starts[.. n]`: each record whose
      frequency is outside the band is skipped, and an index past the end
      crossings or past the held waves raises IndexError. */
  function RecordsUpTo(starts: seq<int>, ends: seq<int>, m: seq<Swa>, sf: real, t0: real,
                       lo: real, hi: real, n: nat): Result<seq<SwaRecord>>
    requires sf != 0.0 && n <= |starts|
  {
    if n == 0 then Ok([])
    else
      match RecordsUpTo(starts, ends, m, sf, t0, lo, hi, n - 1)
      case Err(e) => Err(e)
      case Ok(rs) =>
        var idx := n - 1;
        if idx >= |ends| then Err(IndexError)
        else
          var startTime := starts[idx] as real / sf + t0;
          var endTime := ends[idx] as real / sf + t0;
          var duration := endTime - startTime;
          if !InBand(duration, lo, hi) then Ok(rs)
          else if idx >= |m| then Err(IndexError)
          else
            var t := m[idx];
            Ok(rs + [WaveRecord(t, startTime, endTime, sf, t0)])
  }

  /** Once the records raise, they keep raising the same error: the loop
      stops at the first failing index. */
  lemma {:induction false} RecordsErrStays(starts: seq<int>, ends: seq<int>, m: seq<Swa>, sf: real, t0: real,
                                           lo: real, hi: real, a: nat, n: nat)
    requires sf != 0.0 && a <= n <= |starts|
    requires RecordsUpTo(starts, ends, m, sf, t0, lo, hi, a).Err?
    ensures RecordsUpTo(starts, ends, m, sf, t0, lo, hi, n) == RecordsUpTo(starts, ends, m, sf, t0, lo, hi, a)
    decreases n
  {
    if n > a {
      RecordsErrStays(starts, ends, m, sf, t0, lo, hi, a, n - 1);
    }
  }

  /** The record-building loop of `SWA_detection`. */
  method SwaRecords(starts: seq<int>, ends: seq<int>, m: seq<Swa>, sf: real, t0: real, lo: real, hi: real)
    returns (r: Result<seq<SwaRecord>>)
    requires sf != 0.0
    ensures r == RecordsUpTo(starts, ends, m, sf, t0, lo, hi, |starts|)
  {
    var records: seq<SwaRecord> := [];
    for idx := 0 to |starts|
      invariant RecordsUpTo(starts, ends, m, sf, t0, lo, hi, idx) == Ok(records)
    {
      if idx >= |ends| {
        RecordsErrStays(starts, ends, m, sf, t0, lo, hi, idx + 1, |starts|);
        return Err(IndexError);
      }
      var startTime := starts[idx] as real / sf + t0;
      var endTime := ends[idx] as real / sf + t0;
      var duration := endTime - startTime;
      if duration == 0.0 || 1.0 / duration > hi || 1.0 / duration < lo {
        continue;
      }
      if idx >= |m| {
        RecordsErrStays(starts, ends, m, sf, t0, lo, hi, idx + 1, |starts|);
        return Err(IndexError);
      }
      var t := m[idx];
      var timeNeg, timePos := t.neg as real / sf + t0, t.pos as real / sf + t0;
      var peakToPeak := t.pos - t.neg;
      var slope := if timePos - timeNeg == 0.0 then None else Some(peakToPeak as real / (timePos - timeNeg));
      records := records + [SwaRecord(startTime, timeNeg, t.zero as real / sf + t0, timePos, endTime, duration,
                                      t.neg, t.pos, peakToPeak, slope, 1.0 / duration)];
    }
    return Ok(records);
  }

  /** Every reported record has a non-zero duration and a frequency, its
      inverse, inside the band. */
  lemma {:induction false} RecordsInBand(starts: seq<int>, ends: seq<int>, m: seq<Swa>, sf: real, t0: real,
                                         lo: real, hi: real, n: nat)
    requires sf != 0.0 && n <= |starts|
    ensures var r := RecordsUpTo(starts, ends, m, sf, t0, lo, hi, n);
      r.Ok? ==> forall k :: 0 <= k < |r.value| ==>
        r.value[k].duration != 0.0 && r.value[k].frequency * r.value[k].duration == 1.0
        && lo <= r.value[k].frequency <= hi
  {
    if n > 0 {
      RecordsInBand(starts, ends, m, sf, t0, lo, hi, n - 1);
    }
  }

  /** A record's `ptp` is the positive peak minus the negative one, and its
      slope times the time between the peaks is `ptp`; the slope is finite
      exactly when the peaks differ. */
  predicate SlopeHolds(x: SwaRecord)
  {
    && x.ptp == x.posPeak - x.negPeak
    && (x.slope.Some? <==> x.posPeak != x.negPeak)
    && (x.slope.Some? ==> x.slope.value * (x.posTime - x.negTime) == x.ptp as real)
  }

  lemma WaveRecordSlope(t: Swa, startTime: real, endTime: real, sf: real, t0: real)
    requires sf != 0.0 && endTime - startTime != 0.0
    ensures SlopeHolds(WaveRecord(t, startTime, endTime, sf, t0))
  {
    var negTime, posTime := t.neg as real / sf + t0, t.pos as real / sf + t0;
    if posTime - negTime == 0.0 {
      assert t.pos as real / sf == t.neg as real / sf;
      assert t.pos as real == (t.pos as real / sf) * sf;
      assert t.neg as real == (t.neg as real / sf) * sf;
    }
  }

  /** Every reported record satisfies `SlopeHolds`. */
  lemma {:induction false} RecordsSlope(starts: seq<int>, ends: seq<int>, m: seq<Swa>, sf: real, t0: real,
                                        lo: real, hi: real, n: nat)
    requires sf != 0.0 && n <= |starts|
    ensures var r := RecordsUpTo(starts, ends, m, sf, t0, lo, hi, n);
      r.Ok? ==> forall k :: 0 <= k < |r.value| ==> SlopeHolds(r.value[k])
  {
    if n > 0 {
      RecordsSlope(starts, ends, m, sf, t0, lo, hi, n - 1);
      var prev := RecordsUpTo(starts, ends, m, sf, t0, lo, hi, n - 1);
      var r := RecordsUpTo(starts, ends, m, sf, t0, lo, hi, n);
      var idx := n - 1;
      if r.Ok? {
        assert prev.Ok? && idx < |ends|;
        var startTime := starts[idx] as real / sf + t0;
        var endTime := ends[idx] as real / sf + t0;
        if InBand(endTime - startTime, lo, hi) {
          assert idx < |m|;
          WaveRecordSlope(m[idx], startTime, endTime, sf, t0);
          assert r.value == prev.value + [WaveRecord(m[idx], startTime, endTime, sf, t0)];
        } else {
          assert r.value == prev.value;
        }
      }
    }
  }

  /** When every held wave's negative peak comes before its positive peak,
      every reported record has a finite slope. */
  lemma {:induction false} RecordsFiniteSlope(starts: seq<int>, ends: seq<int>, m: seq<Swa>, sf: real, t0: real,
                                              lo: real, hi: real, n: nat)
    requires sf != 0.0 && n <= |starts|
    requires forall i :: 0 <= i < |m| ==> m[i].neg < m[i].pos
    ensures var r := RecordsUpTo(starts, ends, m, sf, t0, lo, hi, n);
      r.Ok? ==> forall k :: 0 <= k < |r.value| ==> r.value[k].slope.Some?
  {
    if n > 0 {
      RecordsFiniteSlope(starts, ends, m, sf, t0, lo, hi, n - 1);
      var prev := RecordsUpTo(starts, ends, m, sf, t0, lo, hi, n - 1);
      var r := RecordsUpTo(starts, ends, m, sf, t0, lo, hi, n);
      var idx := n - 1;
      if r.Ok? {
        assert prev.Ok? && idx < |ends|;
        var startTime := starts[idx] as real / sf + t0;
        var endTime := ends[idx] as real / sf + t0;
        if InBand(endTime - startTime, lo, hi) {
          assert idx < |m|;
          WaveRecordSlope(m[idx], startTime, endTime, sf, t0);
          assert r.value == prev.value + [WaveRecord(m[idx], startTime, endTime, sf, t0)];
        } else {
          assert r.value == prev.value;
        }
      }
    }
  }

  /** `SWA_detection` after the filter and the peak finder: the band
      filtered samples, the peak indices and the start crossings (computed
      by a search this model leaves out) are inputs. No held wave gives
      `None`. */
  function SwaDetection(band: seq<real>, negs: seq<int>, pos: seq<int>, sf: real, t0: real, lo: real, hi: real,
                        startCrossings: (seq<int>, seq<int>) -> seq<int>): Result<Option<seq<SwaRecord>>>
    requires sf != 0.0
  {
    var zc := ZeroCrossings(band);
    var m := Matches(band, negs, zc, pos);
    if |m| == 0 then Ok(None)
    else
      var starts := startCrossings(NegsOf(m), zc);
      match EndCrossings(zc, PosOf(m))
      case Err(e) => Err(e)
      case Ok(ends) =>
        match RecordsUpTo(starts, ends, m, sf, t0, lo, hi, |starts|)
        case Err(e) => Err(e)
        case Ok(rs) => Ok(Some(rs))
  }

  /** The detector returns `None` exactly when no wave is held. */
  lemma SwaDetectionNone(band: seq<real>, negs: seq<int>, pos: seq<int>, sf: real, t0: real, lo: real, hi: real,
                         startCrossings: (seq<int>, seq<int>) -> seq<int>)
    requires sf != 0.0
    ensures var r := SwaDetection(band, negs, pos, sf, t0, lo, hi, startCrossings);
      r == Ok(None) <==> |Matches(band, negs, ZeroCrossings(band), pos)| == 0
  {
  }

  /** Every slow wave the detector reports has PTP `pos - neg` and a finite
      slope with `slope * (PosTime - NegTime) == PTP`: a held wave's
      negative peak lies before its crossing, which lies before its
      positive peak. */
  lemma SwaDetectionSlopes(band: seq<real>, negs: seq<int>, pos: seq<int>, sf: real, t0: real, lo: real, hi: real,
                           startCrossings: (seq<int>, seq<int>) -> seq<int>)
    requires sf != 0.0
    ensures var r := SwaDetection(band, negs, pos, sf, t0, lo, hi, startCrossings);
      r.Ok? && r.value.Some? ==> forall k :: 0 <= k < |r.value.value| ==>
        SlopeHolds(r.value.value[k]) && r.value.value[k].slope.Some?
  {
    var r := SwaDetection(band, negs, pos, sf, t0, lo, hi, startCrossings);
    var zc := ZeroCrossings(band);
    var m := Matches(band, negs, zc, pos);
    if r.Ok? && r.value.Some? {
      var starts := startCrossings(NegsOf(m), zc);
      var ends := EndCrossings(zc, PosOf(m)).value;
      forall i | 0 <= i < |m| ensures m[i].neg < m[i].pos {
        HeldWave(band, negs, zc, pos, i);
      }
      RecordsSlope(starts, ends, m, sf, t0, lo, hi, |starts|);
      RecordsFiniteSlope(starts, ends, m, sf, t0, lo, hi, |starts|);
    }
  }

  /** With increasing peak lists every held positive peak gets its end
      crossing, so the end-crossing step never fails. */
  lemma HeldEndsFound(band: seq<real>, negs: seq<int>, pos: seq<int>)
    requires Increasing(negs) && Increasing(pos)
    requires |Matches(band, negs, ZeroCrossings(band), pos)| > 0
    ensures var zc := ZeroCrossings(band);
      var ph := PosOf(Matches(band, negs, zc, pos));
      && EndCrossings(zc, ph).Ok?
      && |EndCrossings(zc, ph).value| == |ph|
      && forall i :: 0 <= i < |ph| ==> EndOf(zc, ph, i, EndCrossings(zc, ph).value[i])
  {
    var zc := ZeroCrossings(band);
    var m := Matches(band, negs, zc, pos);
    MatchesMonotone(band, negs, zc, pos);
    MatchesAccepted(band, negs, zc, pos);
    assert Wave(band, zc, pos, m[0]);
    var ph := PosOf(m);
    forall i | 0 <= i < |ph| ensures ph[i] <= ph[|ph| - 1] {
      if i < |ph| - 1 {
        assert m[i].pos <= m[|m| - 1].pos;
      }
    }
    EndCrossingsFound(zc, ph);
  }

  // ---- spindle_detection ----

  /** The runs of `lst2group` over the enumerated above-threshold flags that
      are kept: true runs that do not start at index 0 and whose last index
      has a time. */
  function SelectedRuns(runs: seq<Run<bool>>, times: nat): (s: seq<Run<bool>>)
    ensures forall k :: 0 <= k < |s| ==> s[k] in runs && s[k].first != 0 && s[k].value && s[k].last < times
    ensures forall x :: x in runs && x.first != 0 && x.value && x.last < times ==> x in s
  {
    if |runs| == 0 then []
    else
      var x := runs[|runs| - 1];
      var s := SelectedRuns(runs[..|runs| - 1], times);
      assert runs == runs[..|runs| - 1] + [x];
      if x.first != 0 && x.value && x.last < times then s + [x] else s
  }

  /** The time of a window index, `0.0` outside the times. */
  function TimeAt(t: seq<real>, i: int): real
  {
    if 0 <= i < |t| then t[i] else 0.0
  }

  /** The start times of the kept runs. */
  function KeptStarts(s: seq<Run<bool>>, t: seq<real>): seq<real>
  {
    seq(|s|, k requires 0 <= k < |s| => TimeAt(t, s[k].first))
  }

  /** The end times of the kept runs. */
  function KeptEnds(s: seq<Run<bool>>, t: seq<real>): seq<real>
  {
    seq(|s|, k requires 0 <= k < |s| => TimeAt(t, s[k].last))
  }

  /** Keeping one more run appends its start and end times. */
  lemma KeptAppend(s: seq<Run<bool>>, x: Run<bool>, t: seq<real>)
    ensures KeptStarts(s + [x], t) == KeptStarts(s, t) + [TimeAt(t, x.first)]
    ensures KeptEnds(s + [x], t) == KeptEnds(s, t) + [TimeAt(t, x.last)]
  {
    assert forall k :: 0 <= k < |s| ==> (s + [x])[k] == s[k];
  }

  /** The kept runs of one more run are those before it and, when kept, it. */
  lemma SelectedStep(runs: seq<Run<bool>>, i: nat, times: nat)
    requires i < |runs|
    ensures var x := runs[i];
      SelectedRuns(runs[..i + 1], times) ==
        SelectedRuns(runs[..i], times) + (if x.first != 0 && x.value && x.last < times then [x] else [])
  {
    assert runs[..i + 1][..i] == runs[..i];
  }

  /** Every kept run lies within the flags and has its last index within
      the times. */
  lemma SelectedBounds(flags: seq<bool>, times: nat)
    ensures var s := SelectedRuns(Lst2Group(Enumerate(flags, 0)), times);
      forall k :: 0 <= k < |s| ==> 0 <= s[k].first <= s[k].last < times
  {
    var runs := Lst2Group(Enumerate(flags, 0));
    GroupTiles(flags, 0, |flags|);
    TilesBounds(runs, 0, |flags|);
    var s := SelectedRuns(runs, times);
    forall k | 0 <= k < |s| ensures 0 <= s[k].first <= s[k].last < times {
      assert s[k] in runs;
    }
  }

  /** The loop of `spindle_detection` that appends `t[first]` and `t[last]`
      of each kept run. */
  method SpindleTimes(flags: seq<bool>, t: seq<real>) returns (startTime: seq<real>, endTime: seq<real>)
    ensures var s := SelectedRuns(Lst2Group(Enumerate(flags, 0)), |t|);
      startTime == KeptStarts(s, t) && endTime == KeptEnds(s, t)
    ensures var s := SelectedRuns(Lst2Group(Enumerate(flags, 0)), |t|);
      && |startTime| == |s| && |endTime| == |s|
      && forall k :: 0 <= k < |s| ==>
           (0 <= s[k].first <= s[k].last < |t| && startTime[k] == t[s[k].first] && endTime[k] == t[s[k].last])
  {
    var runs := Lst2Group(Enumerate(flags, 0));
    GroupTiles(flags, 0, |flags|);
    TilesBounds(runs, 0, |flags|);
    startTime, endTime := [], [];
    for i := 0 to |runs|
      invariant startTime == KeptStarts(SelectedRuns(runs[..i], |t|), t)
      invariant endTime == KeptEnds(SelectedRuns(runs[..i], |t|), t)
    {
      var each := runs[i];
      SelectedStep(runs, i, |t|);
      if each.first != 0 && each.value {
        if each.last < |t| && each.value {
          KeptAppend(SelectedRuns(runs[..i], |t|), each, t);
          startTime := startTime + [t[each.first]];
          endTime := endTime + [t[each.last]];
        }
      }
    }
    assert runs[..|runs|] == runs;
    SelectedBounds(flags, |t|);
  }

  /** `x` is a maximal block of true flags that does not start the
      recording: it starts after a false flag and ends at the last flag or
      before a false one. */
  predicate MaximalTrueBlock(flags: seq<bool>, x: Run<bool>)
  {
    && 0 < x.first <= x.last < |flags|
    && !flags[x.first - 1]
    && (forall j :: x.first <= j <= x.last ==> flags[j])
    && (x.last == |flags| - 1 || !flags[x.last + 1])
  }

  /** Every kept run is a maximal block of true flags. */
  lemma SelectedRunsMaximal(flags: seq<bool>, times: nat)
    ensures var s := SelectedRuns(Lst2Group(Enumerate(flags, 0)), times);
      forall k :: 0 <= k < |s| ==> MaximalTrueBlock(flags, s[k])
  {
    var runs := Lst2Group(Enumerate(flags, 0));
    var s := SelectedRuns(runs, times);
    forall k | 0 <= k < |s| ensures MaximalTrueBlock(flags, s[k]) {
      KeptMaximal(flags, runs, s, k, times);
    }
  }

  lemma KeptMaximal(flags: seq<bool>, runs: seq<Run<bool>>, s: seq<Run<bool>>, k: nat, times: nat)
    requires runs == Lst2Group(Enumerate(flags, 0)) && s == SelectedRuns(runs, times) && k < |s|
    ensures MaximalTrueBlock(flags, s[k])
  {
    assert s[k] in runs;
    var i :| 0 <= i < |runs| && runs[i] == s[k];
    RunMaximal(flags, i);
  }

  /** A true run of `lst2group` over the flags other than the first is
      maximal. */
  lemma RunMaximal(flags: seq<bool>, i: nat)
    requires var runs := Lst2Group(Enumerate(flags, 0)); i < |runs| && runs[i].first != 0 && runs[i].value
    ensures MaximalTrueBlock(flags, Lst2Group(Enumerate(flags, 0))[i])
  {
    var runs := Lst2Group(Enumerate(flags, 0));
    var x := runs[i];
    GroupTiles(flags, 0, |flags|);
    TilesBounds(runs, 0, |flags|);
    TilesAdjacent(runs, 0, |flags|);
    GroupValues(flags, 0);
    Lst2GroupShape(Enumerate(flags, 0));
    AdjacentDistinctAt(runs);
    assert RunHolds(flags, 0, x);
    assert i > 0;
    assert RunHolds(flags, 0, runs[i - 1]);
    RunHoldsAt(flags, 0, runs[i - 1], x.first - 1);
    if i < |runs| - 1 {
      assert RunHolds(flags, 0, runs[i + 1]);
      RunHoldsAt(flags, 0, runs[i + 1], x.last + 1);
    }
  }

  /** Keep the pairs at least half a second long, shifted by the start
      time. */
  function LongPairs(startTime: seq<real>, endTime: seq<real>, t0: real): (r: seq<(real, real)>)
    requires |startTime| == |endTime|
    ensures forall k :: 0 <= k < |r| ==> r[k].1 - r[k].0 >= 0.5
  {
    if |startTime| == 0 then []
    else
      var rest := LongPairs(startTime[..|startTime| - 1], endTime[..|endTime| - 1], t0);
      var s, e := startTime[|startTime| - 1] + t0, endTime[|endTime| - 1] + t0;
      if e - s >= 0.5 then rest + [(s, e)] else rest
  }

  /** The input pairs shifted by `t0`. */
  function Shifted(startTime: seq<real>, endTime: seq<real>, t0: real): (r: seq<(real, real)>)
    requires |startTime| == |endTime|
    ensures |r| == |startTime| && forall j :: 0 <= j < |r| ==> r[j] == (startTime[j] + t0, endTime[j] + t0)
  {
    seq(|startTime|, j requires 0 <= j < |startTime| => (startTime[j] + t0, endTime[j] + t0))
  }

  /** Every kept pair is an input pair shifted by `t0`. */
  lemma {:induction false} LongPairsFrom(startTime: seq<real>, endTime: seq<real>, t0: real)
    requires |startTime| == |endTime|
    ensures forall x :: x in LongPairs(startTime, endTime, t0) ==> x in Shifted(startTime, endTime, t0)
  {
    if |startTime| > 0 {
      var n := |startTime| - 1;
      var s0, e0 := startTime[..n], endTime[..n];
      LongPairsFrom(s0, e0, t0);
      var sh := Shifted(startTime, endTime, t0);
      assert Shifted(s0, e0, t0) == sh[..n];
      assert sh[n] == (startTime[n] + t0, endTime[n] + t0);
    }
  }

  /** Every input pair at least half a second long is kept. */
  lemma {:induction false} LongPairsKept(startTime: seq<real>, endTime: seq<real>, t0: real)
    requires |startTime| == |endTime|
    ensures forall j :: 0 <= j < |startTime| && endTime[j] - startTime[j] >= 0.5 ==>
      Shifted(startTime, endTime, t0)[j] in LongPairs(startTime, endTime, t0)
  {
    if |startTime| > 0 {
      var n := |startTime| - 1;
      var s0, e0 := startTime[..n], endTime[..n];
      LongPairsKept(s0, e0, t0);
      var rest := LongPairs(s0, e0, t0);
      var r := LongPairs(startTime, endTime, t0);
      assert forall x :: x in rest ==> x in r;
      forall j | 0 <= j < n
        ensures Shifted(s0, e0, t0)[j] == Shifted(startTime, endTime, t0)[j]
      {
      }
    }
  }

  /** `spindle_detection` after the spectrogram: `flags` are the
      above-threshold flags, `t` the window times and `peaks` the number of
      peaks found. No peak or no kept run gives `None`; the start and end
      lists always have the same length, so the shape check never fires. */
  method SpindleDetection(flags: seq<bool>, t: seq<real>, peaks: nat, t0: real)
    returns (r: Option<seq<(real, real)>>)
    ensures var s := SelectedRuns(Lst2Group(Enumerate(flags, 0)), |t|);
      r.None? <==> peaks == 0 || |s| == 0
    ensures var s := SelectedRuns(Lst2Group(Enumerate(flags, 0)), |t|);
      r.Some? ==> r.value == LongPairs(KeptStarts(s, t), KeptEnds(s, t), t0)
    ensures r.Some? ==> forall k :: 0 <= k < |r.value| ==> r.value[k].1 - r.value[k].0 >= 0.5
  {
    var startTime, endTime := SpindleTimes(flags, t);
    if peaks == 0 {
      return None;
    }
    if |startTime| == 0 {
      return None;
    }
    return Some(LongPairs(startTime, endTime, t0));
  }
}
