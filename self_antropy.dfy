/** The integer parts of the entropy helpers: the zero-crossing count, the
    time-delay embedding, and the ordinal-pattern hashing and counting of
    the permutation entropy. Sorting a row (`argsort`), the `x log x` step
    and the base-2 logarithm are parameters. A NaN result is `None`. */
module SelfAntropy {
  import opened Py
  import Detection

  // ---- num_zerocross ----

  /** The number of `i < n` where the sign bits of `x[i]` and `x[i + 1]`
      differ: the sum of `np.diff(np.signbit(x))` over its first `n`
      entries. */
  function CrossCount(x: seq<real>, n: nat): (c: nat)
    requires n < |x|
    ensures c <= n
  {
    if n == 0 then 0
    else CrossCount(x, n - 1) + (if Detection.SignBit(x[n - 1]) != Detection.SignBit(x[n]) then 1 else 0)
  }

  /** `num_zerocross(x)` on a one-dimensional signal. */
  function NumZerocross(x: seq<real>): (c: nat)
    ensures |x| > 0 ==> c < |x|
    ensures |x| == 0 ==> c == 0
  {
    if |x| == 0 then 0 else CrossCount(x, |x| - 1)
  }

  /** `num_zerocross(x, normalize=True)`: the count divided by the number
      of samples, which for an empty signal is NaN. */
  function NumZerocrossNormalized(x: seq<real>): (r: Option<real>)
    ensures r.None? <==> |x| == 0
    ensures r.Some? ==> 0.0 <= r.value < 1.0 && r.value * |x| as real == NumZerocross(x) as real
  {
    if |x| == 0 then None else Some(NumZerocross(x) as real / |x| as real)
  }

  /** The count below `n` is the number of crossings the slow-wave detector
      finds below `n`. */
  lemma {:induction false} CrossCountBelow(x: seq<real>, n: nat)
    requires n < |x|
    ensures CrossCount(x, n) == |Detection.CrossingsBelow(x, n)|
  {
    if n > 0 {
      CrossCountBelow(x, n - 1);
    }
  }

  /** The zero-crossing count is the number of zero crossings: one for each
      index where `np.signbit` changes. */
  lemma NumZerocrossCounts(x: seq<real>)
    ensures NumZerocross(x) == |Detection.ZeroCrossings(x)|
  {
    if |x| > 0 {
      CrossCountBelow(x, |x| - 1);
    }
  }

  /** The two examples of the documentation: `[-1, 0, 1, 2, 3]` has one
      crossing and `[0, 0, 2, -1, 0, 1, 0, 2]` has two (zero counts as
      non-negative). */
  lemma NumZerocrossExamples()
    ensures NumZerocross([-1.0, 0.0, 1.0, 2.0, 3.0]) == 1
    ensures NumZerocross([0.0, 0.0, 2.0, -1.0, 0.0, 1.0, 0.0, 2.0]) == 2
  {
    var a := [-1.0, 0.0, 1.0, 2.0, 3.0];
    assert CrossCount(a, 1) == 1;
    assert CrossCount(a, 4) == 1;
    var b := [0.0, 0.0, 2.0, -1.0, 0.0, 1.0, 0.0, 2.0];
    assert CrossCount(b, 2) == 0;
    assert CrossCount(b, 4) == 2;
    assert CrossCount(b, 7) == 2;
  }

  // ---- _embed ----

  /** The argument checks of `_embed`, in the order the source makes them. */
  function EmbedChecks(n: nat, order: int, delay: int): (r: Result<()>)
    ensures r.Ok? <==> order * delay <= n && delay >= 1 && order >= 2
    ensures r.Err? ==> r.exc == ValueError
  {
    if order * delay > n then Err(ValueError)
    else if delay < 1 then Err(ValueError)
    else if order < 2 then Err(ValueError)
    else Ok(())
  }

  /** The number of embedded rows, `N - (order - 1) * delay`. */
  function Rows(n: nat, order: int, delay: int): int
  {
    n - (order - 1) * delay
  }

  /** Under the checks there is at least one row, and the column `i`
      window `x[i * delay .. i * delay + rows]` fits in the signal. */
  lemma RowsFit(n: nat, order: int, delay: int, i: int)
    requires EmbedChecks(n, order, delay).Ok? && 0 <= i < order
    ensures Rows(n, order, delay) >= delay >= 1
    ensures 0 <= i * delay && i * delay + Rows(n, order, delay) <= n
  {
    assert Rows(n, order, delay) == n - order * delay + delay;
    assert (order - 1 - i) * delay >= 0;
  }

  /** `_embed(x, order, delay)` on a one-dimensional signal: row `t` is
      `x[t], x[t + delay], ..., x[t + (order - 1) * delay]`. */
  function Embedding(x: seq<real>, order: int, delay: int): (r: Result<seq<seq<real>>>)
    ensures r.Err? <==> EmbedChecks(|x|, order, delay).Err?
    ensures r.Err? ==> r.exc == ValueError
    ensures r.Ok? ==> |r.value| == Rows(|x|, order, delay) >= 1
    ensures r.Ok? ==> forall t :: 0 <= t < |r.value| ==> |r.value[t]| == order
  {
    match EmbedChecks(|x|, order, delay)
    case Err(e) => Err(e)
    case Ok(_) =>
      RowsFit(|x|, order, delay, 0);
      var m := Rows(|x|, order, delay);
      Ok(seq(m, t requires 0 <= t < m =>
        seq(order, i requires 0 <= i < order => if 0 <= t + i * delay < |x| then x[t + i * delay] else 0.0)))
  }

  /** Each embedded entry is the delayed sample: row `t`, column `i` is
      `x[t + i * delay]`. */
  lemma EmbeddingAt(x: seq<real>, order: int, delay: int, t: int, i: int)
    requires Embedding(x, order, delay).Ok?
    requires 0 <= t < |Embedding(x, order, delay).value| && 0 <= i < order
    ensures 0 <= t + i * delay < |x|
    ensures Embedding(x, order, delay).value[t][i] == x[t + i * delay]
  {
    RowsFit(|x|, order, delay, i);
  }

  /** Column `i` of the embedding is the slice `x[i * delay : i * delay + rows]`
      the source assigns to `Y[i]`. */
  lemma EmbeddingColumn(x: seq<real>, order: int, delay: int, i: int)
    requires Embedding(x, order, delay).Ok? && 0 <= i < order
    ensures var e := Embedding(x, order, delay).value;
      seq(|e|, t requires 0 <= t < |e| => e[t][i]) == Slice(x, i * delay, i * delay + |e|)
  {
    var e := Embedding(x, order, delay).value;
    RowsFit(|x|, order, delay, i);
    var col := seq(|e|, t requires 0 <= t < |e| => e[t][i]);
    var s := Slice(x, i * delay, i * delay + |e|);
    assert |s| == |e|;
    forall t | 0 <= t < |e| ensures col[t] == s[t] {
      EmbeddingAt(x, order, delay, t, i);
    }
  }

  /** The loop of `_embed`: `Y` is an `order` by `rows` array whose row `i`
      receives the window of column `i`, and the result is its transpose. */
  method Embed(x: seq<real>, order: int, delay: int) returns (r: Result<seq<seq<real>>>)
    ensures r == Embedding(x, order, delay)
  {
    var n := |x|;
    if order * delay > n {
      return Err(ValueError);
    }
    if delay < 1 {
      return Err(ValueError);
    }
    if order < 2 {
      return Err(ValueError);
    }
    RowsFit(n, order, delay, 0);
    var m := n - (order - 1) * delay;
    ghost var e := Embedding(x, order, delay).value;
    var y := new real[order, m];
    for i := 0 to order
      invariant forall i', t :: 0 <= i' < i && 0 <= t < m ==> y[i', t] == e[t][i']
    {
      RowsFit(n, order, delay, i);
      for t := 0 to m
        invariant forall i', t' :: 0 <= i' < i && 0 <= t' < m ==> y[i', t'] == e[t'][i']
        invariant forall t' :: 0 <= t' < t ==> y[i, t'] == e[t'][i]
      {
        EmbeddingAt(x, order, delay, t, i);
        y[i, t] := x[i * delay + t];
      }
    }
    var rows := seq(m, t requires 0 <= t < m reads y => seq(order, i requires 0 <= i < order reads y => y[i, t]));
    forall t | 0 <= t < m ensures rows[t] == e[t] {
      forall i | 0 <= i < order ensures rows[t][i] == e[t][i] {
      }
    }
    assert rows == e;
    return Ok(rows);
  }

  // ---- ordinal-pattern hashing ----

  function Pow(b: int, k: nat): int
  {
    if k == 0 then 1 else b * Pow(b, k - 1)
  }

  /** `(sorted_idx * order ** range(order)).sum()` for one row: the digit
      `p[k]` is weighted by `base ** k`. */
  function Hash(p: seq<int>, base: int): int
  {
    if |p| == 0 then 0
    else Hash(p[..|p| - 1], base) + p[|p| - 1] * Pow(base, |p| - 1)
  }

  predicate Digits(p: seq<int>, base: int)
  {
    forall k :: 0 <= k < |p| ==> 0 <= p[k] < base
  }

  lemma PowPositive(b: int, k: nat)
    requires b >= 1
    ensures Pow(b, k) >= 1
  {
    if k > 0 {
      PowPositive(b, k - 1);
      assert b * Pow(b, k - 1) >= Pow(b, k - 1);
    }
  }

  /** A row of digits below `base` hashes into `[0, base ** |p|)`. */
  lemma {:induction false} HashBounds(p: seq<int>, base: int)
    requires base >= 1 && Digits(p, base)
    ensures 0 <= Hash(p, base) < Pow(base, |p|)
  {
    if |p| > 0 {
      var q, k := p[..|p| - 1], |p| - 1;
      assert Digits(q, base);
      HashBounds(q, base);
      PowPositive(base, k);
      TopDigit(Hash(q, base), p[k], Pow(base, k), base);
    }
  }

  /** Adding a digit below `base` at weight `w` on top of a remainder below
      `w` stays below `base * w`. */
  lemma TopDigit(r: int, d: int, w: int, base: int)
    requires 0 <= r < w && 0 <= d < base
    ensures 0 <= r + d * w < base * w
  {
    assert d * w <= (base - 1) * w;
  }

  lemma BelowOne(k: int, w: int)
    requires w > 0 && k * w < w
    ensures k < 1
  {
  }

  /** Splitting a number into a top digit and a remainder below the weight
      is unique. */
  lemma DigitSplit(a: int, r: int, c: int, s: int, w: int)
    requires w >= 1 && 0 <= r < w && 0 <= s < w && a * w + r == c * w + s
    ensures a == c && r == s
  {
    assert (a - c) * w == s - r;
    assert (c - a) * w == r - s;
    BelowOne(a - c, w);
    BelowOne(c - a, w);
  }

  /** Distinct rows of digits below `order` (in particular two distinct
      permutations of `0 .. order - 1`) have distinct hashes. */
  lemma {:induction false} HashInjective(p: seq<int>, q: seq<int>, base: int)
    requires base >= 1 && |p| == |q| && Digits(p, base) && Digits(q, base)
    requires Hash(p, base) == Hash(q, base)
    ensures p == q
  {
    if |p| > 0 {
      var k := |p| - 1;
      HashBounds(p[..k], base);
      HashBounds(q[..k], base);
      DigitSplit(p[k], Hash(p[..k], base), q[k], Hash(q[..k], base), Pow(base, k));
      HashInjective(p[..k], q[..k], base);
      assert p == p[..k] + [p[k]] && q == q[..k] + [q[k]];
    }
  }

  // ---- counting the patterns (`np.unique(hashval, return_counts=True)`) ----

  /** The distinct hashes with their counts, in order of first
      occurrence. */
  function Tally(hs: seq<int>): (t: seq<(int, nat)>)
  {
    if |hs| == 0 then [] else Bump(Tally(hs[..|hs| - 1]), hs[|hs| - 1])
  }

  /** Count one more `h`: its count goes up by one, or it is appended with
      count 1 when absent. */
  function Bump(t: seq<(int, nat)>, h: int): seq<(int, nat)>
  {
    if |t| == 0 then [(h, 1)]
    else if t[0].0 == h then [(h, t[0].1 + 1)] + t[1..]
    else [t[0]] + Bump(t[1..], h)
  }

  /** The count of `v` in a table, zero when absent. */
  function CountOf(t: seq<(int, nat)>, v: int): nat
  {
    if |t| == 0 then 0 else (if t[0].0 == v then t[0].1 else 0) + CountOf(t[1..], v)
  }

  function Total(t: seq<(int, nat)>): nat
  {
    if |t| == 0 then 0 else t[0].1 + Total(t[1..])
  }

  predicate KeysDistinct(t: seq<(int, nat)>)
  {
    forall i, j :: 0 <= i < j < |t| ==> t[i].0 != t[j].0
  }

  /** Bumping keeps the keys in place and never lowers a count; it appends
      `(h, 1)` only when `h` is absent. */
  lemma {:induction false} BumpShape(t: seq<(int, nat)>, h: int)
    ensures var r := Bump(t, h);
      && (|r| == |t| || r == t + [(h, 1)])
      && (forall k :: 0 <= k < |t| ==> r[k].0 == t[k].0 && r[k].1 >= t[k].1)
      && (r == t + [(h, 1)] ==> forall k :: 0 <= k < |t| ==> t[k].0 != h)
  {
    if |t| > 0 && t[0].0 != h {
      BumpShape(t[1..], h);
      var r := Bump(t, h);
      assert r == [t[0]] + Bump(t[1..], h);
      forall k | 0 < k < |t| ensures r[k] == Bump(t[1..], h)[k - 1] && t[k] == t[1..][k - 1] {
      }
      if r == t + [(h, 1)] {
        assert Bump(t[1..], h) == t[1..] + [(h, 1)];
      }
    }
  }

  /** Bumping `h` adds one to the count of `h` and to the total, and leaves
      every other count alone. */
  lemma {:induction false} BumpCounts(t: seq<(int, nat)>, h: int, v: int)
    ensures CountOf(Bump(t, h), v) == CountOf(t, v) + (if v == h then 1 else 0)
    ensures Total(Bump(t, h)) == Total(t) + 1
  {
    if |t| > 0 && t[0].0 != h {
      BumpCounts(t[1..], h, v);
      assert (([t[0]] + Bump(t[1..], h))[1..]) == Bump(t[1..], h);
    } else if |t| > 0 {
      assert ([(h, t[0].1 + 1)] + t[1..])[1..] == t[1..];
    }
  }

  lemma BumpKeys(t: seq<(int, nat)>, h: int)
    requires KeysDistinct(t)
    ensures KeysDistinct(Bump(t, h))
  {
    var r := Bump(t, h);
    BumpShape(t, h);
    forall i, j | 0 <= i < j < |r| ensures r[i].0 != r[j].0 {
      if j < |t| {
        assert r[i].0 == t[i].0 && r[j].0 == t[j].0;
      } else {
        assert r[i].0 == t[i].0;
      }
    }
  }

  lemma {:induction false} TallyDistinct(hs: seq<int>)
    ensures KeysDistinct(Tally(hs))
  {
    if |hs| > 0 {
      TallyDistinct(hs[..|hs| - 1]);
      BumpKeys(Tally(hs[..|hs| - 1]), hs[|hs| - 1]);
    }
  }

  lemma {:induction false} TallyTotal(hs: seq<int>)
    ensures Total(Tally(hs)) == |hs|
  {
    if |hs| > 0 {
      TallyTotal(hs[..|hs| - 1]);
      BumpCounts(Tally(hs[..|hs| - 1]), hs[|hs| - 1], hs[|hs| - 1]);
    }
  }

  lemma {:induction false} TallyCount(hs: seq<int>, v: int)
    ensures CountOf(Tally(hs), v) == multiset(hs)[v]
  {
    if |hs| > 0 {
      var pre, h := hs[..|hs| - 1], hs[|hs| - 1];
      TallyCount(pre, v);
      BumpCounts(Tally(pre), h, v);
      assert hs == pre + [h];
    }
  }

  lemma {:induction false} TallyPositive(hs: seq<int>)
    ensures forall k :: 0 <= k < |Tally(hs)| ==> Tally(hs)[k].1 > 0 && Tally(hs)[k].0 in hs
  {
    if |hs| > 0 {
      var pre, h := hs[..|hs| - 1], hs[|hs| - 1];
      TallyPositive(pre);
      var t0 := Tally(pre);
      var t := Tally(hs);
      assert t == Bump(t0, h);
      BumpShape(t0, h);
      assert hs == pre + [h];
      forall k | 0 <= k < |t| ensures t[k].1 > 0 && t[k].0 in hs {
        if k < |t0| {
          assert t0[k].1 > 0 && t0[k].0 in pre;
          assert t[k].0 == t0[k].0 && t[k].1 >= t0[k].1;
        } else {
          assert t == t0 + [(h, 1)];
        }
      }
    }
  }

  /** The tally lists each hash once, with a positive count equal to the
      number of times it occurs; the counts add up to the number of
      hashes. */
  lemma TallyCounts(hs: seq<int>)
    ensures var t := Tally(hs);
      && KeysDistinct(t)
      && Total(t) == |hs|
      && (forall v :: CountOf(t, v) == multiset(hs)[v])
      && (forall k :: 0 <= k < |t| ==> t[k].1 > 0 && t[k].0 in hs)
  {
    TallyDistinct(hs);
    TallyTotal(hs);
    TallyPositive(hs);
    forall v ensures CountOf(Tally(hs), v) == multiset(hs)[v] {
      TallyCount(hs, v);
    }
  }

  function CountsOf(t: seq<(int, nat)>): (c: seq<nat>)
    ensures |c| == |t| && forall k :: 0 <= k < |t| ==> c[k] == t[k].1
  {
    seq(|t|, k requires 0 <= k < |t| => t[k].1)
  }

  function SumR(s: seq<real>): real
  {
    if |s| == 0 then 0.0 else SumR(s[..|s| - 1]) + s[|s| - 1]
  }

  function SumN(c: seq<nat>): nat
  {
    if |c| == 0 then 0 else SumN(c[..|c| - 1]) + c[|c| - 1]
  }

  lemma {:induction false} TotalSum(t: seq<(int, nat)>)
    ensures SumN(CountsOf(t)) == Total(t)
  {
    if |t| > 0 {
      TotalSum(t[1..]);
      SumNFront(CountsOf(t));
      assert CountsOf(t)[1..] == CountsOf(t[1..]);
    }
  }

  lemma {:induction false} SumNFront(c: seq<nat>)
    requires |c| > 0
    ensures SumN(c) == c[0] + SumN(c[1..])
    decreases |c|
  {
    if |c| > 1 {
      var n := |c| - 1;
      SumNFront(c[..n]);
      assert c[..n][1..] == c[1..][..n - 1];
    }
  }

  /** `c / c.sum()`: each count divided by the total. */
  function Probabilities(c: seq<nat>, total: nat): (p: seq<real>)
    requires total > 0
    ensures |p| == |c|
  {
    if |c| == 0 then []
    else Probabilities(c[..|c| - 1], total) + [c[|c| - 1] as real / total as real]
  }

  lemma DivMul(a: real, t: real)
    requires t > 0.0
    ensures (a / t) * t == a
  {
  }

  /** Each probability times the total is its count. */
  lemma {:induction false} ProbabilityAt(c: seq<nat>, total: nat, k: nat)
    requires total > 0 && k < |c|
    ensures Probabilities(c, total)[k] * total as real == c[k] as real
  {
    var n := |c| - 1;
    if k < n {
      ProbabilityAt(c[..n], total, k);
      assert Probabilities(c, total)[k] == Probabilities(c[..n], total)[k];
    } else {
      DivMul(c[n] as real, total as real);
    }
  }

  lemma {:induction false} ProbabilitiesSum(c: seq<nat>, total: nat)
    requires total > 0
    ensures SumR(Probabilities(c, total)) * total as real == SumN(c) as real
  {
    if |c| > 0 {
      var n := |c| - 1;
      ProbabilitiesSum(c[..n], total);
      var p := Probabilities(c, total);
      assert p[..n] == Probabilities(c[..n], total);
      ProbabilityAt(c, total, n);
    }
  }

  lemma UnitFactor(x: real, t: nat, s: nat)
    requires t > 0 && s == t && x * t as real == s as real
    ensures x == 1.0
  {
    var m := t as real;
    assert s as real == m;
    calc {
      x;
      (x * m) / m;
      m / m;
      1.0;
    }
  }

  /** Counts divided by their own total add up to 1. */
  lemma ProbabilitiesSumToOne(c: seq<nat>, n: nat)
    requires n > 0 && SumN(c) == n
    ensures SumR(Probabilities(c, n)) == 1.0
  {
    ProbabilitiesSum(c, n);
    UnitFactor(SumR(Probabilities(c, n)), n, SumN(c));
  }

  /** The pattern probabilities of a non-empty list of hashes add up to 1. */
  lemma HashProbabilitiesSumToOne(hs: seq<int>)
    requires |hs| > 0
    ensures SumR(Probabilities(CountsOf(Tally(hs)), |hs|)) == 1.0
  {
    TallyTotal(hs);
    TotalSum(Tally(hs));
    ProbabilitiesSumToOne(CountsOf(Tally(hs)), |hs|);
  }

  // ---- perm_entropy ----

  /** `idx` is an argsort of `row`: a permutation of its positions listing
      them by non-decreasing value. */
  predicate IsArgsort(row: seq<real>, idx: seq<int>)
  {
    && |idx| == |row|
    && (forall k :: 0 <= k < |idx| ==> 0 <= idx[k] < |row|)
    && (forall a, b :: 0 <= a < b < |idx| ==> idx[a] != idx[b])
    && (forall k :: 0 < k < |idx| ==> row[idx[k - 1]] <= row[idx[k]])
  }

  /** The hash of each embedded row's ordinal pattern. */
  function PatternHashes(rows: seq<seq<real>>, order: int, argsort: seq<real> -> seq<int>): (hs: seq<int>)
    ensures |hs| == |rows| && forall t :: 0 <= t < |rows| ==> hs[t] == Hash(argsort(rows[t]), order)
  {
    seq(|rows|, t requires 0 <= t < |rows| => Hash(argsort(rows[t]), order))
  }

  /** When every embedded row has `order` values and `argsort` sorts it,
      two rows get the same hash exactly when they have the same ordinal
      pattern. */
  lemma PatternHashesPatterns(rows: seq<seq<real>>, order: int, argsort: seq<real> -> seq<int>)
    requires order >= 1
    requires forall t :: 0 <= t < |rows| ==> |rows[t]| == order && IsArgsort(rows[t], argsort(rows[t]))
    ensures var hs := PatternHashes(rows, order, argsort);
      forall a, b :: 0 <= a < |rows| && 0 <= b < |rows| ==>
        (hs[a] == hs[b] <==> argsort(rows[a]) == argsort(rows[b]))
  {
    var hs := PatternHashes(rows, order, argsort);
    forall a, b | 0 <= a < |rows| && 0 <= b < |rows| && hs[a] == hs[b]
      ensures argsort(rows[a]) == argsort(rows[b])
    {
      HashInjective(argsort(rows[a]), argsort(rows[b]), order);
    }
  }

  function MapR(f: real -> real, p: seq<real>): (r: seq<real>)
    ensures |r| == |p| && forall k :: 0 <= k < |p| ==> r[k] == f(p[k])
  {
    seq(|p|, k requires 0 <= k < |p| => f(p[k]))
  }

  function Factorial(n: int): nat
  {
    if n <= 0 then 1 else n * Factorial(n - 1)
  }

  /** `perm_entropy` for one integer delay. */
  function PermEntropyAt(x: seq<real>, order: int, delay: int, normalize: bool,
                         argsort: seq<real> -> seq<int>, xlogx: real -> real, log2: real -> real): (r: Result<Option<real>>)
    ensures delay <= 0 ==> r == Err(AssertionError("delay must be greater than zero."))
    ensures delay > 0 ==> (r.Err? <==> Embedding(x, order, delay).Err?)
  {
    if delay <= 0 then Err(AssertionError("delay must be greater than zero."))
    else
      match Embedding(x, order, delay)
      case Err(e) => Err(e)
      case Ok(rows) =>
        var hs := PatternHashes(rows, order, argsort);
        var p := Probabilities(CountsOf(Tally(hs)), |hs|);
        var pe := -SumR(MapR(xlogx, p));
        if !normalize then Ok(Some(pe))
        else
          var d := log2(Factorial(order) as real);
          if d == 0.0 then Ok(None) else Ok(Some(pe / d))
  }

  /** The delay argument: one integer, or a list of them. */
  datatype Delay = One(d: int) | Many(ds: seq<int>)

  /** `np.mean`: NaN for an empty list or a NaN element. */
  function Mean(vs: seq<Option<real>>): (r: Option<real>)
    ensures r.Some? <==> |vs| > 0 && forall k :: 0 <= k < |vs| ==> vs[k].Some?
  {
    if |vs| == 0 || exists k :: 0 <= k < |vs| && vs[k].None? then None
    else Some(SumR(seq(|vs|, k requires 0 <= k < |vs| => vs[k].value)) / |vs| as real)
  }

  /** `perm_entropy(x, order, delay, normalize)`. */
  function PermEntropy(x: seq<real>, order: int, delay: Delay, normalize: bool,
                       argsort: seq<real> -> seq<int>, xlogx: real -> real, log2: real -> real): (r: Result<Option<real>>)
    ensures delay.Many? ==> (r.Ok? <==> forall k :: 0 <= k < |delay.ds| ==>
                               PermEntropyAt(x, order, delay.ds[k], normalize, argsort, xlogx, log2).Ok?)
  {
    match delay
    case One(d) => PermEntropyAt(x, order, d, normalize, argsort, xlogx, log2)
    case Many(ds) =>
      match MapAll(ds, d => PermEntropyAt(x, order, d, normalize, argsort, xlogx, log2))
      case Err(e) => Err(e)
      case Ok(vs) => Ok(Mean(vs))
  }

  /** A list of delays gives the mean of the per-delay entropies; an empty
      list gives NaN, and the first failing delay's error is raised. */
  lemma PermEntropyMean(x: seq<real>, order: int, ds: seq<int>, normalize: bool,
                        argsort: seq<real> -> seq<int>, xlogx: real -> real, log2: real -> real)
    ensures var f := d => PermEntropyAt(x, order, d, normalize, argsort, xlogx, log2);
      var r := PermEntropy(x, order, Many(ds), normalize, argsort, xlogx, log2);
      && (|ds| == 0 ==> r == Ok(None))
      && ((forall k :: 0 <= k < |ds| ==> f(ds[k]).Ok?) ==>
            r == Ok(Mean(seq(|ds|, k requires 0 <= k < |ds| => f(ds[k]).value))))
      && (r.Err? ==> exists k :: 0 <= k < |ds| && f(ds[k]).Err? && r.exc == f(ds[k]).exc)
  {
    var f := d => PermEntropyAt(x, order, d, normalize, argsort, xlogx, log2);
    var m := MapAll(ds, f);
    if m.Ok? {
      assert m.value == seq(|ds|, k requires 0 <= k < |ds| => f(ds[k]).value);
    }
  }

  /** The only argsort of a strictly increasing row is the identity. */
  lemma {:induction false} IncreasingArgsort(row: seq<real>, idx: seq<int>)
    requires IsArgsort(row, idx)
    requires forall a, b :: 0 <= a < b < |row| ==> row[a] < row[b]
    ensures forall k :: 0 <= k < |idx| ==> idx[k] == k
  {
    var n := |idx|;
    forall k | 0 < k < n ensures idx[k - 1] < idx[k] {
      assert row[idx[k - 1]] <= row[idx[k]];
      assert idx[k - 1] != idx[k];
    }
    IncreasingIndices(idx, n);
  }

  /** A strictly increasing list of `n` indices below `n` is `0 .. n - 1`. */
  lemma IncreasingIndices(idx: seq<int>, n: nat)
    requires |idx| == n
    requires forall k :: 0 <= k < n ==> 0 <= idx[k] < n
    requires forall k :: 0 < k < n ==> idx[k - 1] < idx[k]
    ensures forall k :: 0 <= k < n ==> idx[k] == k
  {
    LowerIndices(idx, n);
    UpperIndices(idx, n);
  }

  lemma {:induction false} LowerIndices(idx: seq<int>, m: nat)
    requires m <= |idx|
    requires forall k :: 0 <= k < |idx| ==> 0 <= idx[k]
    requires forall k :: 0 < k < |idx| ==> idx[k - 1] < idx[k]
    ensures forall k :: 0 <= k < m ==> idx[k] >= k
  {
    if m > 0 {
      LowerIndices(idx, m - 1);
      if m - 1 > 0 {
        assert idx[m - 2] < idx[m - 1];
      }
    }
  }

  lemma {:induction false} UpperIndices(idx: seq<int>, m: nat)
    requires m <= |idx|
    requires forall k :: 0 <= k < |idx| ==> idx[k] < |idx|
    requires forall k :: 0 < k < |idx| ==> idx[k - 1] < idx[k]
    ensures forall k :: |idx| - m <= k < |idx| ==> idx[k] <= k
  {
    if m > 0 {
      UpperIndices(idx, m - 1);
      var k := |idx| - m;
      if k + 1 < |idx| {
        assert idx[k] < idx[k + 1];
      }
    }
  }

  /** A strictly increasing series has a single ordinal pattern: there is
      one count and the probabilities are `[1.0]`; when `x log x` vanishes
      at 1 its entropy is 0, and so is the normalised entropy unless
      `log2(order!)` is 0, where `0 / 0` is NaN. */
  lemma IncreasingSinglePattern(x: seq<real>, order: int, delay: int, normalize: bool,
                                argsort: seq<real> -> seq<int>, xlogx: real -> real, log2: real -> real)
    requires forall a, b :: 0 <= a < b < |x| ==> x[a] < x[b]
    requires delay > 0 && Embedding(x, order, delay).Ok?
    requires forall row :: IsArgsort(row, argsort(row))
    requires xlogx(1.0) == 0.0
    ensures var hs := PatternHashes(Embedding(x, order, delay).value, order, argsort);
      Probabilities(CountsOf(Tally(hs)), |hs|) == [1.0]
    ensures var r := PermEntropyAt(x, order, delay, normalize, argsort, xlogx, log2);
      !normalize ==> r == Ok(Some(0.0))
    ensures var r := PermEntropyAt(x, order, delay, normalize, argsort, xlogx, log2);
      normalize ==> r == (if log2(Factorial(order) as real) == 0.0 then Ok(None) else Ok(Some(0.0)))
  {
    var rows := Embedding(x, order, delay).value;
    var hs := PatternHashes(rows, order, argsort);
    forall t | 0 <= t < |rows| ensures hs[t] == hs[0] {
      RowPattern(x, order, delay, argsort, t);
      RowPattern(x, order, delay, argsort, 0);
    }
    SingleProbabilities(hs);
    var p := Probabilities(CountsOf(Tally(hs)), |hs|);
    ZeroEntropy(p, xlogx);
  }

  /** Equal hashes give the single probability 1. */
  lemma SingleProbabilities(hs: seq<int>)
    requires |hs| > 0 && forall t :: 0 <= t < |hs| ==> hs[t] == hs[0]
    ensures Probabilities(CountsOf(Tally(hs)), |hs|) == [1.0]
  {
    SingleTally(hs);
    assert CountsOf(Tally(hs)) == [|hs|];
    OneProbability(|hs|);
  }

  lemma OneProbability(n: nat)
    requires n > 0
    ensures Probabilities([n], n) == [1.0]
  {
    ProbabilityAt([n], n, 0);
    UnitFactor(Probabilities([n], n)[0], n, [n][0]);
  }

  lemma ZeroEntropy(p: seq<real>, xlogx: real -> real)
    requires p == [1.0] && xlogx(1.0) == 0.0
    ensures -SumR(MapR(xlogx, p)) == 0.0
  {
    assert MapR(xlogx, p) == [0.0];
    assert SumR([0.0]) == SumR([]) + 0.0;
  }

  /** The ordinal pattern of each row of a strictly increasing series is
      the identity. */
  lemma RowPattern(x: seq<real>, order: int, delay: int, argsort: seq<real> -> seq<int>, t: int)
    requires forall a, b :: 0 <= a < b < |x| ==> x[a] < x[b]
    requires Embedding(x, order, delay).Ok? && 0 <= t < |Embedding(x, order, delay).value|
    requires forall row :: IsArgsort(row, argsort(row))
    ensures argsort(Embedding(x, order, delay).value[t]) == seq(order, k requires 0 <= k < order => k)
  {
    var row := Embedding(x, order, delay).value[t];
    var idx := argsort(row);
    assert IsArgsort(row, idx);
    forall a, b | 0 <= a < b < |row| ensures row[a] < row[b] {
      EmbeddingAt(x, order, delay, t, a);
      EmbeddingAt(x, order, delay, t, b);
      assert a * delay < b * delay;
    }
    IncreasingArgsort(row, idx);
  }

  /** A non-empty list of equal hashes tallies to one entry counting all of
      them. */
  lemma {:induction false} SingleTally(hs: seq<int>)
    requires |hs| > 0 && forall t :: 0 <= t < |hs| ==> hs[t] == hs[0]
    ensures Tally(hs) == [(hs[0], |hs|)]
  {
    if |hs| > 1 {
      var pre := hs[..|hs| - 1];
      SingleTally(pre);
      var n := |hs|;
      assert Tally(hs) == Bump([(hs[0], n - 1)], hs[0]);
      assert [(hs[0], n - 1 + 1)] + [(hs[0], n - 1)][1..] == [(hs[0], n)];
    }
  }
}
