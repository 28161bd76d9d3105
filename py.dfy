/** Python semantics the core relies on: exceptions as results, `int(x)` on
    floats, slicing with clamped and negative bounds, `list.index`, and the
    dynamically typed arguments whose types the source checks at run time. */
module Py {

  /** The exceptions the core raises (or lets escape from a built-in). */
  datatype Exc =
    | TypeError
    | ValueError
    | IndexError
    | KeyError
    | ZeroDivisionError
    | NameError
    | AttributeError
    | AssertionError(message: string)

  datatype Result<T> = Ok(value: T) | Err(exc: Exc)

  datatype Option<T> = None | Some(value: T)

  /** A Python number: an `int` (a `bool` counts as one) or a `float`.
      Floats are modelled as exact reals. */
  datatype Num = Int(i: int) | Float(r: real)
  {
    function Real(): real {
      match this
      case Int(i) => i as real
      case Float(r) => r
    }
  }

  /** A dynamically typed argument, for the operations that test the type of
      what they are given. */
  datatype Value =
    | NoneValue
    | IntValue(i: int)
    | FloatValue(r: real)
    | StrValue(s: string)
    | ListValue(items: seq<Value>)

  /** `isinstance(v, (int, float))`, with the number it holds. */
  function AsNum(v: Value): (r: Option<Num>)
    ensures r.Some? <==> v.IntValue? || v.FloatValue?
  {
    match v
    case IntValue(i) => Some(Int(i))
    case FloatValue(r) => Some(Float(r))
    case _ => None
  }

  /** A number as a dynamically typed value. */
  function NumValue(n: Num): (v: Value)
    ensures AsNum(v) == Some(n)
  {
    match n
    case Int(i) => IntValue(i)
    case Float(r) => FloatValue(r)
  }

  function Abs(x: int): nat { if x < 0 then -x else x }

  /** `int(x)` for a float: truncation toward zero. */
  function Trunc(x: real): (r: int)
    ensures x >= 0.0 ==> r as real <= x < r as real + 1.0
    ensures x < 0.0 ==> r as real - 1.0 < x <= r as real
  {
    if x >= 0.0 then x.Floor else -((-x).Floor)
  }

  /** `int(a / b)` for a positive divisor: true division truncated toward
      zero. */
  function TruncDiv(a: int, b: int): (q: int)
    requires b > 0
    ensures a >= 0 ==> q == a / b
  {
    if a >= 0 then a / b else -((-a) / b)
  }

  /** A slice bound as Python normalises it against a length `n`. */
  function Bound(i: int, n: nat): (b: nat)
    ensures b <= n
    ensures 0 <= i <= n ==> b == i
  {
    if i < 0 then (if i + n < 0 then 0 else i + n)
    else if i > n then n
    else i
  }

  /** `s[lo:hi]`: out-of-range bounds are clamped, negative ones count from
      the end, and an empty range gives the empty sequence. */
  function Slice<T>(s: seq<T>, lo: int, hi: int): (r: seq<T>)
    ensures Bound(lo, |s|) <= Bound(hi, |s|) ==> |r| == Bound(hi, |s|) - Bound(lo, |s|)
    ensures Bound(lo, |s|) >= Bound(hi, |s|) ==> r == []
    ensures forall k :: 0 <= k < |r| ==> r[k] == s[Bound(lo, |s|) + k]
  {
    var a, b := Bound(lo, |s|), Bound(hi, |s|);
    if a >= b then [] else s[a..b]
  }

  /** `s[:k]`. */
  function Take<T>(s: seq<T>, k: int): seq<T>
  {
    s[..Bound(k, |s|)]
  }

  lemma TakeSlice<T>(s: seq<T>, k: int)
    ensures Take(s, k) == Slice(s, 0, k)
  {
  }

  /** `s.index(x)`: the first position holding `x`, `None` for Python's
      ValueError. */
  function IndexOf<T(==)>(s: seq<T>, x: T): (r: Option<nat>)
    ensures r.None? <==> x !in s
    ensures r.Some? ==> r.value < |s| && s[r.value] == x
    ensures r.Some? ==> forall k :: 0 <= k < r.value ==> s[k] != x
  {
    if |s| == 0 then None
    else if s[0] == x then Some(0)
    else match IndexOf(s[1..], x)
      case None => None
      case Some(k) => Some(k + 1)
  }

  /** The `end - start + 1` copies that `[v] * n` makes (none when n <= 0). */
  function Repeat<T>(v: T, n: int): (r: seq<T>)
    ensures |r| == if n < 0 then 0 else n
    ensures forall k :: 0 <= k < |r| ==> r[k] == v
    decreases n
  {
    if n <= 0 then [] else [v] + Repeat(v, n - 1)
  }

  /** A list comprehension whose element expression may raise: the first
      element that raises decides the exception. */
  function MapAll<A, B>(xs: seq<A>, f: A -> Result<B>): (r: Result<seq<B>>)
    ensures r.Ok? <==> forall i :: 0 <= i < |xs| ==> f(xs[i]).Ok?
    ensures r.Ok? ==> |r.value| == |xs| && forall i :: 0 <= i < |xs| ==> r.value[i] == f(xs[i]).value
    ensures r.Err? ==> exists i :: 0 <= i < |xs| && f(xs[i]).Err? && r.exc == f(xs[i]).exc &&
                                   forall j :: 0 <= j < i ==> f(xs[j]).Ok?
  {
    if |xs| == 0 then Ok([])
    else match f(xs[0])
      case Err(e) => Err(e)
      case Ok(y) =>
        match MapAll(xs[1..], f)
        case Err(e) => Err(e)
        case Ok(ys) => Ok([y] + ys)
  }

  function Concat<T>(ss: seq<seq<T>>): seq<T>
  {
    if |ss| == 0 then [] else ss[0] + Concat(ss[1..])
  }

  lemma {:induction false} ConcatAppend<T>(ss: seq<seq<T>>, t: seq<T>)
    ensures Concat(ss + [t]) == Concat(ss) + t
  {
    if |ss| == 0 {
      assert ss + [t] == [t];
    } else {
      assert (ss + [t])[1..] == ss[1..] + [t];
      ConcatAppend(ss[1..], t);
    }
  }

  lemma {:induction false} ConcatSplit<T>(ss: seq<seq<T>>, tt: seq<seq<T>>)
    ensures Concat(ss + tt) == Concat(ss) + Concat(tt)
  {
    if |ss| == 0 {
      assert ss + tt == tt;
    } else {
      assert (ss + tt)[1..] == ss[1..] + tt;
      ConcatSplit(ss[1..], tt);
    }
  }

  /** Every element of a concatenation lies in `keys` exactly when every
      element of every part does. */
  lemma {:induction false} ConcatAllIn<T>(ss: seq<seq<T>>, keys: set<T>)
    ensures (forall i :: 0 <= i < |Concat(ss)| ==> Concat(ss)[i] in keys)
        <==> (forall k, i :: 0 <= k < |ss| && 0 <= i < |ss[k]| ==> ss[k][i] in keys)
  {
    if |ss| > 0 {
      ConcatAllIn(ss[1..], keys);
      var c := Concat(ss);
      var h := ss[0];
      var t := Concat(ss[1..]);
      assert c == h + t;
      if forall i :: 0 <= i < |c| ==> c[i] in keys {
        forall k, i | 0 <= k < |ss| && 0 <= i < |ss[k]| ensures ss[k][i] in keys {
          if k == 0 {
            assert c[i] == h[i];
          } else {
            assert ss[k] == ss[1..][k - 1];
            assert forall j :: 0 <= j < |t| ==> t[j] == c[j + |h|];
          }
        }
      }
      if forall k, i :: 0 <= k < |ss| && 0 <= i < |ss[k]| ==> ss[k][i] in keys {
        assert forall k, i :: 0 <= k < |ss[1..]| && 0 <= i < |ss[1..][k]| ==> ss[1..][k][i] in keys by {
          forall k, i | 0 <= k < |ss[1..]| && 0 <= i < |ss[1..][k]| ensures ss[1..][k][i] in keys {
            assert ss[1..][k] == ss[k + 1];
          }
        }
        forall i | 0 <= i < |c| ensures c[i] in keys {
          if i < |h| {
            assert c[i] == ss[0][i];
          } else {
            assert c[i] == t[i - |h|];
          }
        }
      }
    }
  }
}
