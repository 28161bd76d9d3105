/** The run-length annotation codec: grouping `[index, value]` pairs into
    runs with an inclusive last index, reading the three kinds of text rows
    of an annotation file, and creating a fresh all-Init annotation. */
module Annotation {
  import opened Py
  import opened Text

  /** Sleep state codes of the default state map. */
  const NREM := 1
  const REM := 2
  const Wake := 3
  const Init := 4

  /** One `[index, value]` element of the grouping's input. */
  datatype Pair<V> = Pair(index: int, value: V)

  /** One `[first_index, last_index, value]` run; `last` is inclusive. */
  datatype Run<V> = Run(first: int, last: int, value: V)

  /** A transient event: `[second, name]`. */
  datatype Marker = Marker(second: int, name: string)

  /** A bounded event: `[start, end, name]`. */
  datatype StartEnd = StartEnd(start: int, end: int, name: string)

  /** The annotation record: one state code per second, plus the events. */
  datatype MiAnnotation = MiAnnotation(sleepState: seq<int>, marker: seq<Marker>, startEnd: seq<StartEnd>)

  /** `[[idx + offset, each] for idx, each in enumerate(a)]`. */
  function Enumerate<V>(a: seq<V>, offset: int): (ps: seq<Pair<V>>)
    ensures |ps| == |a|
  {
    if |a| == 0 then [] else [Pair(offset, a[0])] + Enumerate(a[1..], offset + 1)
  }

  lemma {:induction false} EnumerateAt<V>(a: seq<V>, offset: int, i: int)
    requires 0 <= i < |a|
    ensures Enumerate(a, offset)[i] == Pair(offset + i, a[i])
  {
    if i > 0 {
      EnumerateAt(a[1..], offset + 1, i - 1);
    }
  }

  /** Neighbouring runs never carry the same value. */
  predicate AdjacentDistinct<V(==)>(r: seq<Run<V>>)
  {
    |r| < 2 || (r[0].value != r[1].value && AdjacentDistinct(r[1..]))
  }

  /** `lst2group`: a maximal block of consecutive pairs with equal values
      becomes one run from the block's first index to its last index
      (inclusive), carrying the shared value. */
  function Lst2Group<V(==)>(ps: seq<Pair<V>>): (r: seq<Run<V>>)
    ensures |r| <= |ps|
    ensures |r| == 0 <==> |ps| == 0
  {
    if |ps| == 0 then []
    else
      var rest := Lst2Group(ps[1..]);
      if |rest| > 0 && rest[0].value == ps[0].value then
        [Run(ps[0].index, rest[0].last, ps[0].value)] + rest[1..]
      else
        [Run(ps[0].index, ps[0].index, ps[0].value)] + rest
  }

  /** The runs start at the first pair and end at the last one, and
      neighbouring runs differ: each run is a maximal block. */
  lemma {:induction false} Lst2GroupShape<V>(ps: seq<Pair<V>>)
    requires |ps| > 0
    ensures var r := Lst2Group(ps);
      && r[0].first == ps[0].index && r[0].value == ps[0].value
      && r[|r| - 1].last == ps[|ps| - 1].index
      && AdjacentDistinct(r)
  {
    if |ps| > 1 {
      Lst2GroupShape(ps[1..]);
    }
  }

  /** Runs that tile the seconds `lo .. hi - 1` in order, without gaps or
      overlaps, each at least one second long. */
  predicate Tiles<V>(r: seq<Run<V>>, lo: int, hi: int)
    decreases |r|
  {
    if |r| == 0 then lo == hi
    else
      && r[0].first == lo
      && r[0].first <= r[0].last
      && Tiles(r[1..], r[0].last + 1, hi)
  }

  /** Each run as `last - first + 1` copies of its value, in run order: what
      the loader does with sleep-state rows. */
  function ExpandRuns<V>(r: seq<Run<V>>): seq<V>
  {
    if |r| == 0 then [] else Repeat(r[0].value, r[0].last - r[0].first + 1) + ExpandRuns(r[1..])
  }

  lemma EnumerateTail<V>(a: seq<V>, offset: int)
    requires |a| > 0
    ensures Enumerate(a, offset)[0] == Pair(offset, a[0])
    ensures Enumerate(a, offset)[1..] == Enumerate(a[1..], offset + 1)
  {
  }

  lemma RepeatCons<V>(v: V, m: int)
    requires m >= 1
    ensures Repeat(v, m) == [v] + Repeat(v, m - 1)
  {
  }

  lemma RepeatSucc<V>(v: V, k: int)
    requires k >= 0
    ensures Repeat(v, k + 1) == [v] + Repeat(v, k)
  {
  }

  /** One step of `lst2group`: the first pair either joins the first run of
      the rest or starts a run of its own. */
  lemma Lst2GroupCons<V>(p: Pair<V>, ps: seq<Pair<V>>)
    ensures var rest := Lst2Group(ps);
      Lst2Group([p] + ps)
        == if |rest| > 0 && rest[0].value == p.value then [Run(p.index, rest[0].last, p.value)] + rest[1..]
           else [Run(p.index, p.index, p.value)] + rest
  {
    assert ([p] + ps)[1..] == ps;
  }

  lemma ExpandCons<V>(x: Run<V>, r: seq<Run<V>>, n: int)
    requires n == x.last - x.first + 1
    ensures ExpandRuns([x] + r) == Repeat(x.value, n) + ExpandRuns(r)
  {
    assert ([x] + r)[1..] == r;
  }

  lemma TilesCons<V>(x: Run<V>, r: seq<Run<V>>, lo: int, hi: int)
    requires x.first == lo && x.first <= x.last && Tiles(r, x.last + 1, hi)
    ensures Tiles([x] + r, lo, hi)
  {
    assert ([x] + r)[1..] == r;
  }

  /** Grouping an enumerated sequence gives runs that tile its index range
      `offset .. end - 1`. */
  lemma {:induction false} GroupTiles<V>(a: seq<V>, offset: int, end: int)
    requires end == offset + |a|
    ensures Tiles(Lst2Group(Enumerate(a, offset)), offset, end)
  {
    if |a| > 0 {
      GroupTiles(a[1..], offset + 1, end);
      var rest := Lst2Group(Enumerate(a[1..], offset + 1));
      Lst2GroupCons(Pair(offset, a[0]), Enumerate(a[1..], offset + 1));
      if |rest| > 0 && rest[0].value == a[0] {
        var x := rest[0];
        assert Tiles(rest[1..], x.last + 1, end);
        TilesCons(Run(offset, x.last, a[0]), rest[1..], offset, end);
      } else {
        TilesCons(Run(offset, offset, a[0]), rest, offset, end);
      }
    }
  }

  /** The run lies inside `a` (read from `offset`) and every sample it
      covers carries its value. */
  ghost predicate RunHolds<V>(a: seq<V>, offset: int, x: Run<V>)
  {
    && 0 <= x.first - offset && x.last - offset < |a|
    && forall j :: x.first - offset <= j <= x.last - offset ==> a[j] == x.value
  }

  lemma RunHoldsAt<V>(a: seq<V>, offset: int, x: Run<V>, j: int)
    requires RunHolds(a, offset, x) && x.first - offset <= j <= x.last - offset
    ensures 0 <= j < |a| && a[j] == x.value
  {
  }

  /** A run that holds on the tail of `a` (read from `offset + 1`) holds on
      `a` read from `offset`. */
  lemma ShiftHolds<V>(a: seq<V>, offset: int, x: Run<V>)
    requires |a| > 0 && RunHolds(a[1..], offset + 1, x)
    ensures RunHolds(a, offset, x)
  {
    forall j | x.first - offset <= j <= x.last - offset
      ensures 0 <= j < |a| && a[j] == x.value
    {
      RunHoldsAt(a[1..], offset + 1, x, j - 1);
    }
  }

  /** Each run of `lst2group` over an enumerated sequence is a block of
      equal values. */
  lemma {:induction false} GroupValues<V>(a: seq<V>, offset: int)
    ensures forall i :: 0 <= i < |Lst2Group(Enumerate(a, offset))| ==> RunHolds(a, offset, Lst2Group(Enumerate(a, offset))[i])
  {
    if |a| > 0 {
      var p := Pair(offset, a[0]);
      var ps := Enumerate(a[1..], offset + 1);
      GroupValues(a[1..], offset + 1);
      var rest := Lst2Group(ps);
      var r := Lst2Group([p] + ps);
      Lst2GroupCons(p, ps);
      assert Enumerate(a, offset) == [p] + ps;
      forall i | 0 <= i < |rest| ensures RunHolds(a, offset, rest[i]) {
        ShiftHolds(a, offset, rest[i]);
      }
      if |rest| > 0 && rest[0].value == a[0] {
        Lst2GroupShape(ps);
        EnumerateAt(a[1..], offset + 1, 0);
        var x := Run(offset, rest[0].last, a[0]);
        assert RunHolds(a, offset, rest[0]);
        forall j | x.first - offset <= j <= x.last - offset
          ensures 0 <= j < |a| && a[j] == x.value
        {
          if j > 0 {
            RunHoldsAt(a, offset, rest[0], j);
          }
        }
        assert r == [x] + rest[1..];
        forall i | 0 <= i < |r| ensures RunHolds(a, offset, r[i]) {
          if i > 0 {
            assert r[i] == rest[i];
          }
        }
      } else {
        var x := Run(offset, offset, a[0]);
        assert RunHolds(a, offset, x);
        assert r == [x] + rest;
        forall i | 0 <= i < |r| ensures RunHolds(a, offset, r[i]) {
          if i > 0 {
            assert r[i] == rest[i - 1];
          }
        }
      }
    }
  }

  /** Neighbouring runs differ, stated index by index. */
  lemma {:induction false} AdjacentDistinctAt<V>(r: seq<Run<V>>)
    requires AdjacentDistinct(r)
    ensures forall i :: 0 < i < |r| ==> r[i - 1].value != r[i].value
  {
    if |r| >= 2 {
      AdjacentDistinctAt(r[1..]);
      forall i | 1 < i < |r| ensures r[i - 1].value != r[i].value {
        assert r[i - 1] == r[1..][i - 2] && r[i] == r[1..][i - 1];
      }
    }
  }

  /** In a tiling each run starts right after the one before it ends. */
  lemma {:induction false} TilesAdjacent<V>(r: seq<Run<V>>, lo: int, hi: int)
    requires Tiles(r, lo, hi)
    ensures |r| > 0 ==> r[0].first == lo && r[|r| - 1].last == hi - 1
    ensures forall i :: 0 < i < |r| ==> r[i].first == r[i - 1].last + 1
    decreases |r|
  {
    if |r| > 0 {
      TilesAdjacent(r[1..], r[0].last + 1, hi);
      forall i | 0 < i < |r| ensures r[i].first == r[i - 1].last + 1 {
        if i > 1 {
          assert r[i] == r[1..][i - 1] && r[i - 1] == r[1..][i - 2];
        }
      }
      if |r| == 1 {
        assert r[1..] == [];
      } else {
        assert r[|r| - 1] == r[1..][|r| - 2];
      }
    }
  }

  lemma ExpandJoin<V>(i: int, x: Run<V>, tl: seq<Run<V>>)
    requires x.first == i + 1 && x.first <= x.last
    ensures ExpandRuns([Run(i, x.last, x.value)] + tl) == [x.value] + ExpandRuns([x] + tl)
  {
    var k := x.last - x.first + 1;
    var e := ExpandRuns(tl);
    var rep := Repeat(x.value, k);
    ExpandCons(Run(i, x.last, x.value), tl, k + 1);
    ExpandCons(x, tl, k);
    RepeatSucc(x.value, k);
    assert ([x.value] + rep) + e == [x.value] + (rep + e);
  }

  lemma ExpandSingle<V>(p: Pair<V>, rest: seq<Run<V>>)
    ensures ExpandRuns([Run(p.index, p.index, p.value)] + rest) == [p.value] + ExpandRuns(rest)
  {
    RepeatCons(p.value, 1);
    ExpandCons(Run(p.index, p.index, p.value), rest, 1);
  }

  /** Expanding the runs of an enumerated sequence gives the sequence back. */
  lemma {:induction false} GroupExpands<V>(a: seq<V>, offset: int)
    ensures ExpandRuns(Lst2Group(Enumerate(a, offset))) == a
  {
    if |a| > 0 {
      var p := Pair(offset, a[0]);
      var ps := Enumerate(a[1..], offset + 1);
      GroupExpands(a[1..], offset + 1);
      GroupTiles(a[1..], offset + 1, offset + |a|);
      var rest := Lst2Group(ps);
      Lst2GroupCons(p, ps);
      if |rest| > 0 && rest[0].value == a[0] {
        assert rest == [rest[0]] + rest[1..];
        ExpandJoin(offset, rest[0], rest[1..]);
      } else {
        ExpandSingle(p, rest);
      }
      assert a == [a[0]] + a[1..];
    }
  }

  lemma EnumerateRepeat<V>(v: V, m: int, b: seq<V>, offset: int)
    requires m >= 1
    ensures Enumerate(Repeat(v, m) + b, offset) == [Pair(offset, v)] + Enumerate(Repeat(v, m - 1) + b, offset + 1)
  {
    var a := Repeat(v, m) + b;
    RepeatCons(v, m);
    assert a[0] == v;
    assert a[1..] == Repeat(v, m - 1) + b;
  }

  /** Grouping a block of `m` copies of `v` that is followed by something
      else gives one run for the block and then the grouping of the rest,
      which starts at index `next`. */
  lemma {:induction false} GroupBlock<V>(v: V, m: int, b: seq<V>, offset: int, next: int)
    requires m >= 1 && next == offset + m
    requires |b| > 0 ==> b[0] != v
    ensures Lst2Group(Enumerate(Repeat(v, m) + b, offset))
         == [Run(offset, next - 1, v)] + Lst2Group(Enumerate(b, next))
    decreases m
  {
    var ps := Enumerate(Repeat(v, m - 1) + b, offset + 1);
    EnumerateRepeat(v, m, b, offset);
    Lst2GroupCons(Pair(offset, v), ps);
    var rest := Lst2Group(ps);
    var tail := Lst2Group(Enumerate(b, next));
    var whole := Lst2Group([Pair(offset, v)] + ps);
    if m == 1 {
      assert Repeat(v, 0) + b == b;
      assert rest == tail;
      if |b| > 0 {
        EnumerateTail(b, next);
        Lst2GroupShape(Enumerate(b, next));
        assert rest[0].value != v;
      }
      assert whole == [Run(offset, offset, v)] + rest;
    } else {
      GroupBlock(v, m - 1, b, offset + 1, next);
      assert rest == [Run(offset + 1, next - 1, v)] + tail;
      assert rest[1..] == tail;
      assert whole == [Run(offset, next - 1, v)] + rest[1..];
    }
  }

  lemma ExpandedHead<V>(r: seq<Run<V>>, lo: int, hi: int)
    requires Tiles(r, lo, hi) && |r| > 0
    ensures |ExpandRuns(r)| > 0 && ExpandRuns(r)[0] == r[0].value
  {
    RepeatCons(r[0].value, r[0].last - r[0].first + 1);
  }

  lemma ExampleBlocks()
    ensures Repeat(3, 2) + [] == [3, 3]
    ensures Repeat(1, 3) + [3, 3] == [1, 1, 1, 3, 3]
    ensures Repeat(2, 5) + [1, 1, 1, 3, 3] == [2, 2, 2, 2, 2, 1, 1, 1, 3, 3]
  {
  }

  /** The example of the function's documentation: the pairs
      `[1, 2] .. [10, 3]` are the enumeration from 1 of the codes below. */
  lemma Lst2GroupExample()
    ensures Lst2Group(Enumerate([2, 2, 2, 2, 2, 1, 1, 1, 3, 3], 1))
            == [Run(1, 5, 2), Run(6, 8, 1), Run(9, 10, 3)]
  {
    var c := Repeat(3, 2) + [];
    var b := Repeat(1, 3) + c;
    ExampleBlocks();
    GroupBlock(2, 5, b, 1, 6);
    GroupBlock(1, 3, c, 6, 9);
    GroupBlock(3, 2, [], 9, 11);
  }

  /** The other direction of the round trip: expanding runs that tile a
      range and whose neighbours differ, then grouping again, gives the same
      runs. */
  lemma {:induction false} RegroupExpanded<V>(r: seq<Run<V>>, lo: int, hi: int)
    requires Tiles(r, lo, hi) && AdjacentDistinct(r)
    ensures Lst2Group(Enumerate(ExpandRuns(r), lo)) == r
    decreases |r|
  {
    if |r| > 0 {
      var x := r[0];
      var tail := r[1..];
      var next := x.last + 1;
      RegroupExpanded(tail, next, hi);
      var b := ExpandRuns(tail);
      if |b| > 0 {
        ExpandedLength(tail, next, hi);
        ExpandedHead(tail, next, hi);
      }
      GroupBlock(x.value, x.last - x.first + 1, b, lo, next);
      assert [x] + tail == r;
    }
  }

  /** Runs that tile `lo .. hi - 1` expand to `hi - lo` values. */
  lemma {:induction false} ExpandedLength<V>(r: seq<Run<V>>, lo: int, hi: int)
    requires Tiles(r, lo, hi)
    ensures |ExpandRuns(r)| == hi - lo
    decreases |r|
  {
    if |r| > 0 {
      ExpandedLength(r[1..], r[0].last + 1, hi);
    }
  }

  /** Every run of a tiling lies inside the tiled range. */
  lemma {:induction false} TilesBounds<V>(r: seq<Run<V>>, lo: int, hi: int)
    requires Tiles(r, lo, hi)
    ensures forall i :: 0 <= i < |r| ==> lo <= r[i].first <= r[i].last < hi
    decreases |r|
  {
    if |r| > 0 {
      TilesBounds(r[1..], r[0].last + 1, hi);
      ExpandedLength(r[1..], r[0].last + 1, hi);
      forall i | 1 <= i < |r| ensures lo <= r[i].first <= r[i].last < hi {
        assert r[i] == r[1..][i - 1];
      }
    }
  }

  lemma {:induction false} ExpandAppend<V>(a: seq<Run<V>>, b: seq<Run<V>>)
    ensures ExpandRuns(a + b) == ExpandRuns(a) + ExpandRuns(b)
  {
    if |a| > 0 {
      assert (a + b)[1..] == a[1..] + b;
      ExpandAppend(a[1..], b);
      var x := Repeat(a[0].value, a[0].last - a[0].first + 1);
      assert x + (ExpandRuns(a[1..]) + ExpandRuns(b)) == (x + ExpandRuns(a[1..])) + ExpandRuns(b);
    } else {
      assert a + b == b;
    }
  }

  // ---- text rows ----

  /** The fields of one row of the annotation file. */
  function Fields(line: string): seq<string>
  {
    Split(line, CommaSpace)
  }

  /** `[int(each[1]), each[7]]` for one marker row. */
  function ParseMarkerRow(line: string): Result<Marker>
  {
    var f := Fields(line);
    if |f| <= 1 then Err(IndexError)
    else match ParseInt(f[1])
      case None => Err(ValueError)
      case Some(sec) => if |f| <= 7 then Err(IndexError) else Ok(Marker(sec, f[7]))
  }

  /** `[int(each[1]), int(each[4]), each[7]]` for one start-end row. */
  function ParseStartEndRow(line: string): Result<StartEnd>
  {
    var f := Fields(line);
    if |f| <= 1 then Err(IndexError)
    else match ParseInt(f[1])
      case None => Err(ValueError)
      case Some(start) =>
        if |f| <= 4 then Err(IndexError)
        else match ParseInt(f[4])
          case None => Err(ValueError)
          case Some(end) => if |f| <= 7 then Err(IndexError) else Ok(StartEnd(start, end, f[7]))
  }

  /** A sleep-state row read as the run `[int(each[1]), int(each[4]), int(each[6])]`. */
  function ParseStateRow(line: string): Result<Run<int>>
  {
    var f := Fields(line);
    if |f| <= 6 then Err(IndexError)
    else match (ParseInt(f[6]), ParseInt(f[4]), ParseInt(f[1]))
      case (Some(v), Some(e), Some(s)) => Ok(Run(s, e, v))
      case _ => Err(ValueError)
  }

  /** `marker2mianno`: one marker per row, in row order. Its guard
      `marker != [] or marker is not None` holds for every list. */
  function Marker2MiAnno(lines: seq<string>): (r: Result<seq<Marker>>)
    ensures r.Ok? <==> forall i :: 0 <= i < |lines| ==> ParseMarkerRow(lines[i]).Ok?
    ensures r.Ok? ==> |r.value| == |lines| &&
                      forall i :: 0 <= i < |lines| ==> r.value[i] == ParseMarkerRow(lines[i]).value
  {
    MapAll(lines, ParseMarkerRow)
  }

  /** `start_end2mianno`: one event per row, in row order. */
  function StartEnd2MiAnno(lines: seq<string>): (r: Result<seq<StartEnd>>)
    ensures r.Ok? <==> forall i :: 0 <= i < |lines| ==> ParseStartEndRow(lines[i]).Ok?
    ensures r.Ok? ==> |r.value| == |lines| &&
                      forall i :: 0 <= i < |lines| ==> r.value[i] == ParseStartEndRow(lines[i]).value
  {
    MapAll(lines, ParseStartEndRow)
  }

  /** `sleep_state2mianno`: every row contributes `end - start + 1` copies of
      its state code (none when that is not positive), in row order. */
  function SleepState2MiAnno(lines: seq<string>): (r: Result<seq<int>>)
    ensures r.Ok? <==> forall i :: 0 <= i < |lines| ==> ParseStateRow(lines[i]).Ok?
    ensures r.Ok? && |lines| > 0 ==>
      var run := ParseStateRow(lines[0]).value;
      r.value == Repeat(run.value, run.last - run.first + 1) + SleepState2MiAnno(lines[1..]).value
  {
    match MapAll(lines, ParseStateRow)
    case Err(e) => Err(e)
    case Ok(runs) => Ok(ExpandRuns(runs))
  }

  /** `create_new_mianno`: `data_duration` seconds of Init and no events. */
  function CreateNewMiAnno(dataDuration: int): (a: MiAnnotation)
    ensures |a.sleepState| == if dataDuration < 0 then 0 else dataDuration
    ensures forall i :: 0 <= i < |a.sleepState| ==> a.sleepState[i] == Init
    ensures a.marker == [] && a.startEnd == []
  {
    MiAnnotation(Repeat(Init, dataDuration), [], [])
  }

  // ---- writing rows: the layout the loader reads ----

  /** The eight fields `start_time, start_time_sec, start_code, end_time,
      end_time_sec, end_code, state_code, state` of a row. */
  function Row(startText: string, startSec: int, endText: string, endSec: int, code: string, name: string): string
  {
    Join([startText, IntToString(startSec), "1", endText, IntToString(endSec), "0", code, name], CommaSpace)
  }

  predicate RowTextOk(startText: string, endText: string, code: string, name: string)
  {
    NoCommaSpace(startText) && NoCommaSpace(endText) && NoCommaSpace(code) && NoCommaSpace(name)
  }

  lemma RowFields(startText: string, startSec: int, endText: string, endSec: int, code: string, name: string)
    requires RowTextOk(startText, endText, code, name)
    ensures Fields(Row(startText, startSec, endText, endSec, code, name))
         == [startText, IntToString(startSec), "1", endText, IntToString(endSec), "0", code, name]
  {
    var fs := [startText, IntToString(startSec), "1", endText, IntToString(endSec), "0", code, name];
    IntToStringNoCommaSpace(startSec);
    IntToStringNoCommaSpace(endSec);
    forall i | 0 <= i < |fs| ensures SafeField(fs[i], CommaSpace) {
      CommaSpaceSafe(fs[i]);
    }
    SplitJoin(fs, CommaSpace);
  }

  /** The row of one sleep-state run. */
  function StateRow(run: Run<int>, startText: string, endText: string, name: string): string
  {
    Row(startText, run.first, endText, run.last, IntToString(run.value), name)
  }

  lemma StateRowRoundTrip(run: Run<int>, startText: string, endText: string, name: string)
    requires RowTextOk(startText, endText, "", name)
    ensures ParseStateRow(StateRow(run, startText, endText, name)) == Ok(run)
  {
    IntToStringNoCommaSpace(run.value);
    RowFields(startText, run.first, endText, run.last, IntToString(run.value), name);
    IntRoundTrip(run.first);
    IntRoundTrip(run.last);
    IntRoundTrip(run.value);
  }

  lemma MarkerRowRoundTrip(m: Marker, timeText: string, code: string)
    requires RowTextOk(timeText, timeText, code, m.name)
    ensures ParseMarkerRow(Row(timeText, m.second, timeText, m.second, code, m.name)) == Ok(m)
  {
    RowFields(timeText, m.second, timeText, m.second, code, m.name);
    IntRoundTrip(m.second);
  }

  lemma StartEndRowRoundTrip(e: StartEnd, startText: string, endText: string, code: string)
    requires RowTextOk(startText, endText, code, e.name)
    ensures ParseStartEndRow(Row(startText, e.start, endText, e.end, code, e.name)) == Ok(e)
  {
    RowFields(startText, e.start, endText, e.end, code, e.name);
    IntRoundTrip(e.start);
    IntRoundTrip(e.end);
  }

  /** The rows of a sequence of runs, one per run, with the time stamps and
      state names produced by text functions. */
  function RunRows(runs: seq<Run<int>>, timeText: int -> string, stateName: int -> string): (rows: seq<string>)
    ensures |rows| == |runs|
  {
    if |runs| == 0 then []
    else [StateRow(runs[0], timeText(runs[0].first), timeText(runs[0].last), stateName(runs[0].value))]
         + RunRows(runs[1..], timeText, stateName)
  }

  /** Every row written for a run reads back as that run. */
  lemma {:induction false} RunRowsParse(runs: seq<Run<int>>, timeText: int -> string, stateName: int -> string)
    requires forall t :: NoCommaSpace(timeText(t))
    requires forall v :: NoCommaSpace(stateName(v))
    ensures MapAll(RunRows(runs, timeText, stateName), ParseStateRow) == Ok(runs)
  {
    if |runs| > 0 {
      var x := runs[0];
      var rows := RunRows(runs, timeText, stateName);
      StateRowRoundTrip(x, timeText(x.first), timeText(x.last), stateName(x.value));
      RunRowsParse(runs[1..], timeText, stateName);
      assert rows[1..] == RunRows(runs[1..], timeText, stateName);
      assert runs == [x] + runs[1..];
    }
  }

  /** The sleep-state rows of a dense state sequence: one row per run. */
  function StateRows(a: seq<int>, timeText: int -> string, stateName: int -> string): seq<string>
  {
    RunRows(Lst2Group(Enumerate(a, 0)), timeText, stateName)
  }

  /** The codec's round trip: dense array, runs, text rows, dense array. */
  lemma SleepStateRoundTrip(a: seq<int>, timeText: int -> string, stateName: int -> string)
    requires forall t :: NoCommaSpace(timeText(t))
    requires forall v :: NoCommaSpace(stateName(v))
    ensures SleepState2MiAnno(StateRows(a, timeText, stateName)) == Ok(a)
  {
    RunRowsParse(Lst2Group(Enumerate(a, 0)), timeText, stateName);
    GroupExpands(a, 0);
  }

  /** Reading the rows of runs whose neighbours differ and that tile a range
      gives the runs back when they are grouped again. */
  lemma StateRowsRegroup(r: seq<Run<int>>, hi: int, timeText: int -> string, stateName: int -> string)
    requires Tiles(r, 0, hi) && AdjacentDistinct(r)
    requires forall t :: NoCommaSpace(timeText(t))
    requires forall v :: NoCommaSpace(stateName(v))
    ensures SleepState2MiAnno(RunRows(r, timeText, stateName)).Ok?
    ensures Lst2Group(Enumerate(SleepState2MiAnno(RunRows(r, timeText, stateName)).value, 0)) == r
  {
    RunRowsParse(r, timeText, stateName);
    RegroupExpanded(r, 0, hi);
  }

  /** The row of a marker: its second stands in both time columns. */
  function MarkerRow(m: Marker, clock: int -> string, code: string): string
  {
    Row(clock(m.second), m.second, clock(m.second), m.second, code, m.name)
  }

  /** The row of a start-end event. */
  function StartEndRow(e: StartEnd, clock: int -> string, code: string): string
  {
    Row(clock(e.start), e.start, clock(e.end), e.end, code, e.name)
  }

  function MarkerRows(ms: seq<Marker>, clock: int -> string, code: string): (rows: seq<string>)
    ensures |rows| == |ms| && forall i :: 0 <= i < |ms| ==> rows[i] == MarkerRow(ms[i], clock, code)
  {
    seq(|ms|, i requires 0 <= i < |ms| => MarkerRow(ms[i], clock, code))
  }

  function StartEndRows(es: seq<StartEnd>, clock: int -> string, code: string): (rows: seq<string>)
    ensures |rows| == |es| && forall i :: 0 <= i < |es| ==> rows[i] == StartEndRow(es[i], clock, code)
  {
    seq(|es|, i requires 0 <= i < |es| => StartEndRow(es[i], clock, code))
  }

  /** Marker rows read back as the markers, in order. */
  lemma MarkerRowsParse(ms: seq<Marker>, clock: int -> string, code: string)
    requires forall t :: NoCommaSpace(clock(t))
    requires NoCommaSpace(code) && forall i :: 0 <= i < |ms| ==> NoCommaSpace(ms[i].name)
    ensures Marker2MiAnno(MarkerRows(ms, clock, code)) == Ok(ms)
  {
    var rows := MarkerRows(ms, clock, code);
    forall i | 0 <= i < |ms| ensures ParseMarkerRow(rows[i]) == Ok(ms[i]) {
      MarkerRowRoundTrip(ms[i], clock(ms[i].second), code);
    }
    assert MapAll(rows, ParseMarkerRow).value == ms;
  }

  /** Start-end rows read back as the events, in order. */
  lemma StartEndRowsParse(es: seq<StartEnd>, clock: int -> string, code: string)
    requires forall t :: NoCommaSpace(clock(t))
    requires NoCommaSpace(code) && forall i :: 0 <= i < |es| ==> NoCommaSpace(es[i].name)
    ensures StartEnd2MiAnno(StartEndRows(es, clock, code)) == Ok(es)
  {
    var rows := StartEndRows(es, clock, code);
    forall i | 0 <= i < |es| ensures ParseStartEndRow(rows[i]) == Ok(es[i]) {
      StartEndRowRoundTrip(es[i], clock(es[i].start), clock(es[i].end), code);
    }
    assert MapAll(rows, ParseStartEndRow).value == es;
  }
}
