/** Reading a MiSleep annotation file and exporting an annotation as result
    tables: the section logic of the loader over the file's lines, and the
    hour chunking, run grouping and MARKER rows of the exporter. */
module AnnotationIo {
  import opened Py
  import opened Text
  import opened Annotation

  const MarkerHeader: string := "==========Marker=========="
  const StartEndHeader: string := "==========Start-End=========="
  const SleepStateHeader: string := "==========Sleep state=========="
  const SleepStageHeader: string := "==========Sleep stage=========="
  const Newline: string := "\n"

  const EmptyFile := AssertionError("Empty")
  const InvalidFile := AssertionError("Invalid")

  /** The three sections of a file: marker rows, start-end rows, sleep rows. */
  datatype Sections = Sections(marker: seq<string>, startEnd: seq<string>, sleepState: seq<string>)

  predicate HasHeaders(lines: seq<string>)
  {
    MarkerHeader in lines && StartEndHeader in lines && (SleepStateHeader in lines || SleepStageHeader in lines)
  }

  /** The line that opens the sleep section: the first `Sleep state` header
      or, when there is none, the first legacy `Sleep stage` header. */
  function SleepHeaderIndex(lines: seq<string>): Option<nat>
  {
    match IndexOf(lines, SleepStateHeader)
    case Some(i) => Some(i)
    case None => IndexOf(lines, SleepStageHeader)
  }

  /** `Sleep state` wins over `Sleep stage` wherever either stands. */
  lemma SleepHeaderChoice(lines: seq<string>)
    ensures var r := SleepHeaderIndex(lines);
      && (r.Some? <==> SleepStateHeader in lines || SleepStageHeader in lines)
      && (r.Some? && SleepStateHeader in lines ==>
            r.value < |lines| && lines[r.value] == SleepStateHeader &&
            forall k :: 0 <= k < r.value ==> lines[k] != SleepStateHeader)
      && (r.Some? && SleepStateHeader !in lines ==>
            r.value < |lines| && lines[r.value] == SleepStageHeader &&
            forall k :: 0 <= k < r.value ==> lines[k] != SleepStageHeader)
  {
  }

  /** The positions of the three section headers. */
  datatype Headers = Headers(marker: nat, startEnd: nat, sleep: nat)

  /** The header lookups of `load_misleep_anno`: the first occurrence of
      each header, after the test for an empty file. */
  function FindHeaders(lines: seq<string>): Result<Headers>
  {
    if lines == [""] then Err(EmptyFile)
    else
      var m, e, s := IndexOf(lines, MarkerHeader), IndexOf(lines, StartEndHeader), SleepHeaderIndex(lines);
      if m.None? || e.None? || s.None? then Err(InvalidFile)
      else Ok(Headers(m.value, e.value, s.value))
  }

  /** The slices between the headers: the lines strictly between the Marker
      and Start-End headers, those strictly between the Start-End and sleep
      headers, and those after the sleep header. */
  function SectionsAt(lines: seq<string>, h: Headers): Sections
  {
    Sections(Slice(lines, h.marker + 1, h.startEnd), Slice(lines, h.startEnd + 1, h.sleep), Slice(lines, h.sleep + 1, |lines|))
  }

  function FindSections(lines: seq<string>): Result<Sections>
  {
    match FindHeaders(lines)
    case Err(e) => Err(e)
    case Ok(h) => Ok(SectionsAt(lines, h))
  }

  /** The only failures of the lookups are "Empty", for the lines of an
      empty file, and "Invalid", for lines that miss a header. */
  lemma FindSectionsErrors(lines: seq<string>)
    ensures FindSections(lines) == Err(EmptyFile) <==> lines == [""]
    ensures FindSections(lines) == Err(InvalidFile) <==> lines != [""] && !HasHeaders(lines)
    ensures FindSections(lines).Err? ==> FindSections(lines) in {Err(EmptyFile), Err(InvalidFile)}
  {
    SleepHeaderChoice(lines);
  }

  /** With the first Marker header at `m`, the first Start-End header at `e`
      and the sleep header chosen at `s`, the sections are the lines
      strictly between `m` and `e`, those strictly between `e` and `s`
      (Python's slice: none when `s <= e + 1`) and every line after `s`. */
  lemma FindSectionsSlices(lines: seq<string>, m: nat, e: nat, s: nat)
    requires lines != [""]
    requires m < |lines| && lines[m] == MarkerHeader && forall k :: 0 <= k < m ==> lines[k] != MarkerHeader
    requires e < |lines| && lines[e] == StartEndHeader && forall k :: 0 <= k < e ==> lines[k] != StartEndHeader
    requires s < |lines|
    requires || (lines[s] == SleepStateHeader && forall k :: 0 <= k < s ==> lines[k] != SleepStateHeader)
             || (SleepStateHeader !in lines && lines[s] == SleepStageHeader
                 && forall k :: 0 <= k < s ==> lines[k] != SleepStageHeader)
    ensures FindSections(lines) == Ok(Sections(Slice(lines, m + 1, e), Slice(lines, e + 1, s), lines[s + 1..]))
  {
    var h := Headers(m, e, s);
    FindHeadersAt(lines, m, e, s);
    AtHeaders(lines, h);
    assert h.marker == m && h.startEnd == e && h.sleep == s;
  }

  /** Found headers give the slices between them. */
  lemma AtHeaders(lines: seq<string>, h: Headers)
    requires h.sleep < |lines| && FindHeaders(lines) == Ok(h)
    ensures FindSections(lines) ==
      Ok(Sections(Slice(lines, h.marker + 1, h.startEnd), Slice(lines, h.startEnd + 1, h.sleep), lines[h.sleep + 1..]))
  {
    FindSectionsAt(lines, h);
    SectionsAtEnd(lines, h);
  }

  lemma FindSectionsAt(lines: seq<string>, h: Headers)
    requires FindHeaders(lines) == Ok(h)
    ensures FindSections(lines) == Ok(SectionsAt(lines, h))
  {
  }

  /** The sleep section runs to the last line. */
  lemma SectionsAtEnd(lines: seq<string>, h: Headers)
    requires h.sleep < |lines|
    ensures SectionsAt(lines, h) ==
      Sections(Slice(lines, h.marker + 1, h.startEnd), Slice(lines, h.startEnd + 1, h.sleep), lines[h.sleep + 1..])
  {
    SliceToEnd(lines, h.sleep + 1);
  }

  /** The header lookups find `m`, `e` and `s`. */
  lemma FindHeadersAt(lines: seq<string>, m: nat, e: nat, s: nat)
    requires lines != [""]
    requires m < |lines| && lines[m] == MarkerHeader && forall k :: 0 <= k < m ==> lines[k] != MarkerHeader
    requires e < |lines| && lines[e] == StartEndHeader && forall k :: 0 <= k < e ==> lines[k] != StartEndHeader
    requires s < |lines|
    requires || (lines[s] == SleepStateHeader && forall k :: 0 <= k < s ==> lines[k] != SleepStateHeader)
             || (SleepStateHeader !in lines && lines[s] == SleepStageHeader
                 && forall k :: 0 <= k < s ==> lines[k] != SleepStageHeader)
    ensures FindHeaders(lines) == Ok(Headers(m, e, s))
  {
    IndexOfFirst(lines, MarkerHeader, m);
    IndexOfFirst(lines, StartEndHeader, e);
    SleepHeaderAt(lines, s);
  }

  /** The sleep header chosen at `s` is the one the loader finds. */
  lemma SleepHeaderAt(lines: seq<string>, s: nat)
    requires s < |lines|
    requires || (lines[s] == SleepStateHeader && forall k :: 0 <= k < s ==> lines[k] != SleepStateHeader)
             || (SleepStateHeader !in lines && lines[s] == SleepStageHeader
                 && forall k :: 0 <= k < s ==> lines[k] != SleepStageHeader)
    ensures SleepHeaderIndex(lines) == Some(s)
  {
    if lines[s] == SleepStateHeader && forall k :: 0 <= k < s ==> lines[k] != SleepStateHeader {
      IndexOfFirst(lines, SleepStateHeader, s);
    } else {
      IndexOfFirst(lines, SleepStageHeader, s);
    }
  }

  lemma SliceToEnd<T>(s: seq<T>, i: nat)
    requires i <= |s|
    ensures Slice(s, i, |s|) == s[i..]
  {
  }

  /** `load_misleep_anno` on the lines of the file, `read().split('\n')`:
      the sections are read in file order, so the first failing section
      decides the exception. */
  function LoadLines(lines: seq<string>): Result<MiAnnotation>
  {
    match FindSections(lines)
    case Err(e) => Err(e)
    case Ok(sec) =>
      match (Marker2MiAnno(sec.marker), StartEnd2MiAnno(sec.startEnd), SleepState2MiAnno(sec.sleepState))
      case (Err(e), _, _) => Err(e)
      case (Ok(_), Err(e), _) => Err(e)
      case (Ok(_), Ok(_), Err(e)) => Err(e)
      case (Ok(marker), Ok(startEnd), Ok(sleep)) => Ok(MiAnnotation(sleep, marker, startEnd))
  }

  /** `load_misleep_anno` on the text of the file. */
  function LoadMiSleepAnno(content: string): Result<MiAnnotation>
  {
    LoadLines(Split(content, Newline))
  }

  /** The row parsers raise only IndexError and ValueError. */
  lemma ParsersNeverAssert(sec: Sections)
    ensures Marker2MiAnno(sec.marker).Err? ==> Marker2MiAnno(sec.marker).exc in {IndexError, ValueError}
    ensures StartEnd2MiAnno(sec.startEnd).Err? ==> StartEnd2MiAnno(sec.startEnd).exc in {IndexError, ValueError}
    ensures SleepState2MiAnno(sec.sleepState).Err? ==> SleepState2MiAnno(sec.sleepState).exc in {IndexError, ValueError}
  {
    MarkerRowsErrors(sec.marker);
    StartEndRowsErrors(sec.startEnd);
    StateRowsErrors(sec.sleepState);
  }

  lemma MarkerRowsErrors(lines: seq<string>)
    ensures Marker2MiAnno(lines).Err? ==> Marker2MiAnno(lines).exc in {IndexError, ValueError}
  {
    var r := MapAll(lines, ParseMarkerRow);
    if r.Err? {
      var i :| 0 <= i < |lines| && ParseMarkerRow(lines[i]).Err? && r.exc == ParseMarkerRow(lines[i]).exc;
    }
  }

  lemma StartEndRowsErrors(lines: seq<string>)
    ensures StartEnd2MiAnno(lines).Err? ==> StartEnd2MiAnno(lines).exc in {IndexError, ValueError}
  {
    var r := MapAll(lines, ParseStartEndRow);
    if r.Err? {
      var i :| 0 <= i < |lines| && ParseStartEndRow(lines[i]).Err? && r.exc == ParseStartEndRow(lines[i]).exc;
    }
  }

  lemma StateRowsErrors(lines: seq<string>)
    ensures SleepState2MiAnno(lines).Err? ==> SleepState2MiAnno(lines).exc in {IndexError, ValueError}
  {
    var r := MapAll(lines, ParseStateRow);
    if r.Err? {
      var i :| 0 <= i < |lines| && ParseStateRow(lines[i]).Err? && r.exc == ParseStateRow(lines[i]).exc;
    }
  }

  /** "Empty" is raised exactly for an empty file. */
  lemma LoadEmpty(content: string)
    ensures LoadMiSleepAnno(content) == Err(EmptyFile) <==> content == ""
  {
    var lines := Split(content, Newline);
    SplitIsEmptyLine(content, Newline);
    FindSectionsErrors(lines);
    if FindSections(lines).Ok? {
      ParsersNeverAssert(FindSections(lines).value);
    }
  }

  /** "Invalid" is raised exactly for a non-empty file that lacks the Marker
      header, the Start-End header, or both sleep headers. */
  lemma LoadInvalid(content: string)
    ensures LoadMiSleepAnno(content) == Err(InvalidFile) <==>
      content != "" && !HasHeaders(Split(content, Newline))
  {
    var lines := Split(content, Newline);
    SplitIsEmptyLine(content, Newline);
    FindSectionsErrors(lines);
    if FindSections(lines).Ok? {
      ParsersNeverAssert(FindSections(lines).value);
    }
  }

  // ---- the file layout the loader reads ----

  /** The lines of a file: each header followed by its section's rows. */
  function FileLines(s: Sections): seq<string>
  {
    [MarkerHeader] + s.marker + [StartEndHeader] + s.startEnd + [SleepStateHeader] + s.sleepState
  }

  /** A row that can stand in a section: no line break, and not a header. */
  predicate PlainRow(row: string)
  {
    '\n' !in row && row != MarkerHeader && row != StartEndHeader && row != SleepStateHeader && row != SleepStageHeader
  }

  predicate PlainRows(rows: seq<string>)
  {
    forall i :: 0 <= i < |rows| ==> PlainRow(rows[i])
  }

  lemma JoinLinesSplit(lines: seq<string>)
    requires |lines| >= 1
    requires forall i :: 0 <= i < |lines| ==> '\n' !in lines[i]
    ensures Split(Join(lines, Newline), Newline) == lines
  {
    forall i | 0 <= i < |lines| ensures SafeField(lines[i], Newline) {
      CharSafe(lines[i], '\n');
    }
    SplitJoin(lines, Newline);
  }

  lemma FileLinesParts(s: Sections, i: nat)
    requires i < |FileLines(s)|
    ensures var lines := FileLines(s);
      var a := 1 + |s.marker|;
      var b := a + 1 + |s.startEnd|;
      && (i == 0 ==> lines[i] == MarkerHeader)
      && (0 < i < a ==> lines[i] == s.marker[i - 1])
      && (i == a ==> lines[i] == StartEndHeader)
      && (a < i < b ==> lines[i] == s.startEnd[i - a - 1])
      && (i == b ==> lines[i] == SleepStateHeader)
      && (b < i ==> lines[i] == s.sleepState[i - b - 1])
  {
  }

  lemma FileLinesPlain(s: Sections)
    requires PlainRows(s.marker) && PlainRows(s.startEnd) && PlainRows(s.sleepState)
    ensures var lines := FileLines(s);
      forall i :: 0 <= i < |lines| ==> '\n' !in lines[i] && lines[i] != SleepStageHeader
  {
    var lines := FileLines(s);
    forall i | 0 <= i < |lines| ensures '\n' !in lines[i] && lines[i] != SleepStageHeader {
      FileLinesParts(s, i);
    }
  }

  lemma FileLinesHeaders(s: Sections, a: nat, b: nat)
    requires PlainRows(s.marker) && PlainRows(s.startEnd) && PlainRows(s.sleepState)
    requires a == 1 + |s.marker| && b == a + 1 + |s.startEnd|
    ensures FindHeaders(FileLines(s)) == Ok(Headers(0, a, b))
  {
    var lines := FileLines(s);
    FileLinesParts(s, 0);
    FileLinesParts(s, a);
    FileLinesParts(s, b);
    assert lines != [""] by {
      assert |lines| > 1;
    }
    IndexOfFirst(lines, MarkerHeader, 0);
    forall k | 0 <= k < a ensures lines[k] != StartEndHeader {
      FileLinesParts(s, k);
    }
    IndexOfFirst(lines, StartEndHeader, a);
    forall k | 0 <= k < b ensures lines[k] != SleepStateHeader {
      FileLinesParts(s, k);
    }
    IndexOfFirst(lines, SleepStateHeader, b);
  }

  lemma FileLinesSlices(s: Sections, a: nat, b: nat)
    requires a == 1 + |s.marker| && b == a + 1 + |s.startEnd|
    ensures SectionsAt(FileLines(s), Headers(0, a, b)) == s
  {
    var lines := FileLines(s);
    assert lines[1..a] == s.marker;
    assert lines[a + 1..b] == s.startEnd;
    assert lines[b + 1..] == s.sleepState;
  }

  lemma FindSectionsOfFileLines(s: Sections)
    requires PlainRows(s.marker) && PlainRows(s.startEnd) && PlainRows(s.sleepState)
    ensures FindSections(FileLines(s)) == Ok(s)
  {
    var a := 1 + |s.marker|;
    var b := a + 1 + |s.startEnd|;
    FileLinesHeaders(s, a, b);
    FileLinesSlices(s, a, b);
  }

  /** The loader finds back the sections of a file written in this layout. */
  lemma FindWrittenSections(s: Sections)
    requires PlainRows(s.marker) && PlainRows(s.startEnd) && PlainRows(s.sleepState)
    ensures FindSections(Split(Join(FileLines(s), Newline), Newline)) == Ok(s)
  {
    FileLinesPlain(s);
    JoinLinesSplit(FileLines(s));
    FindSectionsOfFileLines(s);
  }

  /** A written row holds a ',' right after its first field, and no header
      holds one; no field holds a line break. */
  lemma RowPlain(startText: string, startSec: int, endText: string, endSec: int, code: string, name: string)
    requires '\n' !in startText && '\n' !in endText && '\n' !in code && '\n' !in name
    ensures PlainRow(Row(startText, startSec, endText, endSec, code, name))
  {
    var fs := [startText, IntToString(startSec), "1", endText, IntToString(endSec), "0", code, name];
    var r := Row(startText, startSec, endText, endSec, code, name);
    IntToStringNoCommaSpace(startSec);
    IntToStringNoCommaSpace(endSec);
    JoinAvoids(fs, CommaSpace, '\n');
    assert r == startText + CommaSpace + Join(fs[1..], CommaSpace);
    assert r[|startText|] == ',';
    assert ',' !in MarkerHeader && ',' !in StartEndHeader && ',' !in SleepStateHeader && ',' !in SleepStageHeader;
  }

  predicate NoBreak(t: string) { '\n' !in t }

  lemma {:induction false} RunRowsPlain(runs: seq<Run<int>>, timeText: int -> string, stateName: int -> string)
    requires forall t :: NoBreak(timeText(t))
    requires forall v :: NoBreak(stateName(v))
    ensures PlainRows(RunRows(runs, timeText, stateName))
  {
    if |runs| > 0 {
      var x := runs[0];
      IntToStringNoCommaSpace(x.value);
      assert NoBreak(timeText(x.first)) && NoBreak(timeText(x.last)) && NoBreak(stateName(x.value));
      RowPlain(timeText(x.first), x.first, timeText(x.last), x.last, IntToString(x.value), stateName(x.value));
      RunRowsPlain(runs[1..], timeText, stateName);
    }
  }

  /** A file in the loader's layout: the rows of the markers, the start-end
      events and the runs of the sleep states under their headers, one row to
      a line. `clock` renders a second as a time stamp and `stateName` names a
      state code. The writer is this model's own: nothing in the modelled
      core writes these files. */
  function WriteMiSleepAnno(anno: MiAnnotation, clock: int -> string, stateName: int -> string,
                            markerCode: string, eventCode: string): string
  {
    Join(FileLines(Sections(MarkerRows(anno.marker, clock, markerCode),
                            StartEndRows(anno.startEnd, clock, eventCode),
                            StateRows(anno.sleepState, clock, stateName))), Newline)
  }

  /** Text a field may hold: no ", " and no line break. */
  predicate FieldText(t: string) { NoCommaSpace(t) && NoBreak(t) }

  /** The loader reads back every annotation written in its layout, provided
      no rendered text holds the field or line separator. */
  lemma LoadWritten(anno: MiAnnotation, clock: int -> string, stateName: int -> string,
                    markerCode: string, eventCode: string)
    requires forall t :: FieldText(clock(t))
    requires forall v :: FieldText(stateName(v))
    requires FieldText(markerCode) && FieldText(eventCode)
    requires forall i :: 0 <= i < |anno.marker| ==> FieldText(anno.marker[i].name)
    requires forall i :: 0 <= i < |anno.startEnd| ==> FieldText(anno.startEnd[i].name)
    ensures LoadMiSleepAnno(WriteMiSleepAnno(anno, clock, stateName, markerCode, eventCode)) == Ok(anno)
  {
    var ms := MarkerRows(anno.marker, clock, markerCode);
    var es := StartEndRows(anno.startEnd, clock, eventCode);
    var ss := StateRows(anno.sleepState, clock, stateName);
    forall i | 0 <= i < |ms| ensures PlainRow(ms[i]) {
      var m := anno.marker[i];
      assert FieldText(clock(m.second)) && FieldText(m.name);
      RowPlain(clock(m.second), m.second, clock(m.second), m.second, markerCode, m.name);
    }
    forall i | 0 <= i < |es| ensures PlainRow(es[i]) {
      var e := anno.startEnd[i];
      assert FieldText(clock(e.start)) && FieldText(clock(e.end)) && FieldText(e.name);
      RowPlain(clock(e.start), e.start, clock(e.end), e.end, eventCode, e.name);
    }
    RunRowsPlain(Lst2Group(Enumerate(anno.sleepState, 0)), clock, stateName);
    FindWrittenSections(Sections(ms, es, ss));
    MarkerRowsParse(anno.marker, clock, markerCode);
    StartEndRowsParse(anno.startEnd, clock, eventCode);
    SleepStateRoundTrip(anno.sleepState, clock, stateName);
  }

  lemma IndexOfFirst<T>(s: seq<T>, x: T, i: nat)
    requires i < |s| && s[i] == x
    requires forall k :: 0 <= k < i ==> s[k] != x
    ensures IndexOf(s, x) == Some(i)
  {
  }

  // ---- transfer_result: the per-hour result tables ----

  const Hour := 3600

  /** One row of the sleep-state table: `start_time, start_time_sec,
      start_code, end_time, end_time_sec, end_code, state_code, state,
      bout_duration, hour`; the MARKER rows hold '' (`None`) in the last two. */
  datatype StateRecord = StateRecord(startTime: string, startSec: int, startCode: int,
                                     endTime: string, endSec: int, endCode: int,
                                     stateCode: int, state: string, bout: Option<int>, hour: Option<int>)

  /** One row of the start-end table. */
  datatype EventRecord = EventRecord(startTime: string, startSec: int, startCode: int,
                                     endTime: string, endSec: int, endCode: int, name: string, bout: int)

  /** One row of the marker table: `timestamp, timestamp_sec, label`. */
  datatype MarkerRecord = MarkerRecord(timestamp: string, second: int, name: string)

  /** The tables `transfer_result` returns, without the per-hour statistics. */
  datatype Tables = Tables(states: seq<StateRecord>, events: seq<EventRecord>, markers: seq<MarkerRecord>)

  /** The marker table: `[timestamp, second, label]` per marker. */
  function MarkerRecords(ms: seq<Marker>, clockMs: int -> string): seq<MarkerRecord>
  {
    seq(|ms|, i requires 0 <= i < |ms| => MarkerRecord(clockMs(ms[i].second), ms[i].second, ms[i].name))
  }

  /** The start-end table: one row per start-end label. */
  function EventRecords(es: seq<StartEnd>, clockMs: int -> string): seq<EventRecord>
  {
    seq(|es|, i requires 0 <= i < |es| =>
      EventRecord(clockMs(es[i].start), es[i].start, 1, clockMs(es[i].end), es[i].end, 0,
                  es[i].name, es[i].end - es[i].start))
  }

  /** The markers a marker table stands for, in row order. */
  function MarkersFrom(rows: seq<MarkerRecord>): seq<Marker>
  {
    if |rows| == 0 then [] else MarkersFrom(rows[..|rows| - 1]) + [Marker(rows[|rows| - 1].second, rows[|rows| - 1].name)]
  }

  /** The start-end labels an event table stands for, in row order. */
  function EventsFrom(rows: seq<EventRecord>): seq<StartEnd>
  {
    if |rows| == 0 then []
    else
      var r := rows[|rows| - 1];
      EventsFrom(rows[..|rows| - 1]) + [StartEnd(r.startSec, r.endSec, r.name)]
  }

  /** The marker table loses nothing: reading it back gives the markers,
      and every timestamp is the clock text of its own second. */
  lemma {:induction false} MarkerRecordsBack(ms: seq<Marker>, clockMs: int -> string)
    ensures MarkersFrom(MarkerRecords(ms, clockMs)) == ms
    ensures forall i :: 0 <= i < |ms| ==>
      MarkerRecords(ms, clockMs)[i].timestamp == clockMs(MarkerRecords(ms, clockMs)[i].second)
  {
    var all := MarkerRecords(ms, clockMs);
    forall i | 0 <= i < |ms|
      ensures all[i] == MarkerRecord(clockMs(ms[i].second), ms[i].second, ms[i].name)
    {
    }
    if |ms| > 0 {
      var n := |ms| - 1;
      var p := ms[..n];
      MarkerRecordsBack(p, clockMs);
      var rs := MarkerRecords(ms, clockMs);
      assert rs[..n] == MarkerRecords(p, clockMs);
      assert MarkersFrom(rs) == MarkersFrom(rs[..n]) + [Marker(rs[n].second, rs[n].name)];
      assert ms == p + [ms[n]];
    }
  }

  /** The start-end table loses nothing: reading it back gives the labels,
      and every row is a start (code 1) and an end (code 0) rendered by the
      clock, with the bout duration `end - start`. */
  lemma {:induction false} EventRecordsBack(es: seq<StartEnd>, clockMs: int -> string)
    ensures EventsFrom(EventRecords(es, clockMs)) == es
    ensures forall i :: 0 <= i < |es| ==>
      var r := EventRecords(es, clockMs)[i];
      && r.startTime == clockMs(r.startSec) && r.endTime == clockMs(r.endSec)
      && r.startCode == 1 && r.endCode == 0 && r.bout == r.endSec - r.startSec
  {
    var all := EventRecords(es, clockMs);
    forall i | 0 <= i < |es|
      ensures all[i] == EventRecord(clockMs(es[i].start), es[i].start, 1, clockMs(es[i].end), es[i].end, 0,
                                    es[i].name, es[i].end - es[i].start)
    {
    }
    if |es| > 0 {
      var n := |es| - 1;
      var p := es[..n];
      EventRecordsBack(p, clockMs);
      var rs := EventRecords(es, clockMs);
      assert rs[..n] == EventRecords(p, clockMs);
      assert EventsFrom(rs) == EventsFrom(rs[..n]) + [StartEnd(rs[n].startSec, rs[n].endSec, rs[n].name)];
      assert es == p + [es[n]];
    }
  }

  /** Hour `k` of the states: `sleep_state[k*3600:(k+1)*3600]`. */
  function ChunkAt(ss: seq<int>, k: nat): seq<int>
  {
    Slice(ss, k * Hour, (k + 1) * Hour)
  }

  /** The non-empty hours among the first `n`, in order. */
  function Chunks(ss: seq<int>, n: nat): seq<seq<int>>
  {
    if n == 0 then []
    else
      var c := ChunkAt(ss, n - 1);
      Chunks(ss, n - 1) + (if c != [] then [c] else [])
  }

  /** The loop over `range(int(len(sleep_state)/3600) + 1)`. */
  function HourChunks(ss: seq<int>): seq<seq<int>>
  {
    Chunks(ss, |ss| / Hour + 1)
  }

  /** The row of one run of hour `hour`; the state name comes from the
      state map, and a code missing from it raises KeyError. */
  function RunRecord(x: Run<int>, hour: int, clock: int -> string, stateMap: map<int, string>): Result<StateRecord>
  {
    if x.value in stateMap then
      Ok(StateRecord(clock(x.first), x.first, 1, clock(x.last), x.last, 0, x.value, stateMap[x.value],
                     Some(x.last - x.first), Some(hour)))
    else Err(KeyError)
  }

  /** The MARKER row that closes hour `hour`. */
  function MarkerRow(hour: int, clock: int -> string): StateRecord
  {
    var t := (hour + 1) * Hour;
    StateRecord(clock(t), t, 1, clock(t), t, 0, 5, "MARKER", None, None)
  }

  /** The comprehension over the runs of one hour. */
  function RunRecords(runs: seq<Run<int>>, hour: int, clock: int -> string, stateMap: map<int, string>)
    : Result<seq<StateRecord>>
  {
    MapAll(runs, (x: Run<int>) => RunRecord(x, hour, clock, stateMap))
  }

  /** The rows of one hour: one per run of its states, which are numbered
      from `offset`, then the MARKER row. */
  function HourRecords(chunk: seq<int>, hour: int, offset: int, clock: int -> string, stateMap: map<int, string>)
    : Result<seq<StateRecord>>
  {
    match RunRecords(Lst2Group(Enumerate(chunk, offset)), hour, clock, stateMap)
    case Err(e) => Err(e)
    case Ok(rs) => Ok(rs + [MarkerRow(hour, clock)])
  }

  /** The rows of the first `n` hours, in hour order; the first failing
      hour decides the exception. */
  function StateRecords(chunks: seq<seq<int>>, n: nat, clock: int -> string, stateMap: map<int, string>)
    : Result<seq<StateRecord>>
    requires n <= |chunks|
  {
    if n == 0 then Ok([])
    else match StateRecords(chunks, n - 1, clock, stateMap)
      case Err(e) => Err(e)
      case Ok(prev) =>
        match HourRecords(chunks[n - 1], n - 1, (n - 1) * Hour, clock, stateMap)
        case Err(e) => Err(e)
        case Ok(rs) => Ok(prev + rs)
  }

  /** The `hour` column as the data frame recomputes it: '' for a row whose
      state is 'MARKER', else `int(start_time_sec / 3600)`. */
  function HourColumn(r: StateRecord): StateRecord
  {
    r.(hour := if r.state == "MARKER" then None else Some(TruncDiv(r.startSec, Hour)))
  }

  function HourColumns(rows: seq<StateRecord>): (r: seq<StateRecord>)
    ensures |r| == |rows| && forall i :: 0 <= i < |rows| ==> r[i] == HourColumn(rows[i])
  {
    seq(|rows|, i requires 0 <= i < |rows| => HourColumn(rows[i]))
  }

  /** What `transfer_result` computes, without the statistics table. */
  function TransferSpec(anno: MiAnnotation, clock: int -> string, clockMs: int -> string, stateMap: map<int, string>)
    : Result<Tables>
  {
    var chunks := HourChunks(anno.sleepState);
    match StateRecords(chunks, |chunks|, clock, stateMap)
    case Err(e) => Err(e)
    case Ok(rows) =>
      var states := HourColumns(rows);
      if !HasBlankHour(states) then Err(ValueError)
      else Ok(Tables(states, EventRecords(anno.startEnd, clockMs), MarkerRecords(anno.marker, clockMs)))
  }

  /** Some row has the empty `hour` of a MARKER row, the '' that
      `temp_hour.remove('')` takes out. Without one the table-building
      block raises ValueError: pandas may already raise it when the `hour`
      column is assigned on an empty frame, and `remove('')` raises it
      otherwise. */
  predicate HasBlankHour(rows: seq<StateRecord>)
  {
    exists i :: 0 <= i < |rows| && rows[i].hour.None?
  }

  /** `transfer_result(mianno, ac_time)`: `clock` and `clockMs` stand for
      `transfer_time(ac_time, ., fmt)` without and with milliseconds, and
      `stateMap` for `mianno.state_map`. */
  method TransferResult(anno: MiAnnotation, clock: int -> string, clockMs: int -> string, stateMap: map<int, string>)
    returns (r: Result<Tables>)
    ensures r == TransferSpec(anno, clock, clockMs, stateMap)
  {
    var markers := MarkerRecords(anno.marker, clockMs);
    var events := EventRecords(anno.startEnd, clockMs);
    var chunks := SplitHours(anno.sleepState);
    var rows := HourRows(chunks, clock, stateMap);
    match rows
    case Err(e) => r := Err(e);
    case Ok(rs) =>
      var states := HourColumns(rs);
      if !HasBlankHour(states) {
        r := Err(ValueError);
      } else {
        r := Ok(Tables(states, events, markers));
      }
  }

  /** The first loop of `transfer_result`: the states cut into hours. */
  method SplitHours(ss: seq<int>) returns (chunks: seq<seq<int>>)
    ensures chunks == HourChunks(ss)
  {
    chunks := [];
    for each := 0 to |ss| / Hour + 1
      invariant chunks == Chunks(ss, each)
    {
      var hourLabel := Slice(ss, each * Hour, (each + 1) * Hour);
      if hourLabel != [] {
        chunks := chunks + [hourLabel];
      }
    }
  }

  /** The second loop of `transfer_result`: the rows of every hour, the
      first missing state code raising KeyError. */
  method HourRows(chunks: seq<seq<int>>, clock: int -> string, stateMap: map<int, string>)
    returns (r: Result<seq<StateRecord>>)
    ensures r == StateRecords(chunks, |chunks|, clock, stateMap)
  {
    var rows: seq<StateRecord> := [];
    for hour := 0 to |chunks|
      invariant StateRecords(chunks, hour, clock, stateMap) == Ok(rows)
    {
      var runs := Lst2Group(Enumerate(chunks[hour], hour * Hour));
      var hourRows := RunRecords(runs, hour, clock, stateMap);
      if hourRows.Err? {
        StateRecordsErr(chunks, hour + 1, |chunks|, clock, stateMap);
        return Err(hourRows.exc);
      }
      ghost var prev := rows;
      rows := rows + hourRows.value;
      rows := rows + [MarkerRow(hour, clock)];
      assert HourRecords(chunks[hour], hour, hour * Hour, clock, stateMap) == Ok(hourRows.value + [MarkerRow(hour, clock)]);
      assert rows == prev + (hourRows.value + [MarkerRow(hour, clock)]);
    }
    r := Ok(rows);
  }

  /** A failure in some hour is the failure of every longer prefix. */
  lemma {:induction false} StateRecordsErr(chunks: seq<seq<int>>, m: nat, n: nat, clock: int -> string, stateMap: map<int, string>)
    requires m <= n <= |chunks|
    requires StateRecords(chunks, m, clock, stateMap).Err?
    ensures StateRecords(chunks, n, clock, stateMap) == StateRecords(chunks, m, clock, stateMap)
    decreases n - m
  {
    if m < n {
      StateRecordsErr(chunks, m + 1, n, clock, stateMap);
    }
  }

  // ---- properties of the tables ----

  /** The number of hours a recording of `len` seconds starts. */
  function HourCount(len: nat): nat
  {
    (len + Hour - 1) / Hour
  }

  function Min(a: int, b: int): int { if a <= b then a else b }

  /** Hour `k` is the `k`-th block of 3600 seconds, the last one shorter. */
  lemma ChunkAtShape(ss: seq<int>, k: nat, lo: nat, hi: nat)
    requires lo == k * Hour && hi == lo + Hour
    ensures lo < |ss| ==> ChunkAt(ss, k) == ss[lo..Min(hi, |ss|)]
    ensures lo >= |ss| ==> ChunkAt(ss, k) == []
  {
    assert (k + 1) * Hour == hi;
  }

  lemma HourCountBound(len: nat, k: nat)
    ensures k * Hour < len <==> k < HourCount(len)
  {
  }

  /** One more hour: the chunk of hour `p` is appended when it is not empty. */
  lemma ChunksStep(ss: seq<int>, p: nat)
    ensures Chunks(ss, p + 1) == Chunks(ss, p) + (if ChunkAt(ss, p) != [] then [ChunkAt(ss, p)] else [])
  {
  }

  /** The first `n` hours concatenate to the first `n * 3600` seconds. */
  lemma {:induction false} ChunksConcat(ss: seq<int>, n: nat, m: nat)
    requires m == Min(n * Hour, |ss|)
    ensures Concat(Chunks(ss, n)) == ss[..m]
  {
    if n > 0 {
      var p := n - 1;
      var lo := p * Hour;
      var prev := Chunks(ss, p);
      ChunksConcat(ss, p, Min(lo, |ss|));
      ChunkAtShape(ss, p, lo, lo + Hour);
      ChunksStep(ss, p);
      var c := ChunkAt(ss, p);
      assert n * Hour == lo + Hour;
      if c != [] {
        assert lo < |ss| && Concat(prev) == ss[..lo];
        assert c == ss[lo..m];
        assert Chunks(ss, n) == prev + [c];
        ConcatAppend(prev, c);
        assert ss[..lo] + ss[lo..m] == ss[..m];
      } else {
        assert Chunks(ss, n) == prev;
      }
    }
  }

  /** The first `n` hours hold one chunk per hour that has started, and
      chunk `k` is hour `k`. */
  lemma {:induction false} ChunksCount(ss: seq<int>, n: nat)
    ensures |Chunks(ss, n)| == Min(n, HourCount(|ss|))
    ensures forall k :: 0 <= k < |Chunks(ss, n)| ==> Chunks(ss, n)[k] == ChunkAt(ss, k)
  {
    if n > 0 {
      var p := n - 1;
      ChunksCount(ss, p);
      ChunkAtShape(ss, p, p * Hour, p * Hour + Hour);
      HourCountBound(|ss|, p);
      ChunksStep(ss, p);
    }
  }

  /** The hour chunks of `transfer_result`: they concatenate back to the
      states, each is non-empty, chunk `k` is seconds `k*3600 ..
      (k+1)*3600 - 1` (cut at the end), and there are `ceil(len/3600)`. */
  lemma HourChunksShape(ss: seq<int>)
    ensures Concat(HourChunks(ss)) == ss
    ensures |HourChunks(ss)| == HourCount(|ss|)
    ensures forall k :: 0 <= k < |HourChunks(ss)| ==>
      k * Hour < |ss| && HourChunks(ss)[k] == ss[k * Hour..Min((k + 1) * Hour, |ss|)]
    ensures forall k :: 0 <= k < |HourChunks(ss)| ==> 0 < |HourChunks(ss)[k]| <= Hour
  {
    var n := |ss| / Hour + 1;
    ChunksConcat(ss, n, |ss|);
    ChunksCount(ss, n);
    assert ss[..|ss|] == ss;
    forall k | 0 <= k < |HourChunks(ss)|
      ensures k * Hour < |ss| && HourChunks(ss)[k] == ss[k * Hour..Min((k + 1) * Hour, |ss|)]
      ensures 0 < |HourChunks(ss)[k]| <= Hour
    {
      HourCountBound(|ss|, k);
      ChunkAtShape(ss, k, k * Hour, k * Hour + Hour);
    }
  }

  /** A run row of hour `hour`: a run inside that hour, with its state
      name, `bout_duration = end - start`, and the hour in the last column. */
  predicate IsRunRecord(r: StateRecord, hour: int, clock: int -> string, stateMap: map<int, string>)
  {
    && hour * Hour <= r.startSec <= r.endSec < (hour + 1) * Hour
    && r.startTime == clock(r.startSec) && r.endTime == clock(r.endSec)
    && r.startCode == 1 && r.endCode == 0
    && r.stateCode in stateMap && r.state == stateMap[r.stateCode]
    && r.bout == Some(r.endSec - r.startSec) && r.hour == Some(hour)
  }

  /** The runs the run rows stand for, in row order. */
  function RunsOf(rows: seq<StateRecord>): seq<Run<int>>
  {
    if |rows| == 0 then []
    else (if rows[0].bout.Some? then [Run(rows[0].startSec, rows[0].endSec, rows[0].stateCode)] else [])
         + RunsOf(rows[1..])
  }

  /** The MARKER rows, those with an empty bout column, in row order. */
  function MarkersOf(rows: seq<StateRecord>): seq<StateRecord>
  {
    if |rows| == 0 then [] else (if rows[0].bout.None? then [rows[0]] else []) + MarkersOf(rows[1..])
  }

  lemma {:induction false} RowsAppend(a: seq<StateRecord>, b: seq<StateRecord>)
    ensures RunsOf(a + b) == RunsOf(a) + RunsOf(b)
    ensures MarkersOf(a + b) == MarkersOf(a) + MarkersOf(b)
  {
    RunsAppend(a, b);
    MarkersAppend(a, b);
  }

  lemma {:induction false} RunsAppend(a: seq<StateRecord>, b: seq<StateRecord>)
    ensures RunsOf(a + b) == RunsOf(a) + RunsOf(b)
  {
    if |a| == 0 {
      assert a + b == b;
    } else {
      var h := if a[0].bout.Some? then [Run(a[0].startSec, a[0].endSec, a[0].stateCode)] else [];
      assert (a + b)[0] == a[0];
      assert (a + b)[1..] == a[1..] + b;
      assert RunsOf(a + b) == h + RunsOf(a[1..] + b);
      RunsAppend(a[1..], b);
      assert RunsOf(a) == h + RunsOf(a[1..]);
    }
  }

  lemma {:induction false} MarkersAppend(a: seq<StateRecord>, b: seq<StateRecord>)
    ensures MarkersOf(a + b) == MarkersOf(a) + MarkersOf(b)
  {
    if |a| == 0 {
      assert a + b == b;
    } else {
      var h := if a[0].bout.None? then [a[0]] else [];
      assert (a + b)[0] == a[0];
      assert (a + b)[1..] == a[1..] + b;
      assert MarkersOf(a + b) == h + MarkersOf(a[1..] + b);
      MarkersAppend(a[1..], b);
      assert MarkersOf(a) == h + MarkersOf(a[1..]);
    }
  }

  /** The rows of a list of runs stand for those runs and hold no MARKER row. */
  lemma {:induction false} RunRecordsRuns(runs: seq<Run<int>>, hour: int, clock: int -> string, stateMap: map<int, string>)
    requires RunRecords(runs, hour, clock, stateMap).Ok?
    ensures RunsOf(RunRecords(runs, hour, clock, stateMap).value) == runs
    ensures MarkersOf(RunRecords(runs, hour, clock, stateMap).value) == []
  {
    if |runs| > 0 {
      var rs := RunRecords(runs, hour, clock, stateMap).value;
      assert RunRecords(runs[1..], hour, clock, stateMap).Ok?;
      assert rs[1..] == RunRecords(runs[1..], hour, clock, stateMap).value;
      RunRecordsRuns(runs[1..], hour, clock, stateMap);
      assert runs == [runs[0]] + runs[1..];
    }
  }

  /** Every value of the expansion of a tiling is the value of one of its
      runs, and every run contributes its value. */
  lemma {:induction false} ExpandValuesIn(r: seq<Run<int>>, lo: int, hi: int, keys: set<int>)
    requires Tiles(r, lo, hi)
    ensures (forall i :: 0 <= i < |ExpandRuns(r)| ==> ExpandRuns(r)[i] in keys)
        <==> (forall j :: 0 <= j < |r| ==> r[j].value in keys)
    decreases |r|
  {
    if |r| > 0 {
      var x := r[0];
      var rep := Repeat(x.value, x.last - x.first + 1);
      var e := ExpandRuns(r[1..]);
      ExpandValuesIn(r[1..], x.last + 1, hi, keys);
      assert ExpandRuns(r) == rep + e;
      assert |rep| > 0 && rep[0] == x.value;
      if forall j :: 0 <= j < |r| ==> r[j].value in keys {
        forall j | 0 <= j < |r[1..]| ensures r[1..][j].value in keys {
          assert r[1..][j] == r[j + 1];
        }
        forall i | 0 <= i < |ExpandRuns(r)| ensures ExpandRuns(r)[i] in keys {
          if i >= |rep| {
            assert ExpandRuns(r)[i] == e[i - |rep|];
          }
        }
      }
      if forall i :: 0 <= i < |ExpandRuns(r)| ==> ExpandRuns(r)[i] in keys {
        forall i | 0 <= i < |e| ensures e[i] in keys {
          assert ExpandRuns(r)[i + |rep|] == e[i];
        }
        assert ExpandRuns(r)[0] == x.value;
        forall j | 0 <= j < |r| ensures r[j].value in keys {
          if j > 0 {
            assert r[j] == r[1..][j - 1];
          }
        }
      }
    }
  }

  /** One hour fails with KeyError exactly when one of its codes is missing
      from the state map. */
  lemma HourRecordsOk(chunk: seq<int>, hour: nat, offset: int, clock: int -> string, stateMap: map<int, string>)
    ensures var h := HourRecords(chunk, hour, offset, clock, stateMap);
      && (h.Ok? <==> Known(chunk, stateMap))
      && (h.Err? ==> h.exc == KeyError)
  {
    var runs := Lst2Group(Enumerate(chunk, offset));
    GroupTiles(chunk, offset, offset + |chunk|);
    GroupExpands(chunk, offset);
    ExpandValuesIn(runs, offset, offset + |chunk|, stateMap.Keys);
    var rr := RunRecords(runs, hour, clock, stateMap);
    if rr.Err? {
      var i :| 0 <= i < |runs| && RunRecord(runs[i], hour, clock, stateMap).Err?;
    }
  }

  /** The rows of one hour: one run row per run of its states, then the
      MARKER row at second `(hour+1)*3600`. */
  lemma HourRecordsRows(chunk: seq<int>, hour: nat, offset: int, clock: int -> string, stateMap: map<int, string>)
    requires offset == hour * Hour && |chunk| <= Hour
    requires HourRecords(chunk, hour, offset, clock, stateMap).Ok?
    ensures var rows := HourRecords(chunk, hour, offset, clock, stateMap).value;
      && |rows| >= 1 && rows[|rows| - 1] == MarkerRow(hour, clock)
      && (forall i :: 0 <= i < |rows| - 1 ==> IsRunRecord(rows[i], hour, clock, stateMap))
  {
    RunRecordsBounds(chunk, hour, offset, clock, stateMap);
  }

  /** The run rows of one hour expand back to its states, and the hour has
      one MARKER row. */
  lemma HourRecordsRecover(chunk: seq<int>, hour: nat, offset: int, clock: int -> string, stateMap: map<int, string>)
    requires HourRecords(chunk, hour, offset, clock, stateMap).Ok?
    ensures var rows := HourRecords(chunk, hour, offset, clock, stateMap).value;
      && ExpandRuns(RunsOf(rows)) == chunk
      && MarkersOf(rows) == [MarkerRow(hour, clock)]
  {
    var runs := Lst2Group(Enumerate(chunk, offset));
    var rr := RunRecords(runs, hour, clock, stateMap);
    var m := MarkerRow(hour, clock);
    RunRecordsRuns(runs, hour, clock, stateMap);
    RowsAppend(rr.value, [m]);
    assert RunsOf([m]) == [] && MarkersOf([m]) == [m];
    assert RunsOf(rr.value + [m]) == runs;
    GroupExpands(chunk, offset);
  }

  lemma RunRecordsBounds(chunk: seq<int>, hour: nat, offset: int, clock: int -> string, stateMap: map<int, string>)
    requires offset == hour * Hour && |chunk| <= Hour
    requires RunRecords(Lst2Group(Enumerate(chunk, offset)), hour, clock, stateMap).Ok?
    ensures var rr := RunRecords(Lst2Group(Enumerate(chunk, offset)), hour, clock, stateMap).value;
      forall i :: 0 <= i < |rr| ==> IsRunRecord(rr[i], hour, clock, stateMap)
  {
    var runs := Lst2Group(Enumerate(chunk, offset));
    var rr := RunRecords(runs, hour, clock, stateMap).value;
    GroupTiles(chunk, offset, offset + |chunk|);
    TilesBounds(runs, offset, offset + |chunk|);
    forall i | 0 <= i < |rr| ensures IsRunRecord(rr[i], hour, clock, stateMap) {
      assert RunRecord(runs[i], hour, clock, stateMap) == Ok(rr[i]);
    }
  }

  /** A table over hours of at most 3600 seconds fails with KeyError exactly
      when some second's code is missing from the state map. */
  lemma StateRecordsOk(chunks: seq<seq<int>>, n: nat, clock: int -> string, stateMap: map<int, string>)
    requires n <= |chunks|
    ensures var s := StateRecords(chunks, n, clock, stateMap);
      && (s.Ok? <==> forall k, i :: 0 <= k < n && 0 <= i < |chunks[k]| ==> chunks[k][i] in stateMap)
      && (s.Err? ==> s.exc == KeyError)
  {
    StateRecordsKnown(chunks, n, clock, stateMap);
    AllKnownIff(chunks, n, stateMap);
  }

  /** Every code of hour `chunk` is in the state map. */
  predicate Known(chunk: seq<int>, stateMap: map<int, string>)
  {
    forall i :: 0 <= i < |chunk| ==> chunk[i] in stateMap
  }

  /** Every code of the first `n` hours is in the state map. */
  predicate AllKnown(chunks: seq<seq<int>>, n: nat, stateMap: map<int, string>)
    requires n <= |chunks|
  {
    n == 0 || (AllKnown(chunks, n - 1, stateMap) && Known(chunks[n - 1], stateMap))
  }

  lemma {:induction false} StateRecordsKnown(chunks: seq<seq<int>>, n: nat, clock: int -> string, stateMap: map<int, string>)
    requires n <= |chunks|
    ensures var s := StateRecords(chunks, n, clock, stateMap);
      && (s.Ok? <==> AllKnown(chunks, n, stateMap))
      && (s.Err? ==> s.exc == KeyError)
  {
    if n > 0 {
      var prev := StateRecords(chunks, n - 1, clock, stateMap);
      var h := HourRecords(chunks[n - 1], n - 1, (n - 1) * Hour, clock, stateMap);
      StateRecordsKnown(chunks, n - 1, clock, stateMap);
      HourRecordsOk(chunks[n - 1], n - 1, (n - 1) * Hour, clock, stateMap);
      assert AllKnown(chunks, n, stateMap) == (AllKnown(chunks, n - 1, stateMap) && Known(chunks[n - 1], stateMap));
      if prev.Err? {
        assert StateRecords(chunks, n, clock, stateMap) == prev;
      } else if h.Err? {
        assert StateRecords(chunks, n, clock, stateMap) == Err(h.exc);
      } else {
        assert StateRecords(chunks, n, clock, stateMap) == Ok(prev.value + h.value);
      }
    }
  }

  lemma {:induction false} AllKnownIff(chunks: seq<seq<int>>, n: nat, stateMap: map<int, string>)
    requires n <= |chunks|
    ensures AllKnown(chunks, n, stateMap)
        <==> forall k, i :: 0 <= k < n && 0 <= i < |chunks[k]| ==> chunks[k][i] in stateMap
  {
    if n > 0 {
      AllKnownIff(chunks, n - 1, stateMap);
      AllKnownStep(chunks, n, chunks[n - 1], stateMap);
    }
  }

  /** Every code of the first `n` hours is known exactly when every code
      of the first `n - 1` hours and of hour `n - 1` is. */
  lemma AllKnownStep(chunks: seq<seq<int>>, n: nat, last: seq<int>, stateMap: map<int, string>)
    requires 0 < n <= |chunks| && last == chunks[n - 1]
    ensures (forall k, i :: 0 <= k < n && 0 <= i < |chunks[k]| ==> chunks[k][i] in stateMap)
        <==> (&& (forall k, i :: 0 <= k < n - 1 && 0 <= i < |chunks[k]| ==> chunks[k][i] in stateMap)
              && Known(last, stateMap))
  {
  }

  /** The position of a row in hour order: run rows of hour `h` at `2h`,
      the MARKER row closing hour `h` at `2h + 1`. */
  function RowKey(r: StateRecord): int
  {
    if r.bout.Some? && r.hour.Some? then 2 * r.hour.value else 2 * (r.startSec / Hour) - 1
  }

  lemma MarkerRowKey(h: nat, clock: int -> string)
    ensures RowKey(MarkerRow(h, clock)) == 2 * h + 1
  {
    assert (h + 1) * Hour / Hour == h + 1;
  }

  /** Every row of the table is a run row of its hour or the MARKER row of
      one of the first `n` hours. */
  predicate TableRow(r: StateRecord, n: nat, clock: int -> string, stateMap: map<int, string>)
  {
    if r.bout.Some? then r.hour.Some? && 0 <= r.hour.value < n && IsRunRecord(r, r.hour.value, clock, stateMap)
    else exists h: nat :: h < n && r == MarkerRow(h, clock)
  }

  /** The table of `n` hours is that of `n - 1` hours followed by the rows
      of hour `n - 1`. */
  lemma StateRecordsStep(chunks: seq<seq<int>>, n: nat, clock: int -> string, stateMap: map<int, string>)
    requires 0 < n <= |chunks|
    requires StateRecords(chunks, n, clock, stateMap).Ok?
    ensures StateRecords(chunks, n - 1, clock, stateMap).Ok?
    ensures HourRecords(chunks[n - 1], n - 1, (n - 1) * Hour, clock, stateMap).Ok?
    ensures StateRecords(chunks, n, clock, stateMap).value
         == StateRecords(chunks, n - 1, clock, stateMap).value + HourRecords(chunks[n - 1], n - 1, (n - 1) * Hour, clock, stateMap).value
  {
  }

  /** The run rows of the first `n` hours expand back to those hours'
      states. */
  lemma {:induction false} StateRecordsExpand(chunks: seq<seq<int>>, n: nat, clock: int -> string, stateMap: map<int, string>)
    requires n <= |chunks|
    requires StateRecords(chunks, n, clock, stateMap).Ok?
    ensures ExpandRuns(RunsOf(StateRecords(chunks, n, clock, stateMap).value)) == Concat(chunks[..n])
  {
    if n == 0 {
      assert chunks[..0] == [];
    } else {
      var p := n - 1;
      StateRecordsStep(chunks, n, clock, stateMap);
      StateRecordsExpand(chunks, p, clock, stateMap);
      var prev := StateRecords(chunks, p, clock, stateMap).value;
      var rs := HourRecords(chunks[p], p, p * Hour, clock, stateMap).value;
      HourRecordsRecover(chunks[p], p, p * Hour, clock, stateMap);
      RowsAppend(prev, rs);
      ExpandAppend(RunsOf(prev), RunsOf(rs));
      assert chunks[..n] == chunks[..p] + [chunks[p]];
      ConcatAppend(chunks[..p], chunks[p]);
    }
  }

  /** The MARKER rows of the first `n` hours are one per hour, in hour order. */
  lemma {:induction false} StateRecordsMarkers(chunks: seq<seq<int>>, n: nat, clock: int -> string, stateMap: map<int, string>)
    requires n <= |chunks|
    requires StateRecords(chunks, n, clock, stateMap).Ok?
    ensures MarkersOf(StateRecords(chunks, n, clock, stateMap).value) == seq(n, (h: int) => MarkerRow(h, clock))
  {
    if n > 0 {
      var p := n - 1;
      StateRecordsStep(chunks, n, clock, stateMap);
      StateRecordsMarkers(chunks, p, clock, stateMap);
      var prev := StateRecords(chunks, p, clock, stateMap).value;
      var rs := HourRecords(chunks[p], p, p * Hour, clock, stateMap).value;
      HourRecordsRecover(chunks[p], p, p * Hour, clock, stateMap);
      MarkersAppend(prev, rs);
      MarkerRowsStep(p, clock);
    }
  }

  /** The MARKER rows of `p + 1` hours are those of `p` hours and one more. */
  lemma MarkerRowsStep(p: nat, clock: int -> string)
    ensures seq(p + 1, (h: int) => MarkerRow(h, clock)) == seq(p, (h: int) => MarkerRow(h, clock)) + [MarkerRow(p, clock)]
  {
    var s := seq(p + 1, (h: int) => MarkerRow(h, clock));
    var t := seq(p, (h: int) => MarkerRow(h, clock));
    assert forall i :: 0 <= i < p ==> s[i] == t[i];
    assert s == t + [s[p]];
  }

  /** Every row of the first `n` hours is a run row inside its hour or the
      MARKER row of one of those hours. */
  lemma {:induction false} StateRecordsTable(chunks: seq<seq<int>>, n: nat, clock: int -> string, stateMap: map<int, string>)
    requires n <= |chunks|
    requires forall k :: 0 <= k < |chunks| ==> |chunks[k]| <= Hour
    requires StateRecords(chunks, n, clock, stateMap).Ok?
    ensures var rows := StateRecords(chunks, n, clock, stateMap).value;
      forall i :: 0 <= i < |rows| ==> TableRow(rows[i], n, clock, stateMap)
  {
    if n > 0 {
      var p := n - 1;
      StateRecordsStep(chunks, n, clock, stateMap);
      StateRecordsTable(chunks, p, clock, stateMap);
      var prev := StateRecords(chunks, p, clock, stateMap).value;
      var rs := HourRecords(chunks[p], p, p * Hour, clock, stateMap).value;
      var rows := prev + rs;
      HourRecordsRows(chunks[p], p, p * Hour, clock, stateMap);
      forall i | 0 <= i < |rows| ensures TableRow(rows[i], n, clock, stateMap) {
        if i < |prev| {
          assert rows[i] == prev[i];
          assert TableRow(prev[i], p, clock, stateMap);
        } else if i < |rows| - 1 {
          assert rows[i] == rs[i - |prev|];
        } else {
          assert rows[i] == MarkerRow(p, clock);
        }
      }
    }
  }

  /** The rows of hour `p` have key `2p`, except the MARKER row at the end,
      which has key `2p + 1`. */
  lemma HourRowsKeys(rs: seq<StateRecord>, p: nat, clock: int -> string, stateMap: map<int, string>)
    requires |rs| >= 1 && rs[|rs| - 1] == MarkerRow(p, clock)
    requires forall i :: 0 <= i < |rs| - 1 ==> IsRunRecord(rs[i], p, clock, stateMap)
    ensures forall i :: 0 <= i < |rs| ==> 2 * p <= RowKey(rs[i]) < 2 * p + 2
    ensures KeysSorted(rs)
  {
    MarkerRowKey(p, clock);
  }

  predicate KeysSorted(rows: seq<StateRecord>)
  {
    forall i, j :: 0 <= i < j < |rows| ==> RowKey(rows[i]) <= RowKey(rows[j])
  }

  lemma KeysAppend(a: seq<StateRecord>, b: seq<StateRecord>, k: int)
    requires KeysSorted(a) && KeysSorted(b)
    requires forall i :: 0 <= i < |a| ==> RowKey(a[i]) < k
    requires forall i :: 0 <= i < |b| ==> k <= RowKey(b[i])
    ensures KeysSorted(a + b)
  {
    var ab := a + b;
    forall i, j | 0 <= i < j < |ab| ensures RowKey(ab[i]) <= RowKey(ab[j]) {
      if j < |a| {
        assert ab[i] == a[i] && ab[j] == a[j];
      } else if i < |a| {
        assert ab[i] == a[i] && ab[j] == b[j - |a|];
      } else {
        assert ab[i] == b[i - |a|] && ab[j] == b[j - |a|];
      }
    }
  }

  /** The rows of the first `n` hours are in hour order: each MARKER row
      comes after the run rows of its hour and before those of the next. */
  lemma {:induction false} StateRecordsOrdered(chunks: seq<seq<int>>, n: nat, clock: int -> string, stateMap: map<int, string>)
    requires n <= |chunks|
    requires forall k :: 0 <= k < |chunks| ==> |chunks[k]| <= Hour
    requires StateRecords(chunks, n, clock, stateMap).Ok?
    ensures var rows := StateRecords(chunks, n, clock, stateMap).value;
      && (forall i :: 0 <= i < |rows| ==> 0 <= RowKey(rows[i]) < 2 * n)
      && KeysSorted(rows)
  {
    if n > 0 {
      var p := n - 1;
      StateRecordsStep(chunks, n, clock, stateMap);
      StateRecordsOrdered(chunks, p, clock, stateMap);
      var prev := StateRecords(chunks, p, clock, stateMap).value;
      var rs := HourRecords(chunks[p], p, p * Hour, clock, stateMap).value;
      HourRecordsRows(chunks[p], p, p * Hour, clock, stateMap);
      HourRowsKeys(rs, p, clock, stateMap);
      KeysAppend(prev, rs, 2 * p);
      KeysBoundsAppend(prev, rs, 0, 2 * p, 2 * n);
    }
  }

  lemma KeysBoundsAppend(a: seq<StateRecord>, b: seq<StateRecord>, lo: int, mid: int, hi: int)
    requires lo <= mid <= hi
    requires forall i :: 0 <= i < |a| ==> lo <= RowKey(a[i]) < mid
    requires forall i :: 0 <= i < |b| ==> mid <= RowKey(b[i]) < hi
    ensures forall i :: 0 <= i < |a + b| ==> lo <= RowKey((a + b)[i]) < hi
  {
    var ab := a + b;
    forall i | 0 <= i < |ab| ensures lo <= RowKey(ab[i]) < hi {
      if i < |a| {
        assert ab[i] == a[i];
      } else {
        assert ab[i] == b[i - |a|];
      }
    }
  }

  /** Recomputing the `hour` column keeps it, as long as no state is named
      'MARKER': every run row's start lies in its hour. */
  lemma HourColumnsKeep(rows: seq<StateRecord>, n: nat, clock: int -> string, stateMap: map<int, string>)
    requires forall k :: k in stateMap ==> stateMap[k] != "MARKER"
    requires forall i :: 0 <= i < |rows| ==> TableRow(rows[i], n, clock, stateMap)
    ensures HourColumns(rows) == rows
  {
    forall i | 0 <= i < |rows| ensures HourColumn(rows[i]) == rows[i] {
      var r := rows[i];
      if r.bout.Some? {
        var h := r.hour.value;
        assert h * Hour <= r.startSec < (h + 1) * Hour;
        assert TruncDiv(r.startSec, Hour) == h;
      } else {
        var h: nat :| h < n && r == MarkerRow(h, clock);
      }
    }
  }

  /** The last row of one or more hours is the MARKER row of the last hour. */
  lemma StateRecordsLast(chunks: seq<seq<int>>, n: nat, clock: int -> string, stateMap: map<int, string>)
    requires 0 < n <= |chunks|
    requires StateRecords(chunks, n, clock, stateMap).Ok?
    ensures var rows := StateRecords(chunks, n, clock, stateMap).value;
      |rows| > 0 && rows[|rows| - 1] == MarkerRow(n - 1, clock)
  {
    var prev := StateRecords(chunks, n - 1, clock, stateMap);
    var hr := HourRecords(chunks[n - 1], n - 1, (n - 1) * Hour, clock, stateMap);
    assert prev.Ok? && hr.Ok?;
    var rs := RunRecords(Lst2Group(Enumerate(chunks[n - 1], (n - 1) * Hour)), n - 1, clock, stateMap).value;
    assert StateRecords(chunks, n, clock, stateMap).value == prev.value + (rs + [MarkerRow(n - 1, clock)]);
  }

  /** `transfer_result` fails exactly when the annotation holds no second,
      with a ValueError raised while the table is built, or when some second's
      state code is missing from the state map, with KeyError. */
  lemma TransferOk(anno: MiAnnotation, clock: int -> string, clockMs: int -> string, stateMap: map<int, string>)
    ensures var t := TransferSpec(anno, clock, clockMs, stateMap);
      var ss := anno.sleepState;
      && (t.Ok? <==> |ss| > 0 && forall i :: 0 <= i < |ss| ==> ss[i] in stateMap)
      && (t.Err? ==> t.exc == (if |ss| == 0 then ValueError else KeyError))
  {
    var ss := anno.sleepState;
    var chunks := HourChunks(ss);
    var n := |chunks|;
    HourChunksShape(ss);
    StateRecordsOk(chunks, n, clock, stateMap);
    ConcatAllIn(chunks, stateMap.Keys);
    var res := StateRecords(chunks, n, clock, stateMap);
    if |ss| == 0 {
      assert n == 0 && res == Ok([]);
      assert !HasBlankHour(HourColumns([]));
    } else if res.Ok? {
      StateRecordsLast(chunks, n, clock, stateMap);
      var rows := res.value;
      var states := HourColumns(rows);
      assert states[|rows| - 1].hour.None?;
      assert HasBlankHour(states);
    }
  }

  /** The sleep-state table of `transfer_result`: its run rows expand back
      to the annotation's states, it holds one MARKER row per started hour,
      in hour order, every other row is a run of one hour with
      `bout_duration = end - start`, the rows are in hour order with each
      MARKER row closing its hour, and the recomputed `hour` column equals
      the hour of the loop. */
  lemma TransferTables(anno: MiAnnotation, clock: int -> string, clockMs: int -> string, stateMap: map<int, string>)
    requires TransferSpec(anno, clock, clockMs, stateMap).Ok?
    requires forall k :: k in stateMap ==> stateMap[k] != "MARKER"
    ensures var t := TransferSpec(anno, clock, clockMs, stateMap).value;
      var hours := HourCount(|anno.sleepState|);
      && ExpandRuns(RunsOf(t.states)) == anno.sleepState
      && MarkersOf(t.states) == seq(hours, (h: int) => MarkerRow(h, clock))
      && (forall i :: 0 <= i < |t.states| ==> TableRow(t.states[i], hours, clock, stateMap))
      && KeysSorted(t.states)
      && t.events == EventRecords(anno.startEnd, clockMs)
      && t.markers == MarkerRecords(anno.marker, clockMs)
  {
    var ss := anno.sleepState;
    var chunks := HourChunks(ss);
    var n := |chunks|;
    HourChunksShape(ss);
    var rows := StateRecords(chunks, n, clock, stateMap).value;
    StateRecordsExpand(chunks, n, clock, stateMap);
    StateRecordsMarkers(chunks, n, clock, stateMap);
    StateRecordsTable(chunks, n, clock, stateMap);
    StateRecordsOrdered(chunks, n, clock, stateMap);
    HourColumnsKeep(rows, n, clock, stateMap);
    assert chunks[..n] == chunks;
  }
}
