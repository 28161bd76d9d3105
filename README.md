# MiSleep core, modelled in Dafny

MiSleep is a toolkit for staging rodent sleep recordings. This project models the discrete
logic at its core and proves properties of that logic:

- the per-second sleep-state annotation and its run-length (`lst2group`) text codec;
- the annotation file loader and the result-table exporter;
- the `MiData` container of a multichannel recording;
- the post-processing of the automatic stager;
- the validation and dispatch of the signal filter, and the per-state cropping of a recording;
- the slow-wave and spindle detectors after their numeric front ends;
- the integer parts of the entropy helpers.

One Dafny module models each source file:

| module | file | form |
|---|---|---|
| `Annotation` | `annotation.dfy` | `MiSleep/utils/annotation.py`, pure functions and lemmas |
| `AnnotationIo` | `annotation_io.dfy` | `MiSleep/io/annotation_io.py`, a pure loader plus loop methods for the exporter |
| `Base` | `base.dfy` | `MiSleep/io/base.py`, class `MiData` whose methods update its fields, each proved against a function on the class's `Contents` |
| `AutoStage` | `auto_stage.dfy` | `MiSleep/analysis/auto_stage.py`, loops as methods; `result_constraints` over an array copy |
| `Signals` | `signals.dfy` | `MiSleep/utils/signals.py` |
| `Detection` | `detection.dfy` | `MiSleep/analysis/detection.py`, the nested hold loops, the record loop and the spindle loop as methods |
| `SelfAntropy` | `self_antropy.dfy` | `MiSleep/utils/self_antropy.py`, `_embed` as a loop method |

Two helper modules hold Python's semantics:

- `Py` (`py.dfy`): exceptions as a `Result`, `int()` on floats, clamped slices, `list.index`, and dynamically typed arguments.
- `Text` (`text.dfy`): `str.split`, `int(text)` and `str(n)`.

Floats are exact reals. A sampling frequency is therefore a real, and `int(x)` is truncation toward zero (`Py.Trunc`).

Calls into code this model cannot see become function-typed parameters:

| call | parameter |
|---|---|
| `transfer_time` date formatting | `clock` / `clockMs` |
| the f-string text of a float | `floatText` |
| `signal.iirfilter` and `signal.filtfilt` | `design` / `apply` |
| `argsort` | `argsort` |
| `_xlogx` | `xlogx` |
| `np.log2` | `log2` |
| the SWA start-crossing search | `startCrossings` |

Some inputs are taken as given rather than computed:

- the band-filtered samples and the peak indices found by `find_peaks`, for the slow-wave detector;
- the above-threshold flags, the window times and the peak count, which come from the spectrogram, for the spindle detector;
- the labels the classifier predicts.

`MiAnnotation` is imported from `MiSleep/io/base.py`, which does not define it. The model makes it a record `MiAnnotation(sleepState, marker, startEnd)` in module `Annotation`, with the state codes NREM 1, REM 2, Wake 3 and Init 4.

The code and its description disagree in one place, and the model follows the code. `crop_state_data` (`MiSleep/utils/signals.py:116-119`) is described as returning four per-state `MiData` objects. As written, it raises before it builds any of them; see Findings.

## Model

| member | source | states |
|---|---|---|
| Annotation.Enumerate | MiSleep/utils/annotation.py:23 | one `[index, value]` pair per element |
| Annotation.EnumerateAt | MiSleep/utils/annotation.py:23 | pair i is `[offset + i, a[i]]` |
| Annotation.Lst2Group | MiSleep/utils/annotation.py:14-26 | there are no more runs than pairs, and no runs exactly when there are no pairs |
| Annotation.Lst2GroupShape | MiSleep/utils/annotation.py:23-26 | the first run starts at the first pair's index with its value, the last run ends at the last pair's index, and neighbouring runs carry different values |
| Annotation.GroupTiles | MiSleep/utils/annotation.py:23-26 | on an enumerated list the runs tile `offset .. offset + n - 1` in order, with no gaps or overlaps, each run at least one second long and its end inclusive |
| Annotation.GroupValues | MiSleep/utils/annotation.py:23-26 | every second a run covers holds that run's value |
| Annotation.GroupExpands | MiSleep/utils/annotation.py:23-26 | expanding the runs of `a` (`last - first + 1` copies of each value) gives back `a` |
| Annotation.RegroupExpanded | MiSleep/utils/annotation.py:23-26 | the other direction: runs that tile a range with differing neighbours are regrouped from their expansion unchanged |
| Annotation.ExpandedLength | MiSleep/utils/annotation.py:52 | runs tiling `lo .. hi - 1` expand to `hi - lo` seconds |
| Annotation.TilesBounds | MiSleep/utils/annotation.py:23-26 | every run of a tiling of `lo .. hi - 1` lies inside it |
| Annotation.Lst2GroupExample | MiSleep/utils/annotation.py:16-17 | the docstring example: `[[1,2],…,[10,3]]` gives `[[1,5,2],[6,8,1],[9,10,3]]` |
| Annotation.Marker2MiAnno | MiSleep/utils/annotation.py:29-37 | succeeds exactly when every row parses, giving one `[int(f1), f7]` marker per row in row order |
| Annotation.StartEnd2MiAnno | MiSleep/utils/annotation.py:40-46 | succeeds exactly when every row parses, giving one `[int(f1), int(f4), f7]` event per row in row order |
| Annotation.SleepState2MiAnno | MiSleep/utils/annotation.py:49-52 | succeeds exactly when every row parses; the first row contributes `int(f4) - int(f1) + 1` copies of `int(f6)` ahead of the remaining rows' seconds |
| Annotation.CreateNewMiAnno | MiSleep/utils/annotation.py:55-60 | `data_duration` seconds (none for a negative duration), all Init (4), with no markers and no events |
| Annotation.StateRowRoundTrip | MiSleep/utils/annotation.py:51-52 | a run written as a comma-space row parses back to the same run |
| Annotation.MarkerRowRoundTrip | MiSleep/utils/annotation.py:34-35 | a marker written as a row parses back to the same marker |
| Annotation.StartEndRowRoundTrip | MiSleep/utils/annotation.py:43-44 | an event written as a row parses back to the same event |
| Annotation.RunRowsParse | MiSleep/utils/annotation.py:51-52 | the rows of a list of runs parse back to those runs |
| Annotation.SleepStateRoundTrip | MiSleep/utils/annotation.py:49-52 | dense states → `lst2group` runs → rows → `sleep_state2mianno` reproduces the states exactly |
| Annotation.StateRowsRegroup | MiSleep/utils/annotation.py:49-52 | rows → states → runs reproduces the runs of any tiling with differing neighbours |
| Annotation.MarkerRowsParse | MiSleep/utils/annotation.py:33-36 | marker rows written out read back as the same markers |
| Annotation.StartEndRowsParse | MiSleep/utils/annotation.py:42-45 | event rows written out read back as the same events |
| AnnotationIo.FindHeaders | MiSleep/io/annotation_io.py:26-36 | the header search: its "Empty" and "Invalid" failures and its choice of the sleep header are the ones `FindSectionsErrors` and `SleepHeaderChoice` state |
| AnnotationIo.FindSections | MiSleep/io/annotation_io.py:26-45 | the three section slices between the located headers, as `FindSectionsSlices` and `FindWrittenSections` state |
| AnnotationIo.LoadLines | MiSleep/io/annotation_io.py:26-47 | the loader on the split lines: the header errors, then the three section parsers, whose errors `ParsersNeverAssert` describes |
| AnnotationIo.LoadMiSleepAnno | MiSleep/io/annotation_io.py:14-47 | `load_misleep_anno` on the file's text: "Empty" and "Invalid" as `LoadEmpty` and `LoadInvalid` state, and the round trip of `LoadWritten` |
| AnnotationIo.SleepHeaderChoice | MiSleep/io/annotation_io.py:31-34 | the first `Sleep state` header is used when there is one; the first `Sleep stage` header is used only when there is none |
| AnnotationIo.FindSectionsErrors | MiSleep/io/annotation_io.py:25-36 | "Empty" exactly for the lines of an empty file; "Invalid" exactly for other lines missing the Marker header, the Start-End header or both sleep headers; no other lookup error |
| AnnotationIo.FindSectionsSlices | MiSleep/io/annotation_io.py:29-45 | the sections are the lines strictly between the first Marker and Start-End headers, those strictly between the Start-End and sleep headers, and every line after the sleep header |
| AnnotationIo.ParsersNeverAssert | MiSleep/io/annotation_io.py:38-45 | the section parsers raise only IndexError or ValueError, never the loader's own assertions |
| AnnotationIo.LoadEmpty | MiSleep/io/annotation_io.py:25-27 | the loader raises "Empty" exactly for empty file content |
| AnnotationIo.LoadInvalid | MiSleep/io/annotation_io.py:25-36 | the loader raises "Invalid" exactly for non-empty content that misses a header |
| AnnotationIo.FindWrittenSections | MiSleep/io/annotation_io.py:25-45 | the lines of a file written from three sections, split at newlines, give back those sections |
| AnnotationIo.LoadWritten | MiSleep/io/annotation_io.py:14-47 | an annotation written as a MiSleep file loads back to the same annotation |
| AnnotationIo.TransferSpec | MiSleep/io/annotation_io.py:68-147 | `transfer_result`'s outcome: its errors are those `TransferOk` states and its tables those `TransferTables` states |
| AnnotationIo.MarkerRecordsBack | MiSleep/io/annotation_io.py:69-71 | the marker table loses nothing: reading its seconds and labels back gives the markers in order, and each timestamp is the clock text of its own second |
| AnnotationIo.EventRecordsBack | MiSleep/io/annotation_io.py:73-77 | the start-end table loses nothing: reading its starts, ends and labels back gives the labels in order, and every row has start code 1, end code 0, clock texts of its own seconds and `bout_duration = end - start` |
| AnnotationIo.SplitHours | MiSleep/io/annotation_io.py:80-84 | the loop that cuts the states into hours computes `HourChunks` |
| AnnotationIo.HourChunksShape | MiSleep/io/annotation_io.py:80-84 | the hour chunks concatenate back to the states; there is one chunk per started hour; chunk k is seconds `k*3600 .. (k+1)*3600 - 1`; only non-empty chunks are kept |
| AnnotationIo.ChunksConcat | MiSleep/io/annotation_io.py:81-84 | the first n chunks concatenate to the first `min(n*3600, len)` states |
| AnnotationIo.ChunksCount | MiSleep/io/annotation_io.py:81-84 | the first n loop steps keep `min(n, hours)` chunks, chunk k being hour k |
| AnnotationIo.HourRows | MiSleep/io/annotation_io.py:86-99 | the row-building loop computes `StateRecords` over all hours |
| AnnotationIo.TransferResult | MiSleep/io/annotation_io.py:68-147 | the method's outcome is `TransferSpec`'s: ValueError when no row has the blank MARKER hour, the first hour's KeyError for an unknown state code, otherwise the sleep-state, start-end and marker tables |
| AnnotationIo.HourRecordsOk | MiSleep/io/annotation_io.py:88-99 | an hour's rows are built exactly when every code of the hour is in `state_map`, otherwise KeyError |
| AnnotationIo.StateRecordsOk | MiSleep/io/annotation_io.py:86-99 | the rows of the first n hours are built exactly when every code of those hours is in `state_map`; the only error is KeyError |
| AnnotationIo.StateRecordsExpand | MiSleep/io/annotation_io.py:88-94 | the run rows of the first n hours expand back to those hours' states |
| AnnotationIo.StateRecordsMarkers | MiSleep/io/annotation_io.py:96-99 | the MARKER rows are exactly one per hour h, at second `(h+1)*3600`, state code 5, in hour order |
| AnnotationIo.StateRecordsTable | MiSleep/io/annotation_io.py:87-99 | every row is a MARKER row of some hour, or a run row of hour h with start and end inside `[h*3600, (h+1)*3600 - 1]`, `bout_duration = end - start` and its state name from `state_map` |
| AnnotationIo.StateRecordsOrdered | MiSleep/io/annotation_io.py:87-99 | the rows are in hour order and each MARKER row closes its hour |
| AnnotationIo.HourColumnsKeep | MiSleep/io/annotation_io.py:107 | when no state is named "MARKER", the recomputed `hour` column equals the loop's hour on every row |
| AnnotationIo.StateRecordsLast | MiSleep/io/annotation_io.py:96-99 | the rows of one or more hours end with the MARKER row of the last hour |
| AnnotationIo.TransferOk | MiSleep/io/annotation_io.py:68-111 | `transfer_result` succeeds exactly when the annotation holds at least one second and every state code is in `state_map`; an empty annotation raises ValueError in the table-building block of lines 105-111 (pandas may raise it at the `hour` assignment, otherwise `temp_hour.remove('')` does), an unknown code KeyError |
| AnnotationIo.TransferTables | MiSleep/io/annotation_io.py:68-147 | the state table's runs expand back to the states; it holds one MARKER row per started hour; its rows are hour-bounded and ordered; the `hour` column is the loop's hour; the event and marker tables are the record lists |
| Base.FloorDiv | MiSleep/io/base.py:49 | `math.floor(n / f)`: ZeroDivisionError exactly for `f == 0`, otherwise the integer r with `r <= n/f < r + 1` |
| Base.DurationsAt | MiSleep/io/base.py:49 | the per-channel durations fail with ZeroDivisionError exactly when some frequency is zero; otherwise duration i is `floor(len_i / sf_i)` |
| Base.OneValueSet | MiSleep/io/base.py:49-50 | `len(set(durations)) == 1` exactly when there is at least one duration and all are equal |
| Base.TruncatedPrefix | MiSleep/io/base.py:54 | each stored signal is a prefix of its input: `int(duration * sf_i)` samples when that fits, the whole signal when it is longer, and the signal less that many samples from its end when it is negative |
| Base.Build | MiSleep/io/base.py:20-57 | the constructor's checks and truncation: its errors, in order, are those of `BuildErrors`, and its result is the one `BuildOk` and `BuildContents` state |
| Base.BuildErrors | MiSleep/io/base.py:20-57 | the constructor raises ValueError for a channel or frequency list of the wrong length, TypeError for a non-float frequency, ZeroDivisionError for a zero frequency, and ValueError unless all `floor(len/sf)` agree; it succeeds exactly otherwise |
| Base.PrefixFits | MiSleep/io/base.py:53-54 | at a positive rate, `int(floor(n/f) * f)` samples fit in the n samples of a channel |
| Base.NegativeKeepsAll | MiSleep/io/base.py:53-54 | at a negative rate the cut keeps the whole channel |
| Base.BuildOk | MiSleep/io/base.py:49-57 | a successful construction has parallel lists of floats, a common duration `d`, and contents `(truncated signals, channels, sf, d)` |
| Base.BuildContents | MiSleep/io/base.py:49-57 | a built recording keeps its channels and frequencies; every channel has `floor(len/sf)` equal to the common duration; every stored signal is its input's prefix of `int(duration*sf)` samples |
| Base.RebuildWhole | MiSleep/io/base.py:49-57 | rebuilding a recording whose rates are whole and whose channels hold exactly `duration * sf` samples gives the same recording |
| Base.BuildAligned | MiSleep/io/base.py:53-54 | with whole rates, every built channel holds exactly `duration * sf` samples |
| Base.RebuildLosesSecond | MiSleep/io/base.py:49-54 | at 2.5 Hz, three samples build a one-second recording of two samples, and those two samples rebuild to a zero-second, empty recording |
| Base.AddSpec | MiSleep/io/base.py:121-146 | `add`'s outcome: the errors of `AddCases`, and on success the appended channel of `AddKeeps` |
| Base.AddCases | MiSleep/io/base.py:121-146 | `add` raises TypeError for a non-number frequency and ZeroDivisionError for a zero one; then ValueError when the new duration is more than 10 s away, then TypeError for a non-string name; it succeeds exactly otherwise |
| Base.AddKeeps | MiSleep/io/base.py:143-146 | a successful `add` keeps every existing entry, appends the signal, name and frequency at the end, leaves the duration alone and keeps the recording well formed |
| Base.DeleteSpec | MiSleep/io/base.py:148-160 | `delete`'s outcome: the errors and removal of `DeleteCases`, undoing `AddSpec` as `DeleteUndoesAdd` states |
| Base.DeleteCases | MiSleep/io/base.py:148-160 | TypeError for a non-string, IndexError for an unknown name, ValueError for the last channel; otherwise the name's first index is removed from all three lists, keeping the others in order |
| Base.DeleteUndoesAdd | MiSleep/io/base.py:121-160 | deleting a freshly added channel restores the recording |
| Base.Rename | MiSleep/io/base.py:78-94 | `rename_channels` on the channel list: the errors of `RenameErrors`, and the renames of `RenamedOne`, `RenamedSplit` and `RenamedBack` |
| Base.RenamedShape | MiSleep/io/base.py:86-91 | renaming with a dict keeps the number of channels and its only error is IndexError |
| Base.RenameErrors | MiSleep/io/base.py:86-94 | renaming keeps the number of channels; a mapping that is not a dict changes nothing and raises TypeError; a dict can only raise IndexError |
| Base.RenamedOne | MiSleep/io/base.py:87-91 | a present key's first occurrence gets the new name and nothing else changes; a missing key changes nothing and raises IndexError |
| Base.RenamedSplit | MiSleep/io/base.py:87-91 | keys apply in order: renames made before a failing key persist |
| Base.RenamedBack | MiSleep/io/base.py:87-91 | renaming `a` to a fresh `b` and back restores the channels |
| Base.DiffSpec | MiSleep/io/base.py:59-76 | `differential`'s outcome: the errors and the new difference channel of `DiffCases` |
| Base.DiffCases | MiSleep/io/base.py:59-76 | ValueError when either name is `None`; IndexError for a name that is not a channel; ValueError for channels of different lengths. On success, a new last channel holds `c1 - c2` sample by sample, is named `"{c1}_{c2}_diff"` at `c1`'s frequency, and every existing channel is kept |
| Base.CropSpec | MiSleep/io/base.py:162-187 | `crop`'s outcome and the clamped period: the errors of `CropCases`, and on success the cut channels of `CropCut`, `CropChannel` and `CropWhole` |
| Base.CropSignals | MiSleep/io/base.py:182-183 | one cut signal per channel |
| Base.CropCases | MiSleep/io/base.py:162-180 | TypeError for a non-list, ValueError for a length other than 2, TypeError for a non-int or negative bound, ValueError for `start >= end`; the caller's list changes only by clamping its end to the duration |
| Base.CropChannel | MiSleep/io/base.py:182-183 | with whole rates, channel i is cut to exactly `(e - s) * sf_i` samples |
| Base.CropChannelPast | MiSleep/io/base.py:179-183 | a start at or past the duration gives an empty channel |
| Base.CropWhole | MiSleep/io/base.py:162-187 | with whole rates the crop succeeds, keeps channels and frequencies, lasts `min(end, duration) - start` seconds (none when the start is past the end), and channel i is `signal_i[start*sf_i : end'*sf_i]` |
| Base.CropCut | MiSleep/io/base.py:182-183 | the cut of channel i is the Python slice `[int(s*sf_i), int(e*sf_i))` of the expected length |
| Base.CropChecksPass | MiSleep/io/base.py:164-180 | two non-negative ints with `start < end` pass every check, and the period becomes `[start, min(end, duration)]` |
| Base.Picks | MiSleep/io/base.py:197-207 | the picked indices: IndexError exactly when some requested name is not a channel; otherwise index k is the first position of name k |
| Base.PickLoop | MiSleep/io/base.py:197-207 | the picking loop raises IndexError exactly when `Picks` does; otherwise it gathers signals, channels and sf at the picked indices, in request order |
| Base.PickSpec | MiSleep/io/base.py:189-209 | `pick_chs` as written, rebuilding through `Build`: `PickAllWhole` and `PickAllLosesSecond` state what it gives |
| Base.PickKept | MiSleep/io/base.py:189-209 | `pick_chs` as intended, keeping the duration: `PickKeptSpec` states what it gives |
| Base.PickAllWhole | MiSleep/io/base.py:189-209 | with whole rates and distinct names, picking all channels (`None`) rebuilds the same recording |
| Base.PickAllLosesSecond | MiSleep/io/base.py:189-209 | as written: at 2.5 Hz, picking all channels of a one-second, two-sample recording gives a zero-second, empty one |
| Base.PickKeptSpec | MiSleep/io/base.py:189-209 | as intended: the pick is well formed, keeps the duration, holds exactly the requested channels in request order, and picking all channels (distinct names) is the identity |
| Base.MiData.constructor | MiSleep/io/base.py:20-57 | a constructed `MiData` is valid and holds what `Build` computes |
| Base.MiData.New | MiSleep/io/base.py:20-57 | construction fails exactly when `Build` does, with its exception, and otherwise yields a fresh valid `MiData` holding `Build`'s contents |
| Base.MiData.Add | MiSleep/io/base.py:121-146 | the fields become `AddSpec`'s result on success; on error they are unchanged and the error is returned; the object stays valid |
| Base.MiData.Delete | MiSleep/io/base.py:148-160 | the fields become `DeleteSpec`'s result on success, and are unchanged on error |
| Base.MiData.RenameChannels | MiSleep/io/base.py:78-94 | the channels and the error become `Rename`'s: TypeError with nothing changed for a non-dict mapping, otherwise the dict's renames in order, those made before a missing key kept; signals, sf and duration are unchanged |
| Base.MiData.Differential | MiSleep/io/base.py:59-76 | the fields become `DiffSpec`'s result on success, and are unchanged on error |
| Base.MiData.Crop | MiSleep/io/base.py:162-187 | returns the period after clamping and a fresh `MiData` holding `CropSpec`'s result, or its error |
| Base.MiData.PickChs | MiSleep/io/base.py:189-209 | returns a fresh `MiData` holding `PickSpec`'s result, or its error; `None` and `[]` pick every channel |
| Signals.Nyquist | MiSleep/utils/signals.py:52-61 | `x / (0.5 * sf)` is the r with `r * (sf / 2) == x` |
| Signals.FilterPlan | MiSleep/utils/signals.py:42-66 | the type checks and the normalised cutoffs and name of each filter type, as `FilterRejects`, `ZeroRatePlan`, `LowpassPlan`, `HighpassPlan` and `BandPlan` state |
| Signals.SignalFilter | MiSleep/utils/signals.py:16-77 | `signal_filter`: the plan, then the design and application parameters, as `FilterOutput` states |
| Signals.FilterRejects | MiSleep/utils/signals.py:42-66 | TypeError when `sf`, `low` or `high` is not an int or float; ValueError for any other filter type, raised before any filter is designed |
| Signals.ZeroRatePlan | MiSleep/utils/signals.py:51-62 | a zero rate raises ZeroDivisionError for lowpass and highpass, and gives non-finite band cutoffs |
| Signals.LowpassPlan | MiSleep/utils/signals.py:51-53 | lowpass: the cutoff is `high / (0.5*sf)` and the name is `lowpass_{high}` |
| Signals.HighpassPlan | MiSleep/utils/signals.py:54-56 | highpass: the cutoff is `low / (0.5*sf)` and the name is `highpass_{low}` |
| Signals.BandPlan | MiSleep/utils/signals.py:57-62 | bandpass and bandstop: the cutoffs are `[low, high] / (0.5*sf)` and the name is `{btype}_{low}_{high}` |
| Signals.FilterOutput | MiSleep/utils/signals.py:68-77 | the filter succeeds exactly when the plan, the design and the application do, and returns the applied output under the planned name |
| Signals.StateSignals | MiSleep/utils/signals.py:93-114 | one state signal per channel |
| Signals.StatePiecesAppend | MiSleep/utils/signals.py:96-98 | the pieces of a state over two run lists are the pieces of each, in run order |
| Signals.StateSignalSkip | MiSleep/utils/signals.py:96-114 | a run of another state contributes nothing |
| Signals.StateSignalRun | MiSleep/utils/signals.py:96-98 | a run of state k appends `signal[int(first*sf) : int(last*sf)]`, so the run's final second is excluded |
| Signals.StateSignalLength | MiSleep/utils/signals.py:96-114 | at a whole rate, the state-k signal holds `Σ (last - first) * sf` samples over the runs of k |
| Signals.CropStateSignals | MiSleep/utils/signals.py:80-114 | the channel loop computes, for each of NREM, REM, Wake and Init, the concatenated state pieces of every channel |
| Signals.CropStateData | MiSleep/utils/signals.py:80-121 | as written: the call raises AttributeError (`midata.time`) |
| Signals.CropStateWhole | MiSleep/utils/signals.py:80-121 | as intended: on an aligned recording with whole rates, annotated for at most its duration, each per-state recording is built without error, keeps the channels and frequencies, lasts the state's surviving seconds and holds each channel's state samples |
| Signals.CropStateDataFixed | MiSleep/utils/signals.py:80-121 | as intended: four per-state recordings without the `time` and `describe` arguments, whose contents `CropStateWhole` states |
| Signals.StateSecondsNonNeg | MiSleep/utils/signals.py:96-114 | the surviving seconds of a state are never negative |
| AutoStage.NoiseBands | MiSleep/analysis/auto_stage.py:16-22 | the default noise band keeps `[47,53]`, `[97,103]` and `[147,153]` exactly while twice the band's top is below sf (sf > 106, 206, 306); any other setting keeps `[47,53]` when sf > 106 and nothing otherwise |
| AutoStage.FilterPowerLineNoise | MiSleep/analysis/auto_stage.py:11-26 | the loop applies the chosen bandstops in order |
| AutoStage.LowRateUntouched | MiSleep/analysis/auto_stage.py:16-26 | at sf ≤ 106 the data is returned untouched |
| AutoStage.NotchDesign | MiSleep/analysis/auto_stage.py:24 | each bandstop is designed at the band's normalised cutoffs |
| AutoStage.ChosenBandsNormalised | MiSleep/analysis/auto_stage.py:16-24 | every chosen band has normalised cutoffs `0 < lo < hi < 1`, so the filter design accepts them |
| AutoStage.WindowsSpec | MiSleep/analysis/auto_stage.py:28-46 | `split_window_data`'s result: ZeroDivisionError at a zero rate, and the windows of `ShortRecording` and `WindowStarts` |
| AutoStage.WindowCountExact | MiSleep/analysis/auto_stage.py:42 | `range(0, secs - stride, stride)` has a j-th start exactly when `j * stride < secs - stride` |
| AutoStage.WindowAt | MiSleep/analysis/auto_stage.py:43-44 | window i is paired with the given state and holds no more samples than the data |
| AutoStage.SplitWindowData | MiSleep/analysis/auto_stage.py:28-46 | `split_window_data` returns `WindowsSpec` |
| AutoStage.WindowLoop | MiSleep/analysis/auto_stage.py:42-44 | the loop builds one window per start `j * stride` |
| AutoStage.ShortRecording | MiSleep/analysis/auto_stage.py:36-37 | no windows when `len/sf < 20` (the literal 20, whatever the window length) |
| AutoStage.WindowStarts | MiSleep/analysis/auto_stage.py:36-46 | otherwise window j exists exactly when `j*stride < floor(len/sf) - stride`, and it is `data[int(j*stride*sf) : int((j*stride + window_length)*sf)]` with the state |
| AutoStage.Constraints | MiSleep/analysis/auto_stage.py:105-120 | `result_constraints`'s labels, whose properties `ConstraintsHold` states |
| AutoStage.ResultConstraints | MiSleep/analysis/auto_stage.py:105-120 | the in-place loop over a copy of the labels computes `Constraints`, leaving its input alone |
| AutoStage.StepKeeps | MiSleep/analysis/auto_stage.py:113-118 | the pass at k keeps the first label, the rules below k and the input's labels after k + 1, and establishes both rules at k |
| AutoStage.SmoothInvariant | MiSleep/analysis/auto_stage.py:113-118 | after the passes at `1 .. k-1`, the first label is kept, both rules hold at every inner epoch below k, and every label after k is still the input's |
| AutoStage.ConstraintsHold | MiSleep/analysis/auto_stage.py:105-120 | the output has the input's length and its first epoch; for all `1 ≤ j ≤ n-2` there is no REM right after Wake, and a single epoch between two equal neighbours takes their state |
| AutoStage.ExpandLabels | MiSleep/analysis/auto_stage.py:157 | each label repeated five times, as `ExpandLabelsAt` states |
| AutoStage.ExpandLabelsAt | MiSleep/analysis/auto_stage.py:157 | the expansion has length `5n` and `out[i] == pred[i / 5]` |
| AutoStage.AutoStageSeconds | MiSleep/analysis/auto_stage.py:155-158 | the stager's per-second labels are the constrained predictions, each repeated 5 times |
| Detection.CrossingsBelow | MiSleep/analysis/detection.py:37 | the crossings below n, increasing: exactly the i < n where the sign bit changes |
| Detection.ZeroCrossings | MiSleep/analysis/detection.py:37 | `np.where(np.diff(np.signbit(band)))`: exactly the indices where the sign bit of neighbouring samples differs, in increasing order |
| Detection.FirstAbove | MiSleep/analysis/detection.py:45-58 | the first position above x, or none when every element is at most x |
| Detection.FindFirstAbove | MiSleep/analysis/detection.py:45-58 | the loop with `break` stops at `FirstAbove` |
| Detection.FirstAboveMono | MiSleep/analysis/detection.py:45-48 | the first position above a larger bound is no earlier |
| Detection.Matches | MiSleep/analysis/detection.py:40-58 | the held waves of the nested loops, whose properties `MatchesAccepted`, `MatchesZerosDistinct`, `MatchesOrdered` and `MatchesMonotone` state |
| Detection.TryNeg | MiSleep/analysis/detection.py:43-58 | for a negative peak, the wave taken fits the band (first crossing after the peak, first positive peak after it, signs between) and its crossing is not yet held; when none is taken, no such wave exists |
| Detection.HoldPeaks | MiSleep/analysis/detection.py:40-58 | the nested loops fill the three hold lists with the negative peaks, crossings and positive peaks of `Matches`, so they have equal length |
| Detection.TryPeak | MiSleep/analysis/detection.py:44-58 | one outer-loop body computes `TryNeg` |
| Detection.HoldAppend | MiSleep/analysis/detection.py:53-55 | holding a wave appends its three indices to the three lists |
| Detection.MatchesStep | MiSleep/analysis/detection.py:43-58 | the waves held after a further negative peak are the earlier ones plus that peak's wave, if it has one |
| Detection.MatchesAccepted | MiSleep/analysis/detection.py:45-55 | every held wave fits the band and has one of the negative peaks |
| Detection.WaveSigns | MiSleep/analysis/detection.py:51-52 | a fitting wave has `band[neg .. zero-1] < 0` and `band[zero+1 .. pos-1] > 0` |
| Detection.MatchesZerosDistinct | MiSleep/analysis/detection.py:49 | a zero crossing is held at most once |
| Detection.MatchesOrdered | MiSleep/analysis/detection.py:43-55 | with increasing negative peaks, the held waves are ordered by their negative peaks |
| Detection.WavesOrdered | MiSleep/analysis/detection.py:45-49 | two linked waves with ordered negative peaks and different crossings have ordered crossings and positive peaks |
| Detection.MatchesMonotone | MiSleep/analysis/detection.py:43-55 | with increasing inputs, the held crossings increase and the held positive peaks never decrease |
| Detection.EndCrossings | MiSleep/analysis/detection.py:68-70 | the end crossings of the held positive peaks, which `EndCrossingsFound` and `HeldEndsFound` describe |
| Detection.SearchLeft | MiSleep/analysis/detection.py:70 | `np.searchsorted(a, v)`: the first position not below v |
| Detection.EndCrossingsFound | MiSleep/analysis/detection.py:68-70 | after the sentinel step, every held positive peak gets its end crossing: the first crossing at or after it, or the sentinel `last_pos + 1` |
| Detection.RecordsUpTo | MiSleep/analysis/detection.py:73-95 | the records of the first n start crossings, whose band, slope and error properties `RecordsInBand`, `RecordsSlope` and `RecordsErrStays` state |
| Detection.SwaDetection | MiSleep/analysis/detection.py:8-102 | `SWA_detection` on the filtered band: `None` as `SwaDetectionNone` states, and records as `SwaDetectionSlopes` states |
| Detection.RecordsErrStays | MiSleep/analysis/detection.py:73-95 | once the record loop raises, the result keeps that error |
| Detection.SwaRecords | MiSleep/analysis/detection.py:73-95 | the record loop computes `RecordsUpTo`: IndexError for a start past the end crossings, or for an in-band one past the held waves; out-of-band waves skipped; each record with its eleven columns |
| Detection.WaveRecordSlope | MiSleep/analysis/detection.py:83-94 | a record's PTP is the positive peak less the negative one, its slope times the time between the peaks is PTP, and the slope is finite exactly when the peaks differ |
| Detection.RecordsSlope | MiSleep/analysis/detection.py:73-95 | every reported record satisfies `SlopeHolds`, the PTP and slope relation of `WaveRecordSlope` |
| Detection.RecordsFiniteSlope | MiSleep/analysis/detection.py:83-94 | when every held wave's negative peak precedes its positive peak, every reported slope is finite |
| Detection.SwaDetectionSlopes | MiSleep/analysis/detection.py:39-95 | every reported slow wave has PTP `pos - neg` and a finite slope with `slope * (PosTime - NegTime) == PTP`, since a held wave's peaks straddle its crossing |
| Detection.RecordsInBand | MiSleep/analysis/detection.py:77-80 | every reported record has a non-zero duration and a frequency `1/duration` inside `freq_band`; the others are skipped |
| Detection.SwaDetectionNone | MiSleep/analysis/detection.py:60-61 | the detector returns `None` exactly when no wave is held |
| Detection.HeldEndsFound | MiSleep/analysis/detection.py:68-70 | with increasing peak lists, the end-crossing step never fails |
| Detection.SelectedRuns | MiSleep/analysis/detection.py:128-132 | the kept runs are exactly the true runs that do not start at index 0 and whose last index has a time |
| Detection.SpindleTimes | MiSleep/analysis/detection.py:125-132 | the start and end lists are `KeptStarts` and `KeptEnds` of the kept runs: `t[first]` and `t[last]` of each, in run order, both indices within the times |
| Detection.SelectedRunsMaximal | MiSleep/analysis/detection.py:125-132 | every kept run is a maximal block of true flags: it starts after a false flag and ends at the last flag or before a false one |
| Detection.LongPairs | MiSleep/analysis/detection.py:168-170 | every returned pair lasts at least half a second |
| Detection.LongPairsFrom | MiSleep/analysis/detection.py:160-170 | every returned pair is an input pair shifted by the start time |
| Detection.LongPairsKept | MiSleep/analysis/detection.py:160-170 | every input pair at least half a second long is returned |
| Detection.SpindleDetection | MiSleep/analysis/detection.py:125-170 | `None` exactly when there is no peak or no kept run; otherwise the result is `LongPairs` of the kept runs' start and end times, so every returned pair lasts at least 0.5 s |
| SelfAntropy.NumZerocross | MiSleep/utils/self_antropy.py:93-95 | fewer crossings than samples, and none for an empty signal |
| SelfAntropy.NumZerocrossNormalized | MiSleep/utils/self_antropy.py:96-97 | NaN exactly for an empty signal; otherwise the count over the number of samples, in `[0, 1)` |
| SelfAntropy.CrossCountBelow | MiSleep/utils/self_antropy.py:95 | the count below n is the number of crossings below n |
| SelfAntropy.NumZerocrossCounts | MiSleep/utils/self_antropy.py:95 | the count is the number of indices where `np.signbit` changes, with 0 counted as non-negative |
| SelfAntropy.NumZerocrossExamples | MiSleep/utils/self_antropy.py:42-46 | the docstring examples: `[-1,0,1,2,3]` gives 1 and `[0,0,2,-1,0,1,0,2]` gives 2 |
| SelfAntropy.EmbedChecks | MiSleep/utils/self_antropy.py:344-349 | ValueError unless `order*delay <= N`, `delay >= 1` and `order >= 2` |
| SelfAntropy.RowsFit | MiSleep/utils/self_antropy.py:351-355 | under the checks there is at least one row, and column i's window fits in the signal |
| SelfAntropy.Embedding | MiSleep/utils/self_antropy.py:324-356 | the checks' ValueError, or `N - (order-1)*delay` rows of `order` columns |
| SelfAntropy.EmbeddingAt | MiSleep/utils/self_antropy.py:351-356 | row t, column i is `x[t + i*delay]` |
| SelfAntropy.EmbeddingColumn | MiSleep/utils/self_antropy.py:354-355 | column i is the slice `x[i*delay : i*delay + rows]` that the loop assigns to `Y[i]` |
| SelfAntropy.Embed | MiSleep/utils/self_antropy.py:341-356 | the row-filling loop and its transpose compute `Embedding` |
| SelfAntropy.Hash | MiSleep/utils/self_antropy.py:309-314 | a row's hash `Σ row[i] * order^i`, bounded by `HashBounds` and injective by `HashInjective` |
| SelfAntropy.HashBounds | MiSleep/utils/self_antropy.py:309-314 | a row of digits below `order` hashes into `[0, order^len)` |
| SelfAntropy.HashInjective | MiSleep/utils/self_antropy.py:309-314 | distinct rows of equal length with digits below `order`, in particular distinct permutations, have distinct hashes |
| SelfAntropy.Tally | MiSleep/utils/self_antropy.py:316 | the distinct hashes with their counts, as `TallyCounts` states |
| SelfAntropy.BumpShape | MiSleep/utils/self_antropy.py:316 | counting one more hash keeps the keys in place, never lowers a count, and appends `(h, 1)` only for a new hash |
| SelfAntropy.BumpCounts | MiSleep/utils/self_antropy.py:316 | counting h raises h's count by one and leaves every other count alone |
| SelfAntropy.TallyCounts | MiSleep/utils/self_antropy.py:316 | the tally lists each hash once, with a positive count equal to its number of occurrences, and the counts sum to the number of rows |
| SelfAntropy.ProbabilityAt | MiSleep/utils/self_antropy.py:318 | each probability times the total is its count |
| SelfAntropy.ProbabilitiesSumToOne | MiSleep/utils/self_antropy.py:318 | counts divided by their own total sum to 1 |
| SelfAntropy.HashProbabilitiesSumToOne | MiSleep/utils/self_antropy.py:316-318 | the pattern probabilities of the embedded rows sum to 1 |
| SelfAntropy.PatternHashesPatterns | MiSleep/utils/self_antropy.py:312-314 | when every embedded row has `order` values and `argsort` sorts it, two rows have the same hash exactly when they have the same ordinal pattern |
| SelfAntropy.PermEntropyAt | MiSleep/utils/self_antropy.py:307-322 | an AssertionError for `delay <= 0`; otherwise it fails exactly when the embedding does |
| SelfAntropy.Mean | MiSleep/utils/self_antropy.py:305-306 | `np.mean` is defined exactly for a non-empty list without NaN |
| SelfAntropy.PermEntropy | MiSleep/utils/self_antropy.py:304-306 | a list of delays succeeds exactly when every delay does |
| SelfAntropy.PermEntropyMean | MiSleep/utils/self_antropy.py:304-306 | a list of delays gives the mean of the per-delay entropies; an empty list gives NaN, and any error raised is that of one of the delays |
| SelfAntropy.IncreasingArgsort | MiSleep/utils/self_antropy.py:312 | the only argsort of a strictly increasing row is the identity |
| SelfAntropy.IncreasingSinglePattern | MiSleep/utils/self_antropy.py:300-302 | a strictly increasing series has a single ordinal pattern, with probabilities `[1.0]`; when `x log x` vanishes at 1, the unnormalised entropy is 0, and the normalised one is 0 unless `log2(order!)` is 0, where it is NaN (`None`) |
| Py.Trunc | MiSleep/io/base.py:54 | `int(x)` truncates toward zero |
| Py.Slice | MiSleep/io/base.py:182-183 | Python's slice: bounds clamped, an empty range giving nothing, element k being `s[lo + k]` |
| Py.IndexOf | MiSleep/io/base.py:156 | `list.index`: the first position holding x, and absent exactly when x is not in the list |
| Py.MapAll | MiSleep/utils/annotation.py:35 | a comprehension whose elements may raise: it succeeds exactly when every element does, otherwise the first failing element's exception is raised |
| Text.SplitJoin | MiSleep/utils/annotation.py:34 | `sep.join(fields).split(sep) == fields` when no field holds the separator |
| Text.SplitIsEmptyLine | MiSleep/io/annotation_io.py:25-26 | `split` gives `[""]` exactly for the empty string |
| Text.IntRoundTrip | MiSleep/utils/annotation.py:35 | `int(str(i)) == i` |

## Left out

- File I/O: `open()` and `read()` are not modelled; the loader works on the file's text and the exporter returns its tables as values.
- Numeric front ends: filter design and application, peak finding, the spectrogram, feature extraction, the LightGBM classifier and its model file, argsort, `x log x` and `log2`. Each is a function-typed parameter or an input.
- Floating point: floats are exact reals, so rounding, NaN propagation and infinities are not modelled. An empty `np.mean` and the NaN of a normalised empty count are `None`.
- load_bio_anno (MiSleep/io/annotation_io.py:50-65) is not part of this model; it does not belong to the modelled core.
- The per-hour statistics table of `transfer_result` (MiSleep/io/annotation_io.py:108-137) is left out: it is percentages and rounding.
- `transfer_time` date formatting is the `clock`/`clockMs` parameter.
- `MiData.filter` (MiSleep/io/base.py:96-119) is not modelled as a member: it is `signal_filter` (modelled) followed by `add` (modelled) for each listed channel.
- Aliasing: the constructor keeps the caller's channel and frequency lists (MiSleep/io/base.py:55-57), and `crop` passes its own lists to it (MiSleep/io/base.py:184-187). A crop and its source therefore share those two lists, so `add`, `delete`, `differential` or `rename_channels` on one changes the other's channels and frequencies but not its signals. `pick_chs` builds fresh lists and shares nothing but the signal arrays. The model's lists are values, so this sharing is not captured.
- The `isinstance(sf, (int, float))` check of `add` (MiSleep/io/base.py:140-141) can never fire: a non-number has already failed the division at line 133. It is modelled by that division's TypeError. A NumPy integer frequency, which would pass the division and fail this check, is not among the model's values.
- The `idx` branch of the `sf` property (MiSleep/io/base.py:227-235) is unreachable through property access, so it is not modelled.
- The type checks in `MiData.__init__` on the kinds of the containers (MiSleep/io/base.py:21-36) are implied by the Dafny types.
- The SWA start-crossing search (MiSleep/analysis/detection.py:64-65) is the `startCrossings` parameter: it is a searchsorted/diff device with no stated relation to the hold lists.
- Like the source, the model records the SWA peak values as peak indices, so PTP is a difference of indices.
- Spindle thresholds (the mean and standard deviation of the squared spectrum) are not computed; the above-threshold flags and the peak count are inputs.
- SwaRecords, SwaDetection: require a non-zero sampling frequency. At a zero rate the bandpass filter in front of the detector gets non-finite cutoffs (`Signals.ZeroRatePlan`), and the filter design outside the model decides what follows. In the record loop NumPy's `start_zero / sf` would be infinite or NaN, not an exception. That path is not modelled.
- Text.ParseInt: accepts ASCII text only. Python's `int` also takes underscores between digits and non-ASCII digits and whitespace, which this model turns into ValueError.
- Rename, RenameChannels: a Python dict has distinct keys; the model's `Dict` items may repeat a key, and then each occurrence is applied in turn.
- Mapping, Rename, RenameChannels: the dict's keys and values are strings. `rename_channels` stores any value as the new channel name, and a non-string key or value is not modelled.
- PermEntropyAt, HashInjective, PatternHashesPatterns: hashes and `order!` are unbounded integers. NumPy computes `hashmult` and the hash sum (MiSleep/utils/self_antropy.py:309-314) in int64, which wraps modulo 2^64. From `order` 17 on the true hashes exceed 2^64, so distinct patterns may share a hash there, and `HashInjective` no longer describes the program. `np.log2(factorial(order))` (MiSleep/utils/self_antropy.py:321) of a factorial beyond int64 (`order` 21 or more) is not modelled either.
- AnnotationIo.WriteMiSleepAnno, AnnotationIo.FileLines: no function of the modelled source writes an annotation file. The writer is the model's own, built from the headers the loader searches for and the row formats the section parsers read, so `LoadWritten` and `FindWrittenSections` are round trips against that writer.
- Tally: `np.unique` sorts the hashes, while the model lists them by first occurrence. The counts and probabilities are the same multiset, and only their sum is used.
- The two-dimensional branch of `_embed` (MiSleep/utils/self_antropy.py:357-372), float delays and nested delay lists are left out. Only the one-dimensional, integer-delay path is modelled.
- The spindle shape check (MiSleep/analysis/detection.py:163-164) can never fire and is proved so inside `SpindleDetection`.
- Concurrency and the GUI are outside the modelled core.

## Findings

| source | as written | input that shows it | evidently intended | confidence | as-written member | corrected member |
|---|---|---|---|---|---|---|
| MiSleep/utils/signals.py:116-119 | `crop_state_data` reads `midata.time` and passes `time=` and `describe=` to `MiData`, which has neither | any `MiData` and any annotation: the attribute access raises AttributeError before a result exists | four per-state recordings with the input's channels and frequencies | high, not executed | Signals.CropStateData | Signals.CropStateWhole |
| MiSleep/io/base.py:209 | `pick_chs` rebuilds through the constructor, which recomputes and re-truncates the duration | a 3-sample channel at 2.5 Hz builds as duration 1 with 2 samples; `pick_chs(None)` rebuilds it as duration 0 with no samples | the picked channels keep their samples and the recording keeps its duration | medium, not executed | Base.PickAllLosesSecond | Base.PickKeptSpec |
