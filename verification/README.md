# SERC sound sampler — a Dafny model of its sampling core

The SERC sound sampler is an Android app. It records a short audio clip at a
fixed cadence and tags each clip with the noise sources the user says are
active. It writes one JSON-like metadata line per clip into an hourly log
file. This project models two parts of it as pure functions over immutable
values and proves properties of them:

- **The sampler service** (`SERCSampler`). This covers:
  - the two settings, sample length and sample interval, kept as Longs in a
    preference store (defaults 4 s and 60 s), with their validating setters;
  - the wait between recordings, `(interval − length) × 1000` ms;
  - the serialisation of one capture (`csvOf`, `addEntry`) and the
    zero-padded file names `yyyy_MM_dd_HH.lson` and `yyyy_MM_dd_HH_mm_ss.pcm`;
  - the capture gating: `sample`, `takeSample`, `mark`, `onDestroy`, the
    `isSampling` flag and the permission flag `MultiListener.proceed`.
- **The recent-sources list** (`SourceListKeeper`). Names are kept most
  recent first, and a name is ignored when one already matches it ignoring
  case.

Files and modules:

| file | module | models |
|---|---|---|
| `jvm.dfy` | `Jvm` | nullable values, 64-bit `Long` wrap-around, ASCII `equals(ignoreCase = true)` |
| `date_format.dfy` | `DateFormat` | the two `SimpleDateFormat` patterns, with parsers proving the names decode back |
| `sample_config.dfy` | `SampleConfig` | `getSampleSecond*`, `setSampleSecond*`, the loop's gap |
| `metadata_log.dfy` | `MetadataLog` | `csvOf`, the record line, `getMappingFile`, `addEntry`, and a reader for the line |
| `sampler.dfy` | `Sampler` | the sampler state, `sample` split into begin and finish, `takeSample`, `mark`, `onDestroy`, the loop, `MultiListener` |
| `source_list_keeper.dfy` | `SourceListKeeper` | `add`, `contains`, `list`, `getCount`, `getItem`, `clear` |

The sampler state is `State(prefs, sources, isSampling, listener, logs,
recordings)`. `logs` maps each log file name to the sequence of texts
appended to it. `recordings` is the set of `.pcm` names written. The things
the code takes from the platform are inputs of each capture (`Capture`):

- the clock reading used for the recording name;
- the later clock reading used for the log name (the code reads `Date()`
  twice, once before and once after recording, so a capture near the end of
  an hour is logged in the next hour's file);
- the order in which the `HashSet` of labels is iterated;
- the location, as two printed strings;
- what the recorder and the file system do: throw while the recorder is
  built, throw while recording, throw while the log is opened, or complete.
  A write error after the log is open throws nothing (see "## Left out"),
  so it falls under "complete".

Three behaviours of the code shape what the model states:

- **The loop does not consult the guard.** Only `takeSample` checks
  `isSampling` (`SERCSampler.kt:150`); the periodic loop calls `sample`
  directly (`SERCSampler.kt:53`). A loop pass during a capture started by
  `mark` therefore records again, and it lowers the flag while the first
  capture is still running (`Sampler.LoopTickIgnoresGuard`).
- **Labels are read live.** `sample` passes the live `sources` set to
  `addEntry` after the recording ends (`SERCSampler.kt:103`). This is how
  the code marks "the current sample" with the sources sent to `mark`, as
  the comments on `sample` and `mark` describe (`SERCSampler.kt:86-88`,
  `SERCSampler.kt:116-118`): a `mark` made during a capture relabels that
  capture (`Sampler.MarkDuringCaptureRelabels`).
- **No escaping.** The log line does not escape labels. A label containing
  `","` is logged exactly like two labels (`MetadataLog.CsvOfConflatesQuotedLabel`).
  Newlines are not escaped either, so a label containing `'\n'` splits a
  record across two lines. The round trip is proved for text without double
  quotes, and the one-line property for text without newlines.

## Model

| member | source | states |
|---|---|---|
| SampleConfig.DefaultsWhenUnset | SERCSoundSampler/app/src/main/java/edu/mtu/sercsoundsampler/services/SERCSampler.kt:126-132 | with neither key stored, length reads 4 and interval 60, and that pair is a valid configuration (0 < length < interval) |
| SampleConfig.StoredSettingsReadBack | SERCSoundSampler/app/src/main/java/edu/mtu/sercsoundsampler/services/SERCSampler.kt:126-132 | `getSampleSecondLength` and `getSampleSecondInterval` read back exactly the value last stored under their own key, and a write under any other key leaves both as they were |
| SampleConfig.SetSampleSecondLength | SERCSoundSampler/app/src/main/java/edu/mtu/sercsoundsampler/services/SERCSampler.kt:134-137 | the length becomes `len` when 0 < len < current interval; otherwise the store is returned unchanged; the interval and every other key are never touched |
| SampleConfig.SetLengthKeepsOrder | SERCSoundSampler/app/src/main/java/edu/mtu/sercsoundsampler/services/SERCSampler.kt:134-137 | whatever value is offered, `length < interval` and full validity survive a length update |
| SampleConfig.SetLengthRejectsInterval | SERCSoundSampler/app/src/main/java/edu/mtu/sercsoundsampler/services/SERCSampler.kt:135 | offering a length equal to the current interval changes nothing |
| SampleConfig.SetSampleSecondInterval | SERCSoundSampler/app/src/main/java/edu/mtu/sercsoundsampler/services/SERCSampler.kt:138-142 | the interval becomes `i` exactly when i > 0; the length becomes `interval − 1` exactly when it was not below the resulting interval, and is otherwise kept; afterwards length < interval unless the interval is LONG_MIN; keys other than the two settings are untouched |
| SampleConfig.ClampExample | SERCSoundSampler/app/src/main/java/edu/mtu/sercsoundsampler/services/SERCSampler.kt:134-142 | from defaults, length 10 then interval 5 leaves length 4 and interval 5 |
| SampleConfig.IntervalOneZeroesLength | SERCSoundSampler/app/src/main/java/edu/mtu/sercsoundsampler/services/SERCSampler.kt:138-142 | from any valid configuration, interval 1 is accepted and drives the length to 0, which breaks validity; the loop then waits 1000 ms and asks the recorder for 0 s |
| SampleConfig.MinLongIntervalWraps | SERCSoundSampler/app/src/main/java/edu/mtu/sercsoundsampler/services/SERCSampler.kt:140-141 | with LONG_MIN stored as interval and a rejected new value, `interval − 1` wraps to LONG_MAX and the length ends above the interval |
| SampleConfig.SetSampleSecondIntervalGuarded | SERCSoundSampler/app/src/main/java/edu/mtu/sercsoundsampler/services/SERCSampler.kt:138-142 | corrected setter: intervals below 2 are rejected, and every valid configuration stays valid with the same clamping rule |
| SampleConfig.GapMillis | SERCSoundSampler/app/src/main/java/edu/mtu/sercsoundsampler/services/SERCSampler.kt:52 | whenever length < interval and the gap fits a Long in milliseconds, the wait is positive, a whole number of seconds, and wait/1000 + length equals the interval |
| SampleConfig.HugeIntervalGapWraps | SERCSoundSampler/app/src/main/java/edu/mtu/sercsoundsampler/services/SERCSampler.kt:52 | a valid configuration with interval LONG_MAX makes the Long product wrap to a negative wait |
| Sampler.LoopIteration | SERCSoundSampler/app/src/main/java/edu/mtu/sercsoundsampler/services/SERCSampler.kt:49-56 | one loop pass asks for `length` seconds; whenever length < interval it waits a positive time such that wait plus capture fill exactly one interval (within the Long bound); it leaves settings and labels alone with the flag down |
| Sampler.PerformSampling | SERCSoundSampler/app/src/main/java/edu/mtu/sercsoundsampler/services/SERCSampler.kt:49-56 | over any number of passes: every wait is the same gap; settings, labels and listener never change; without permission no file is written; every new recording is named after one of the passes' start times |
| DateFormat.PadRoundTrip | SERCSoundSampler/app/src/main/java/edu/mtu/sercsoundsampler/services/SERCSampler.kt:59 | a zero-padded numeric field reads back as the number printed, whatever the width |
| DateFormat.LogFileNameRoundTrip | SERCSoundSampler/app/src/main/java/edu/mtu/sercsoundsampler/services/SERCSampler.kt:59-60 | `LogFileName`, the `yyyy_MM_dd_HH.lson` name, is 18 characters and parses back to exactly the hour of the date (four-digit years) |
| DateFormat.RecordingNameRoundTrip | SERCSoundSampler/app/src/main/java/edu/mtu/sercsoundsampler/services/SERCSampler.kt:98-99 | `RecordingName`, the `yyyy_MM_dd_HH_mm_ss.pcm` name, is 23 characters and parses back to exactly the date-time (four-digit years) |
| DateFormat.SameLogFileIffSameHour | SERCSoundSampler/app/src/main/java/edu/mtu/sercsoundsampler/services/SERCSampler.kt:58-63 | two captures share a log file if and only if they fall in the same hour |
| DateFormat.SameRecordingIffSameSecond | SERCSoundSampler/app/src/main/java/edu/mtu/sercsoundsampler/services/SERCSampler.kt:98-101 | two recordings get the same file name if and only if they start in the same second |
| DateFormat.RecordingSharesHourStamp | SERCSoundSampler/app/src/main/java/edu/mtu/sercsoundsampler/services/SERCSampler.kt:59 | a recording's name and the log name for the same instant begin with the same hour stamp |
| MetadataLog.CsvOf | SERCSoundSampler/app/src/main/java/edu/mtu/sercsoundsampler/services/SERCSampler.kt:80-84 | empty exactly for no labels; otherwise it begins and ends with a double quote, so no comma leads or trails |
| MetadataLog.CsvOfIsJoin | SERCSoundSampler/app/src/main/java/edu/mtu/sercsoundsampler/services/SERCSampler.kt:80-84 | building `,"a","b"` and dropping the first character equals joining the quoted labels with single commas |
| MetadataLog.ParseLabelsOfCsv | SERCSoundSampler/app/src/main/java/edu/mtu/sercsoundsampler/services/SERCSampler.kt:69-71 | `[` csvOf `]` reads back to exactly the labels, in order, whatever follows (labels without double quotes) |
| MetadataLog.CsvOfConflatesQuotedLabel | SERCSoundSampler/app/src/main/java/edu/mtu/sercsoundsampler/services/SERCSampler.kt:82 | the label `a","b` serialises exactly like the two labels `a` and `b` |
| MetadataLog.RecordRoundTrip | SERCSoundSampler/app/src/main/java/edu/mtu/sercsoundsampler/services/SERCSampler.kt:67-75 | when no field (file name, label, latitude, longitude) contains a double quote, `Record`, the `{"file":…,"srcs":[…],"lat":…,"lng":…}` line, reads back to exactly the file name, labels and coordinates written |
| MetadataLog.RecordIsOneLine | SERCSoundSampler/app/src/main/java/edu/mtu/sercsoundsampler/services/SERCSampler.kt:67-76 | when no field (file name, label, latitude, longitude) contains a newline, each write is one complete line: it ends with the only newline it contains |
| MetadataLog.GetMappingFile | SERCSoundSampler/app/src/main/java/edu/mtu/sercsoundsampler/services/SERCSampler.kt:58-64 | the returned file is the hour's `.lson` name and exists afterwards; an existing file keeps its content, a missing one starts empty; no other file changes |
| MetadataLog.AddEntry | SERCSoundSampler/app/src/main/java/edu/mtu/sercsoundsampler/services/SERCSampler.kt:65-78 | in append mode: the hour's file grows by exactly one write, the record; its earlier writes are a preserved prefix; other files are unchanged |
| MetadataLog.AddEntryAppendsReadableLine | SERCSoundSampler/app/src/main/java/edu/mtu/sercsoundsampler/services/SERCSampler.kt:65-78 | for an entry none of whose fields contains a double quote: after `addEntry` the hour's log is its old content plus one line that reads back as the entry, and every other file is as before |
| Sampler.NewMultiListener | SERCSoundSampler/app/src/main/java/edu/mtu/sercsoundsampler/services/SERCSampler.kt:174-175 | permission starts withheld |
| Sampler.OnPermissionsChecked | SERCSoundSampler/app/src/main/java/edu/mtu/sercsoundsampler/services/SERCSampler.kt:176 | any completed permission check, whatever its report, lets recording proceed |
| Sampler.OnPermissionRationaleShouldBeShown | SERCSoundSampler/app/src/main/java/edu/mtu/sercsoundsampler/services/SERCSampler.kt:177-178 | showing a rationale leaves the permission flag as it was |
| Sampler.PermissionLifecycle | SERCSoundSampler/app/src/main/java/edu/mtu/sercsoundsampler/services/SERCSampler.kt:174-178 | `proceed` is false at first and true after any check, and a later rationale does not undo it |
| Sampler.NewSampler | SERCSoundSampler/app/src/main/java/edu/mtu/sercsoundsampler/services/SERCSampler.kt:30-47 | a new sampler has no labels; it inherits the process-wide `isSampling` flag as it stands, and keeps the given settings, listener, logs and recordings |
| Sampler.BeginSample | SERCSoundSampler/app/src/main/java/edu/mtu/sercsoundsampler/services/SERCSampler.kt:94 | a capture raises the in-flight flag before anything else, and changes nothing else: settings, labels, listener, logs and recordings are as before |
| Sampler.FinishSample | SERCSoundSampler/app/src/main/java/edu/mtu/sercsoundsampler/services/SERCSampler.kt:95-113 | the flag is down on every path; without permission, or when building or running the recorder throws, no file changes; with permission a written recording adds its `.pcm` name; only a completed capture touches the log, appending one record of the live labels to the hour's file |
| Sampler.Sample | SERCSoundSampler/app/src/main/java/edu/mtu/sercsoundsampler/services/SERCSampler.kt:89-114 | one capture leaves the flag down, settings and labels unchanged; without permission no recording and no log line; any failure leaves the log unchanged; a completed permitted capture adds the `.pcm` recording and exactly one log line |
| Sampler.SampleLogsLiveSources | SERCSoundSampler/app/src/main/java/edu/mtu/sercsoundsampler/services/SERCSampler.kt:97-103 | when no label and neither coordinate contains a double quote, the line a completed capture appends reads back as the `.pcm` name, exactly the current label set, and the location |
| Sampler.TakeSample | SERCSoundSampler/app/src/main/java/edu/mtu/sercsoundsampler/services/SERCSampler.kt:149-153 | with a capture in flight nothing changes; otherwise a full capture runs; either way the flag ends as it began |
| Sampler.TakeSampleDuringCaptureIsNoOp | SERCSoundSampler/app/src/main/java/edu/mtu/sercsoundsampler/services/SERCSampler.kt:149-153 | a manual trigger during an in-flight capture is a no-op, so back-to-back triggers cannot both record |
| Sampler.LoopTickIgnoresGuard | SERCSoundSampler/app/src/main/java/edu/mtu/sercsoundsampler/services/SERCSampler.kt:51-53 | a loop pass during an in-flight capture records exactly as if none were in flight, and lowers the flag early |
| Sampler.Mark | SERCSoundSampler/app/src/main/java/edu/mtu/sercsoundsampler/services/SERCSampler.kt:120-124 | afterwards the labels are exactly the given set; during a capture nothing else changes; otherwise a capture runs with the new labels |
| Sampler.MarkDuringCaptureRelabels | SERCSoundSampler/app/src/main/java/edu/mtu/sercsoundsampler/services/SERCSampler.kt:103 | a `mark` during a capture starts none, and the in-flight capture's log line carries the new labels, not those live when it began |
| Sampler.OnDestroy | SERCSoundSampler/app/src/main/java/edu/mtu/sercsoundsampler/services/SERCSampler.kt:147 | the labels end empty; if this triggers a completed capture, its record lists no sources |
| Sampler.OnDestroyLogsNoLabels | SERCSoundSampler/app/src/main/java/edu/mtu/sercsoundsampler/services/SERCSampler.kt:147 | the capture triggered by `onDestroy` logs `"srcs":[]`, reading back as an empty label list rather than one empty label |
| SourceListKeeper.ListReadsStore | SERCSoundSampler/app/src/main/java/edu/mtu/sercsoundsampler/model/SourceListKeeper.kt:29-31 | `list()` is exactly the list last stored under the list key (empty when none), unaffected by other keys, and `getCount()` is its length |
| SourceListKeeper.CountZeroIffNothingContained | SERCSoundSampler/app/src/main/java/edu/mtu/sercsoundsampler/model/SourceListKeeper.kt:17-19 | `getCount()` is 0 if and only if no name at all is contained |
| SourceListKeeper.AnyEqualIgnoreCase | SERCSoundSampler/app/src/main/java/edu/mtu/sercsoundsampler/model/SourceListKeeper.kt:26 | the scan is true if and only if some entry equals the name ignoring case |
| SourceListKeeper.Contains | SERCSoundSampler/app/src/main/java/edu/mtu/sercsoundsampler/model/SourceListKeeper.kt:24-28 | true if and only if some stored entry equals the name ignoring case |
| SourceListKeeper.Add | SERCSoundSampler/app/src/main/java/edu/mtu/sercsoundsampler/model/SourceListKeeper.kt:9-16 | with no case-insensitive match the name lands at index 0 and every old entry moves up by one in order; with a match the store is unchanged; other keys are never touched; afterwards the name is contained |
| SourceListKeeper.AddPreservesUnique | SERCSoundSampler/app/src/main/java/edu/mtu/sercsoundsampler/model/SourceListKeeper.kt:9-16 | if no two entries are equal ignoring case before an `add`, none are after it |
| SourceListKeeper.AddCount | SERCSoundSampler/app/src/main/java/edu/mtu/sercsoundsampler/model/SourceListKeeper.kt:9-19 | the count grows by one exactly when the name was not contained, and never by more |
| SourceListKeeper.AddIdempotent | SERCSoundSampler/app/src/main/java/edu/mtu/sercsoundsampler/model/SourceListKeeper.kt:9-16 | adding a name and then any case variant of it equals adding it once |
| SourceListKeeper.GetItem | SERCSoundSampler/app/src/main/java/edu/mtu/sercsoundsampler/model/SourceListKeeper.kt:20-23 | non-null exactly for 0 ≤ i < count, and then the entry at i |
| SourceListKeeper.GetItemAfterAdd | SERCSoundSampler/app/src/main/java/edu/mtu/sercsoundsampler/model/SourceListKeeper.kt:9-23 | after adding a new name, item 0 is that name and item i+1 is the old item i |
| SourceListKeeper.Clear | SERCSoundSampler/app/src/main/java/edu/mtu/sercsoundsampler/model/SourceListKeeper.kt:32-34 | afterwards the list is empty, the count is 0, and no name is contained |
| SourceListKeeper.AddAfterClear | SERCSoundSampler/app/src/androidTest/java/edu/mtu/sercsoundsampler/TestSourceListKeeper.kt:38-41 | after `clearAll`, any first name is accepted and is the whole list |
| SourceListKeeper.PreserveOrderExample | SERCSoundSampler/app/src/androidTest/java/edu/mtu/sercsoundsampler/TestSourceListKeeper.kt:50-56 | adding C, B, A to a cleared store lists A, B, C |
| SourceListKeeper.IgnoreDuplicateAddExample | SERCSoundSampler/app/src/androidTest/java/edu/mtu/sercsoundsampler/TestSourceListKeeper.kt:43-48 | adding Fan, Fan, Lawnmower to a cleared store leaves two entries |

## Left out

- Timing and concurrency: the `GlobalScope.launch` coroutine, real `delay`
  timing and any race between threads. Interleavings are expressed only as
  sequential steps (`BeginSample`, `FinishSample`) around the explicit flag.
- The loop runs while `enableSampling` is set, and nothing in `SERCSampler`
  clears it. `PerformSampling` models any finite prefix of its passes, which
  covers both a loop that never ends and one stopped from outside.
- `MyRecorder`, `AudioRecord` and `AudioFormat` are Android foreign calls.
  A capture's outcome is an input. The recorded bytes are not modelled, only
  the recording's name. The Int arithmetic of the buffer size
  (`length.toInt() * 44100`) is not modelled either.
- A failure inside `writeBytes` may leave a partial `.pcm` file. Likewise a
  failure between `createNewFile` and opening the stream may leave an empty
  log file. Both are modelled as leaving no file.
- `addEntry` writes through a `PrintWriter`, which swallows every I/O error
  from `append`, `flush` and `close` and only sets an error flag nobody
  reads. A write that fails after the log is opened may therefore leave a
  missing or partial line while `sample` returns normally. The model treats
  it as a complete append, so `MetadataLog.AddEntry` and
  `MetadataLog.RecordIsOneLine` describe a write that succeeds.
- The Dexter permission flow: only the `proceed` flag is kept.
- Location: the code builds a fresh `Location("me")` for each capture and
  never fills it in. Its printed latitude and longitude are inputs here.
  `Double.toString` is platform behaviour.
- The clock and `SimpleDateFormat`: date fields are inputs, and digits are
  ASCII. The name round trips are proved for four-digit years.
- `SharedPreferences` and the preference helpers are not part of this model.
  They are plain maps. A list never stored reads as empty.
  `preserveLong` writes the same store `getLong` reads. The sampler's
  settings and the source list are kept in separate maps.
- `HashSet` iteration order is an input sequence that lists every label once.
- Case folding covers ASCII letters only, not Unicode case folding.
- `adapter?.notifyDataSetChanged()` (UI) and all `Log` calls.
- SampleConfig.GapMillis: the wait is proved positive only when `interval − length` is at most LONG_MAX / 1000 seconds, not for every length < interval. Above that bound the Long product wraps (`SampleConfig.HugeIntervalGapWraps`).
- SampleConfig.SetSampleSecondInterval: `length < interval` is guaranteed only when the resulting interval is not LONG_MIN. At LONG_MIN, `interval − 1` wraps (`SampleConfig.MinLongIntervalWraps`).
- Sampler.Mark: `srcs` is taken as a value, distinct from the sampler's own
  label set. `mark` runs `sources.clear()` before `sources.addAll(srcs)`, so
  a caller that passes `sources` itself ends with no labels, and the capture
  it triggers logs `"srcs":[]`; the contract `r.sources == srcs` does not
  cover that aliasing call.
- Sampler.OnDestroy: the public mutable `emptySet` is assumed never to be
  modified, so `onDestroy` always marks with the empty set.
- Sampler.LoopIteration: the wait is positive and fills the interval only under the same Long bound as `SampleConfig.GapMillis`.

## Findings

| source | as written | input that shows it | evidently intended | confidence | as-written member | corrected member |
|---|---|---|---|---|---|---|
| SERCSoundSampler/app/src/main/java/edu/mtu/sercsoundsampler/services/SERCSampler.kt:138-142 | any positive interval is accepted, and the length is clamped to `interval − 1` | defaults (length 4, interval 60), then `setSampleSecondInterval(1)`: the length becomes 0, a value `setSampleSecondLength` would refuse; the recorder is then sized for 0 seconds | the length stays positive, so intervals below 2 are rejected | medium; not executed | SampleConfig.IntervalOneZeroesLength | SampleConfig.SetSampleSecondIntervalGuarded |
