/** The sampling service: a loop that waits the gap between recordings and
    then captures one, plus the foreground entry points `mark`, `takeSample`
    and `onDestroy`. Its state is an immutable record and every entry point
    a pure transition. The clock, the recorder, the set iteration order and
    the location are per-capture inputs (`Capture`).

    Two behaviours of the code are stated explicitly:
    - the periodic loop calls `sample` directly, so it does not consult
      the `isSampling` guard that `takeSample` checks;
    - `sample` logs the live label set as it is when the recording ends,
      so a `mark` made while a capture is in flight labels that capture,
      as `mark`'s own comment describes.
    `BeginSample` and `FinishSample` split one capture so that such
    interleavings can be stated. */
module Sampler {
  import opened Jvm
  import opened DateFormat
  import opened SampleConfig
  import opened MetadataLog

  /** The permission listener; `proceed` is the only state it keeps. */
  datatype MultiListener = MultiListener(proceed: bool)

  function NewMultiListener(): (m: MultiListener)
    ensures !m.proceed
  {
    MultiListener(false)
  }

  /** Any completed permission check lets recording proceed, whatever it reported. */
  function OnPermissionsChecked(m: MultiListener): (r: MultiListener)
    ensures r.proceed
  {
    MultiListener(true)
  }

  function OnPermissionRationaleShouldBeShown(m: MultiListener): (r: MultiListener)
    ensures r.proceed == m.proceed
  {
    m
  }

  /** What the recorder and the file system do during one capture. */
  datatype Outcome =
    | RecorderUnavailable   // building the recorder throws; this precedes the permission check
    | RecordingFailed       // the recorder throws before the recording file is written
    | LogWriteFailed        // the recording is written; opening the log throws
    | Completed             // recording written, then one log line appended
                            // (a write error after the log is open is swallowed
                            // by the writer and so also ends here)

  datatype Location = Location(latitude: string, longitude: string)

  /** The inputs of one capture: the clock read for the recording name, the
      clock read later for the log name, the order in which the label set is
      iterated, the location and the outcome of the foreign calls. */
  datatype Capture = Capture(startedAt: DateTime, loggedAt: DateTime, order: seq<string>,
                             location: Location, outcome: Outcome)

  /** The sampler: preferences, the live label set, the process-wide
      `isSampling` flag, the permission listener, and the files written
      (log contents, and the names of the recordings). */
  datatype State = State(prefs: Prefs, sources: set<string>, isSampling: bool,
                         listener: MultiListener, logs: Logs, recordings: set<string>)

  /** `order` lists every element of `labels` exactly once. */
  predicate Enumerates(order: seq<string>, labels: set<string>) {
    && (forall i :: 0 <= i < |order| ==> order[i] in labels)
    && (forall x :: x in labels ==> x in order)
    && (forall i, j :: 0 <= i < j < |order| ==> order[i] != order[j])
  }

  /** A freshly constructed sampler: no labels yet. `isSampling` lives in the
      companion object, so a new sampler inherits whatever value it has in
      the process (`sampling`), as it inherits the stores and files. */
  function NewSampler(prefs: Prefs, listener: MultiListener, logs: Logs, recordings: set<string>,
                      sampling: bool): (r: State)
    ensures r.sources == {}
    ensures r.isSampling == sampling
    ensures r.prefs == prefs && r.listener == listener && r.logs == logs && r.recordings == recordings
  {
    State(prefs, {}, sampling, listener, logs, recordings)
  }

  /** The entry the capture logs: the recording's name, the labels in their
      iteration order, and the location. */
  function EntryOf(c: Capture): Entry {
    Entry(RecordingName(c.startedAt), c.order, c.location.latitude, c.location.longitude)
  }

  /** The first step of `sample`: the flag goes up and nothing else changes. */
  function BeginSample(st: State): (r: State)
    ensures r.isSampling
    ensures r.prefs == st.prefs && r.sources == st.sources && r.listener == st.listener
    ensures r.logs == st.logs && r.recordings == st.recordings
  {
    st.(isSampling := true)
  }

  /** The rest of `sample`: with permission, record and then log the live
      label set; any exception leaves the log untouched; the flag always
      comes down. */
  function FinishSample(st: State, c: Capture): (r: State)
    requires Enumerates(c.order, st.sources)
    ensures !r.isSampling
    ensures r.prefs == st.prefs && r.sources == st.sources && r.listener == st.listener
    ensures !st.listener.proceed || c.outcome.RecorderUnavailable? || c.outcome.RecordingFailed? ==>
              r.logs == st.logs && r.recordings == st.recordings
    ensures st.listener.proceed && (c.outcome.LogWriteFailed? || c.outcome.Completed?) ==>
              r.recordings == st.recordings + {RecordingName(c.startedAt)}
    ensures !(st.listener.proceed && c.outcome.Completed?) ==> r.logs == st.logs
    ensures st.listener.proceed && c.outcome.Completed? ==>
              && LogFileName(c.loggedAt) in r.logs
              && r.logs - {LogFileName(c.loggedAt)} == st.logs - {LogFileName(c.loggedAt)}
              && r.logs[LogFileName(c.loggedAt)] == Existing(st.logs, LogFileName(c.loggedAt)) + [Record(EntryOf(c))]
  {
    var done :=
      if c.outcome.RecorderUnavailable? || !st.listener.proceed || c.outcome.RecordingFailed? then st
      else
        var recorded := st.(recordings := st.recordings + {RecordingName(c.startedAt)});
        if c.outcome.LogWriteFailed? then recorded
        else recorded.(logs := AddEntry(st.logs, c.loggedAt, EntryOf(c)));
    done.(isSampling := false)
  }

  /** `sample`: one whole capture. */
  function Sample(st: State, c: Capture): (r: State)
    requires Enumerates(c.order, st.sources)
    ensures !r.isSampling
    ensures r.prefs == st.prefs && r.sources == st.sources && r.listener == st.listener
    ensures !st.listener.proceed ==> r.logs == st.logs && r.recordings == st.recordings
    ensures !c.outcome.Completed? ==> r.logs == st.logs
    ensures st.listener.proceed && c.outcome.Completed? ==>
              && RecordingName(c.startedAt) in r.recordings
              && LogFileName(c.loggedAt) in r.logs
              && r.logs - {LogFileName(c.loggedAt)} == st.logs - {LogFileName(c.loggedAt)}
              && r.logs[LogFileName(c.loggedAt)] == Existing(st.logs, LogFileName(c.loggedAt)) + [Record(EntryOf(c))]
  {
    FinishSample(BeginSample(st), c)
  }

  /** `takeSample`: a capture unless one is already in flight. */
  function TakeSample(st: State, c: Capture): (r: State)
    requires !st.isSampling ==> Enumerates(c.order, st.sources)
    ensures st.isSampling ==> r == st
    ensures !st.isSampling ==> r == Sample(st, c)
    ensures r.isSampling == st.isSampling
  {
    if !st.isSampling then Sample(st, c) else st
  }

  /** `mark(srcs)`: the live label set becomes exactly `srcs`, then `takeSample`. */
  function Mark(st: State, srcs: set<string>, c: Capture): (r: State)
    requires !st.isSampling ==> Enumerates(c.order, srcs)
    ensures r.sources == srcs
    ensures st.isSampling ==> r == st.(sources := srcs)
    ensures !st.isSampling ==> r == Sample(st.(sources := srcs), c)
  {
    var marked := st.(sources := srcs);
    TakeSample(marked, c)
  }

  /** `onDestroy`: mark with the empty set, so any later capture carries no labels. */
  function OnDestroy(st: State, c: Capture): (r: State)
    requires !st.isSampling ==> c.order == []
    ensures r.sources == {}
    ensures !st.isSampling && st.listener.proceed && c.outcome.Completed? ==>
              && LogFileName(c.loggedAt) in r.logs
              && r.logs[LogFileName(c.loggedAt)] == Existing(st.logs, LogFileName(c.loggedAt))
                   + [Record(Entry(RecordingName(c.startedAt), [], c.location.latitude, c.location.longitude))]
  {
    Mark(st, {}, c)
  }

  /** One pass of the loop in `performSampling`: how long it waits, how many
      seconds it asks the recorder for, and the state after `sample`. */
  datatype Tick = Tick(delayMillis: Long, captureSeconds: Long, next: State)

  function LoopIteration(st: State, c: Capture): (t: Tick)
    requires Enumerates(c.order, st.sources)
    ensures t.captureSeconds == GetSampleSecondLength(st.prefs)
    ensures GetSampleSecondLength(st.prefs) < GetSampleSecondInterval(st.prefs)
              && GetSampleSecondInterval(st.prefs) - GetSampleSecondLength(st.prefs) <= LONG_MAX / 1000 ==>
              t.delayMillis > 0 && t.delayMillis / 1000 + t.captureSeconds == GetSampleSecondInterval(st.prefs)
    ensures !t.next.isSampling && t.next.prefs == st.prefs && t.next.sources == st.sources
  {
    Tick(GapMillis(st.prefs), GetSampleSecondLength(st.prefs), Sample(st, c))
  }

  /** The first `|captures|` passes of the (never-ending) loop. */
  method PerformSampling(st: State, captures: seq<Capture>) returns (delays: seq<Long>, final: State)
    requires forall k :: 0 <= k < |captures| ==> Enumerates(captures[k].order, st.sources)
    ensures |delays| == |captures|
    ensures forall k :: 0 <= k < |delays| ==> delays[k] == GapMillis(st.prefs)
    ensures final.prefs == st.prefs && final.sources == st.sources && final.listener == st.listener
    ensures |captures| > 0 ==> !final.isSampling
    ensures !st.listener.proceed ==> final.logs == st.logs && final.recordings == st.recordings
    ensures forall f :: f in final.recordings ==>
              f in st.recordings || exists k :: 0 <= k < |captures| && f == RecordingName(captures[k].startedAt)
  {
    delays := [];
    final := st;
    var k := 0;
    while k < |captures|
      invariant 0 <= k <= |captures|
      invariant |delays| == k
      invariant forall i :: 0 <= i < k ==> delays[i] == GapMillis(st.prefs)
      invariant final.prefs == st.prefs && final.sources == st.sources && final.listener == st.listener
      invariant k > 0 ==> !final.isSampling
      invariant !st.listener.proceed ==> final.logs == st.logs && final.recordings == st.recordings
      invariant forall f :: f in final.recordings ==>
                  f in st.recordings || exists i :: 0 <= i < k && f == RecordingName(captures[i].startedAt)
    {
      var tick := LoopIteration(final, captures[k]);
      delays := delays + [tick.delayMillis];
      final := tick.next;
      k := k + 1;
    }
  }

  // ---------------------------------------------------------------------
  // Properties
  // ---------------------------------------------------------------------

  /** Permission starts withheld, and any completed check grants it for good. */
  lemma PermissionLifecycle(m: MultiListener)
    ensures !NewMultiListener().proceed
    ensures OnPermissionRationaleShouldBeShown(OnPermissionsChecked(m)).proceed
  {
  }

  /** A manual trigger while a capture is in flight changes nothing. */
  lemma TakeSampleDuringCaptureIsNoOp(st: State, c: Capture)
    ensures TakeSample(BeginSample(st), c) == BeginSample(st)
  {
  }

  /** As written, a loop pass during an in-flight capture still captures
      (the same as with no capture in flight), and lowers the flag while the
      first capture is still running. */
  lemma LoopTickIgnoresGuard(st: State, c: Capture)
    requires Enumerates(c.order, st.sources)
    requires st.listener.proceed && c.outcome.Completed?
    ensures LoopIteration(BeginSample(st), c).next == LoopIteration(st, c).next
    ensures !LoopIteration(BeginSample(st), c).next.isSampling
    ensures RecordingName(c.startedAt) in LoopIteration(BeginSample(st), c).next.recordings
  {
  }

  /** Recording names never contain a double quote. */
  lemma RecordingNameUnquoted(d: DateTime)
    ensures '"' !in RecordingName(d)
  {
    var y, mo, dd, h, mi, s := Pad(d.year, 4), Pad(d.month, 2), Pad(d.day, 2), Pad(d.hour, 2),
                               Pad(d.minute, 2), Pad(d.second, 2);
    assert '"' !in y && '"' !in mo && '"' !in dd && '"' !in h && '"' !in mi && '"' !in s;
  }

  /** A completed capture appends one line to the log of the hour it ended
      in; that line reads back as the recording's `.pcm` name, the labels
      live at the end of the capture, and the location. */
  lemma SampleLogsLiveSources(st: State, c: Capture)
    requires Enumerates(c.order, st.sources)
    requires st.listener.proceed && c.outcome.Completed?
    requires forall x :: x in st.sources ==> '"' !in x
    requires '"' !in c.location.latitude && '"' !in c.location.longitude
    ensures var lines := Sample(st, c).logs[LogFileName(c.loggedAt)];
            var e := ParseRecord(lines[|lines| - 1]);
            && e.Some?
            && e.value.file == RecordingName(c.startedAt)
            && (forall x :: x in e.value.srcs <==> x in st.sources)
            && e.value.lat == c.location.latitude && e.value.lng == c.location.longitude
  {
    RecordingNameUnquoted(c.startedAt);
    RecordRoundTrip(EntryOf(c));
  }

  /** As written, `mark` while a capture is in flight does not start a
      capture, but the capture in flight logs the new labels, not those
      live when it began. */
  lemma MarkDuringCaptureRelabels(st: State, srcs: set<string>, c1: Capture, c2: Capture)
    requires Enumerates(c2.order, srcs)
    requires st.listener.proceed && c2.outcome.Completed?
    requires forall x :: x in srcs ==> '"' !in x
    requires '"' !in c2.location.latitude && '"' !in c2.location.longitude
    ensures Mark(BeginSample(st), srcs, c1) == BeginSample(st).(sources := srcs)
    ensures var r := FinishSample(Mark(BeginSample(st), srcs, c1), c2);
            var lines := r.logs[LogFileName(c2.loggedAt)];
            var e := ParseRecord(lines[|lines| - 1]);
            e.Some? && forall x :: x in e.value.srcs <==> x in srcs
  {
    RecordingNameUnquoted(c2.startedAt);
    RecordRoundTrip(EntryOf(c2));
  }

  /** After `onDestroy` a completed capture logs `"srcs":[]`: the empty set
      prints as an empty list, not as one empty label. */
  lemma OnDestroyLogsNoLabels(st: State, c: Capture)
    requires !st.isSampling && c.order == []
    requires st.listener.proceed && c.outcome.Completed?
    requires '"' !in c.location.latitude && '"' !in c.location.longitude
    ensures var lines := OnDestroy(st, c).logs[LogFileName(c.loggedAt)];
            ParseRecord(lines[|lines| - 1]) == Some(Entry(RecordingName(c.startedAt), [], c.location.latitude, c.location.longitude))
  {
    RecordingNameUnquoted(c.startedAt);
    RecordRoundTrip(EntryOf(c));
  }
}
