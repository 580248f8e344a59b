/** A campaign directory as it is written trial by trial, and as recovery rewrites it. */
module CampaignDirectory {
  import opened Prelude
  import opened Bytes
  import opened Json
  import opened Journal
  import opened Recovery
  import opened RecoveryProofs

  // ---------------------------------------------------------------- one trial

  /** What the parent process knows of a trial; `ran` when the process ended by itself with status zero. */
  datatype Trial = Trial(ran: bool, pid: Json, exitCode: Json, startedNs: Json, elapsedMs: Json, error: string)

  predicate UsableMeasurement(m: Json) {
    && m.Obj? && At(m, "successful").Bool? && FiniteMetrics(At(m, "metrics"))
    && (Successful(m) ==> At(m, "metrics").fields != map[])
  }

  function FailedTrial(error: string): Json {
    Obj(map["successful" := Bool(false), "metrics" := Obj(map[]), "evidence" := Str("failed-trial"),
        "error" := Str(error)])
  }

  /** What the trial measured, or that it failed. */
  function DataOf(f: Files, key: Key, trial: Trial): (data: Json)
    ensures data.Obj?
  {
    match MeasurementOf(f, key)
    case Ok(m) => if trial.ran && UsableMeasurement(m) then m else FailedTrial(trial.error)
    case Err(_) => FailedTrial(trial.error)
  }

  function SlotFields(key: Key): map<string, Json> {
    map["variant" := Str(key.variant), "trial" := Num(key.trial as real, true), "warmup" := Bool(key.trial < 0)]
  }

  function ProcessFields(trial: Trial): map<string, Json> {
    map["workerPID" := trial.pid, "exitCode" := trial.exitCode, "startedNs" := trial.startedNs,
        "elapsedProcessMs" := trial.elapsedMs]
  }

  function RowOfTrial(f: Files, key: Key, trial: Trial): Json {
    Obj(DataOf(f, key, trial).fields + ProcessFields(trial) + SlotFields(key))
  }

  lemma SameMetricsReflexive(metrics: Json)
    requires FiniteMetrics(metrics)
    ensures SameMetrics(metrics, metrics)
  {}

  lemma ProcessFieldNames(trial: Trial)
    ensures "successful" !in ProcessFields(trial) && "metrics" !in ProcessFields(trial)
    ensures ProcessFields(trial).Keys !! MARKERS
  {}

  lemma SlotFieldNames(key: Key)
    ensures "successful" !in SlotFields(key) && "metrics" !in SlotFields(key) && SlotFields(key).Keys !! MARKERS
    ensures "variant" in SlotFields(key) && SlotFields(key)["variant"] == Str(key.variant)
    ensures "trial" in SlotFields(key) && SlotFields(key)["trial"] == Num(key.trial as real, true)
    ensures "warmup" in SlotFields(key) && SlotFields(key)["warmup"] == Bool(key.trial < 0)
  {}

  lemma RowFields(f: Files, key: Key, trial: Trial)
    ensures var row, data := RowOfTrial(f, key, trial), DataOf(f, key, trial);
            && KeyOf(row) == Some(key) && At(row, "warmup") == Bool(key.trial < 0)
            && At(row, "successful") == At(data, "successful") && At(row, "metrics") == At(data, "metrics")
  {
    ProcessFieldNames(trial);
    SlotFieldNames(key);
    assert (key.trial as real).Floor == key.trial;
  }

  lemma DataIsUsable(f: Files, key: Key, trial: Trial)
    ensures UsableMeasurement(DataOf(f, key, trial))
    ensures Successful(DataOf(f, key, trial)) ==> MeasurementOf(f, key) == Ok(DataOf(f, key, trial))
  {}

  /** A row carries a marker name exactly when the data it was made of does. */
  lemma RowIsUnmarked(f: Files, key: Key, trial: Trial)
    ensures Unmarked(RowOfTrial(f, key, trial)) <==> DataOf(f, key, trial).fields.Keys !! MARKERS
  {
    var row, data := RowOfTrial(f, key, trial), DataOf(f, key, trial);
    ProcessFieldNames(trial);
    SlotFieldNames(key);
    assert row.fields.Keys == data.fields.Keys + ProcessFields(trial).Keys + SlotFields(key).Keys;
    if row.fields.Keys !! MARKERS {
      assert row.fields - MARKERS == row.fields;
    } else {
      var name :| name in row.fields.Keys && name in MARKERS;
      assert name in data.fields && name !in Stripped(row).fields;
    }
  }

  /** A measurement that can be used: an object that says whether it succeeded and has numbers to show for it. */
  ghost predicate Measured(f: Files, key: Key, trial: Trial, m: Json) {
    && trial.ran && key in f.measurements && f.codec.dec(f.measurements[key]) == Some(m)
    && m.Obj? && "successful" in m.fields && m.fields["successful"].Bool? && "metrics" in m.fields
    && m.fields["metrics"].Obj?
    && (forall name | name in m.fields["metrics"].fields :: m.fields["metrics"].fields[name].Num?)
    && (m.fields["successful"] == Bool(true) ==> m.fields["metrics"].fields != map[])
  }

  /** The names the parent process fills in. */
  const OWN_NAMES: set<string> := {
    "variant", "trial", "warmup", "workerPID", "exitCode", "startedNs", "elapsedProcessMs" }

  /** The row says which slot and process it was, and has `data` in every other field. */
  ghost predicate RowSays(row: Json, key: Key, trial: Trial, data: map<string, Json>) {
    && row.Obj? && row.fields.Keys == data.Keys + OWN_NAMES
    && row.fields["variant"] == Str(key.variant) && row.fields["trial"] == Num(key.trial as real, true)
    && row.fields["warmup"] == Bool(key.trial < 0)
    && row.fields["workerPID"] == trial.pid && row.fields["exitCode"] == trial.exitCode
    && row.fields["startedNs"] == trial.startedNs && row.fields["elapsedProcessMs"] == trial.elapsedMs
    && forall name | name in data && name !in OWN_NAMES :: row.fields[name] == data[name]
  }

  lemma RowSaysData(f: Files, key: Key, trial: Trial)
    ensures RowSays(RowOfTrial(f, key, trial), key, trial, DataOf(f, key, trial).fields)
  {
    var own := ProcessFields(trial) + SlotFields(key);
    assert own.Keys == OWN_NAMES;
    assert RowOfTrial(f, key, trial).fields == DataOf(f, key, trial).fields + own;
  }

  /**
   The row of a trial is its measurement, or without a usable one the plain statement that the trial
   failed and why.
   */
  lemma RowSaysTrial(f: Files, key: Key, trial: Trial)
    ensures forall m | Measured(f, key, trial, m) :: RowSays(RowOfTrial(f, key, trial), key, trial, m.fields)
    ensures (forall m :: !Measured(f, key, trial, m)) ==>
              RowSays(RowOfTrial(f, key, trial), key, trial,
                      map["successful" := Bool(false), "metrics" := Obj(map[]), "evidence" := Str("failed-trial"),
                          "error" := Str(trial.error)])
  {
    RowSaysData(f, key, trial);
    forall m ensures Measured(f, key, trial, m) <==>
                     trial.ran && MeasurementOf(f, key) == Ok(m) && UsableMeasurement(m) {}
  }

  /** A recorded trial has its durable evidence intact. */
  lemma TrialIsKept(f: Files, key: Key, trial: Trial)
    requires key in f.records && f.codec.dec(f.records[key]) == Some(RowOfTrial(f, key, trial))
    ensures RowIsKept(f, key, RowOfTrial(f, key, trial))
  {
    RowFields(f, key, trial);
    DataIsUsable(f, key, trial);
    SameMetricsReflexive(At(DataOf(f, key, trial), "metrics"));
  }

  lemma RecordedIsKept(f: Files, records: map<Key, seq<byte>>, key: Key, trial: Trial)
    requires Encodes(f.codec, RowOfTrial(f, key, trial))
    requires key in records && records[key] == Line(f.codec, RowOfTrial(f, key, trial))
    ensures RowIsKept(f.(records := records), key, RowOfTrial(f, key, trial))
  {
    var g := f.(records := records);
    assert MeasurementOf(g, key) == MeasurementOf(f, key);
    assert RowOfTrial(g, key, trial) == RowOfTrial(f, key, trial);
    TrialIsKept(g, key, trial);
  }

  // ---------------------------------------------------------------- running a campaign

  /** Where a run may be interrupted within a slot. */
  datatype Crash = Never | BeforeAppend | DuringAppend(written: nat)

  ghost predicate KeptAll(f: Files, records: map<Key, seq<byte>>, keys: seq<Key>, rows: seq<Json>) {
    && |rows| == |keys| && Distinct(keys) && AllEncode(f.codec, rows)
    && forall i | 0 <= i < |rows| :: RowIsKept(f.(records := records), keys[i], rows[i])
  }

  ghost predicate CutOf(c: Codec, rows: seq<Json>, written: nat, journal: seq<byte>) {
    written <= |Text(c, rows)| && journal == Text(c, rows)[..written]
  }

  lemma OneMoreIsKept(f: Files, records: map<Key, seq<byte>>, keys: seq<Key>, rows: seq<Json>, key: Key, row: Json)
    requires KeptAll(f, records, keys, rows) && key !in keys
    requires Encodes(f.codec, row) && RowIsKept(f.(records := records), key, row)
    ensures KeptAll(f, records, keys + [key], rows + [row])
  {}

  lemma CutGoesOn(c: Codec, rows: seq<Json>, row: Json, journal: seq<byte>, n: nat)
    requires CutOf(c, rows, |Text(c, rows)|, journal) && n <= |Line(c, row)|
    ensures CutOf(c, rows + [row], |Text(c, rows)| + n, journal + Line(c, row)[..n])
    ensures |Text(c, rows + [row])| == |Text(c, rows)| + |Line(c, row)|
  {
    TextNext(c, rows, row);
    assert Text(c, rows)[..|Text(c, rows)|] == Text(c, rows);
    assert (Text(c, rows) + Line(c, row))[..|Text(c, rows)| + n] == Text(c, rows) + Line(c, row)[..n];
  }

  class Run {
    const files: Files
    var records: map<Key, seq<byte>>
    var journal: seq<byte>

    /** The rows whose append has begun, and how much of them is on disk. */
    ghost var rows: seq<Json>
    ghost var keys: seq<Key>
    ghost var written: nat

    /** Every row the journal has begun is already durable on its own. */
    ghost predicate Valid()
      reads this
    {
      KeptAll(files, records, keys, rows) && CutOf(files.codec, rows, written, journal)
    }

    ghost predicate Whole()
      reads this
    {
      written == |Text(files.codec, rows)|
    }

    constructor (files: Files)
      ensures Valid() && Whole() && this.files == files && keys == [] && rows == [] && records == map[]
    {
      this.files := files;
      records, journal, rows, keys, written := map[], [], [], [], 0;
    }

    /** The row of a trial, durable by itself. */
    method WriteRecord(key: Key, trial: Trial) returns (row: Json)
      requires Valid() && key !in keys && Encodes(files.codec, RowOfTrial(files, key, trial))
      modifies this`records
      ensures row == RowOfTrial(files, key, trial) && records == old(records)[key := Line(files.codec, row)]
      ensures Valid() && RowIsKept(files.(records := records), key, row)
    {
      row := RowOfTrial(files, key, trial);
      var line := Line(files.codec, row);
      records := records[key := line];
      RecordedIsKept(files, records, key, trial);
      OthersAreKept(files, old(records), key, line, keys, rows);
    }

    /** The first `n` bytes of the row's line; all of them unless the append is interrupted. */
    method AppendLine(key: Key, row: Json, n: nat)
      requires Valid() && Whole() && key !in keys && Encodes(files.codec, row)
      requires RowIsKept(files.(records := records), key, row) && n <= |Line(files.codec, row)|
      modifies this`journal, this`rows, this`keys, this`written
      ensures Valid() && rows == old(rows) + [row] && keys == old(keys) + [key]
      ensures n == |Line(files.codec, row)| ==> Whole()
    {
      var line := Line(files.codec, row);
      OneMoreIsKept(files, records, keys, rows, key, row);
      CutGoesOn(files.codec, rows, row, journal, n);
      journal := journal + line[..n];
      rows, keys, written := rows + [row], keys + [key], written + n;
    }

    /** The record first, then the journal line; an interruption leaves the record ahead, never behind. */
    method RunSlot(key: Key, trial: Trial, crash: Crash) returns (row: Json)
      requires Valid() && Whole() && key !in keys
      requires Encodes(files.codec, RowOfTrial(files, key, trial))
      modifies this
      ensures row == RowOfTrial(files, key, trial)
      ensures Valid() && records == old(records)[key := Line(files.codec, row)]
      ensures crash == BeforeAppend ==> journal == old(journal) && rows == old(rows) && keys == old(keys)
      ensures crash != BeforeAppend ==> rows == old(rows) + [row] && keys == old(keys) + [key]
      ensures crash == Never ==> Whole()
    {
      row := WriteRecord(key, trial);
      if crash == BeforeAppend { return; }
      var size := |Line(files.codec, row)|;
      AppendLine(key, row, if crash == Never || crash.written > size then size else crash.written);
    }
  }

  lemma OthersAreKept(f: Files, records: map<Key, seq<byte>>, key: Key, line: seq<byte>, keys: seq<Key>,
                      rows: seq<Json>)
    requires key !in keys && KeptAll(f, records, keys, rows)
    ensures KeptAll(f, records[key := line], keys, rows)
  {
    forall i | 0 <= i < |rows| ensures RowIsKept(f.(records := records[key := line]), keys[i], rows[i]) {
      assert RowIsKept(f.(records := records), keys[i], rows[i]);
      assert keys[i] in keys;
      assert RecordOf(f.(records := records[key := line]), keys[i]) == RecordOf(f.(records := records), keys[i]);
    }
  }

  /** Row by row what the trials gave. */
  ghost predicate RowsOfTrials(f: Files, trials: Key -> Trial, slots: seq<Key>, rows: seq<Json>) {
    |rows| <= |slots| && forall k | 0 <= k < |rows| :: rows[k] == RowOfTrial(f, slots[k], trials(slots[k]))
  }

  lemma RunIsFinished(f: Files, records: map<Key, seq<byte>>, rows: seq<Json>, report: Json)
    requires UniqueNames(f.names) && Shuffles(f) && KeptAll(f, records, Schedule(f), rows)
    requires report == f.statistics(Views(rows))
    ensures Finished(f.(records := records), rows, report)
  {
    ScheduleIgnoresRecords(f, records, f.trials);
  }

  ghost predicate TrialsEncode(f: Files, trials: Key -> Trial, slots: seq<Key>) {
    forall k | 0 <= k < |slots| :: Encodes(f.codec, RowOfTrial(f, slots[k], trials(slots[k])))
  }

  lemma NextSlot(slots: seq<Key>, k: nat)
    requires Distinct(slots) && k < |slots|
    ensures slots[k] !in slots[..k] && slots[..k + 1] == slots[..k] + [slots[k]]
  {}

  lemma NextRow(f: Files, trials: Key -> Trial, slots: seq<Key>, all: seq<Json>, row: Json)
    requires RowsOfTrials(f, trials, slots, all) && |all| < |slots|
    requires row == RowOfTrial(f, slots[|all|], trials(slots[|all|]))
    ensures RowsOfTrials(f, trials, slots, all + [row])
  {}

  method RunSlots(run: Run, trials: Key -> Trial, slots: seq<Key>) returns (all: seq<Json>)
    requires run.Valid() && run.Whole() && run.keys == [] && run.rows == []
    requires Distinct(slots) && TrialsEncode(run.files, trials, slots)
    modifies run
    ensures run.Valid() && run.Whole() && run.keys == slots && run.rows == all
    ensures RowsOfTrials(run.files, trials, slots, all)
  {
    all := [];
    for k := 0 to |slots|
      invariant run.Valid() && run.Whole() && run.keys == slots[..k] && run.rows == all
      invariant |all| == k && RowsOfTrials(run.files, trials, slots, all)
    {
      NextSlot(slots, k);
      assert Encodes(run.files.codec, RowOfTrial(run.files, slots[k], trials(slots[k])));
      var row := run.RunSlot(slots[k], trials(slots[k]), Never);
      NextRow(run.files, trials, slots, all, row);
      all := all + [row];
    }
    assert slots[..|slots|] == slots;
  }

  /** A campaign that runs to its end leaves everything recovery builds on. */
  method RunCampaign(f: Files, trials: Key -> Trial)
    returns (done: Files, journal: seq<byte>, report: Json, ghost rows: seq<Json>)
    requires UniqueNames(f.names) && Shuffles(f) && TrialsEncode(f, trials, Schedule(f))
    ensures done == f.(records := done.records)
    ensures Finished(done, rows, report) && journal == Text(f.codec, rows)
    ensures RowsOfTrials(f, trials, Schedule(f), rows)
  {
    var slots := Schedule(f);
    SlotsAreDistinct(f, f.trials);
    var run := new Run(f);
    var all := RunSlots(run, trials, slots);
    done, journal, rows := f.(records := run.records), run.journal, all;
    report := f.statistics(Views(all));
    RunIsFinished(f, run.records, all, report);
    assert Text(f.codec, all)[..run.written] == Text(f.codec, all);
  }

  /** A finished campaign can be recovered exactly when no trial's data carried a marker name. */
  lemma CampaignIsUnmarked(f: Files, trials: Key -> Trial, slots: seq<Key>, rows: seq<Json>)
    requires RowsOfTrials(f, trials, slots, rows)
    ensures AllUnmarked(rows) <==>
              forall k | 0 <= k < |rows| :: DataOf(f, slots[k], trials(slots[k])).fields.Keys !! MARKERS
  {
    forall k | 0 <= k < |rows|
      ensures Unmarked(rows[k]) <==> DataOf(f, slots[k], trials(slots[k])).fields.Keys !! MARKERS
    {
      RowIsUnmarked(f, slots[k], trials(slots[k]));
    }
  }

  // ---------------------------------------------------------------- a campaign that cannot be recovered

  const MARKED_DATA := Obj(map[
    "successful" := Bool(true), "metrics" := Obj(map["ms" := Num(1.0, false)]), "journalRecovered" := Bool(true)])

  const ONLY_SLOT := Key("task", 0)
  const ONLY_TRIAL := Trial(true, Num(1.0, true), Num(0.0, true), Num(1.0, true), Num(1.0, false), "")
  const MEASURED: seq<byte> := [109]
  const WRITTEN: seq<byte> := [123, 125]

  function MarkedRow(): Json {
    Obj(MARKED_DATA.fields + ProcessFields(ONLY_TRIAL) + SlotFields(ONLY_SLOT))
  }

  /** One task, one trial, and a measurement that has a field of recovery's own name. */
  function MarkedFiles(records: map<Key, seq<byte>>): Files {
    var row := MarkedRow();
    Files(
      Codec(
        _ => WRITTEN,
        s => if s == MEASURED then Some(MARKED_DATA) else if s == WRITTEN || s == WRITTEN + [NEWLINE] then
            Some(row) else None),
      _ => "", _ => Nul, ["task"], 0, 1, _ => ["task"], records, map[ONLY_SLOT := MEASURED])
  }

  lemma MarkedDataIsUsable()
    ensures UsableMeasurement(MARKED_DATA)
  {
    assert "ms" in At(MARKED_DATA, "metrics").fields;
  }

  lemma MarkedMeasurementIsRead(records: map<Key, seq<byte>>)
    ensures MeasurementOf(MarkedFiles(records), ONLY_SLOT) == Ok(MARKED_DATA)
  {}

  lemma MarkedRowIsTheTrial(records: map<Key, seq<byte>>)
    ensures RowOfTrial(MarkedFiles(records), ONLY_SLOT, ONLY_TRIAL) == MarkedRow()
    ensures Encodes(MarkedFiles(records).codec, MarkedRow())
  {
    var f := MarkedFiles(records);
    var row := MarkedRow();
    MarkedDataIsUsable();
    MarkedMeasurementIsRead(records);
    assert WRITTEN[..1] == [123] && |WRITTEN + [NEWLINE]| == 3;
  }

  lemma OnlySlotIsScheduled(records: map<Key, seq<byte>>)
    ensures Schedule(MarkedFiles(records)) == [ONLY_SLOT] && Shuffles(MarkedFiles(records))
  {
    var f := MarkedFiles(records);
    assert Slots(f, 0) == [] && Slots(f, 1) == Slots(f, 0) + Block(f.order(0), 0);
    assert Block(["task"], 0) == [ONLY_SLOT];
  }

  function RecordedFiles(): Files {
    MarkedFiles(map[ONLY_SLOT := WRITTEN + [NEWLINE]])
  }

  lemma MarkedIsKept()
    ensures RowIsKept(RecordedFiles(), ONLY_SLOT, MarkedRow())
  {
    MarkedRowIsTheTrial(RecordedFiles().records);
    TrialIsKept(RecordedFiles(), ONLY_SLOT, ONLY_TRIAL);
  }

  lemma MarkedIsFinished()
    ensures Finished(RecordedFiles(), [MarkedRow()], Nul) && !AllUnmarked([MarkedRow()])
  {
    MarkedIsKept();
    MarkedRowIsTheTrial(RecordedFiles().records);
    OnlySlotIsScheduled(RecordedFiles().records);
    assert "journalRecovered" in MarkedRow().fields && "journalRecovered" !in Stripped(MarkedRow()).fields;
    assert !Unmarked([MarkedRow()][0]);
  }

  /**
   The campaign of that one trial finishes like any other, its journal is whole, and recovery
   refuses it.
   */
  lemma MarkedMeasurementIsRefused()
    ensures MeasurementOf(RecordedFiles(), ONLY_SLOT) == Ok(MARKED_DATA)
    ensures RowOfTrial(RecordedFiles(), ONLY_SLOT, ONLY_TRIAL) == MarkedRow()
    ensures Finished(RecordedFiles(), [MarkedRow()], Nul)
    ensures Recover(RecordedFiles(), Text(RecordedFiles().codec, [MarkedRow()]), Nul) == Err(RecordDisagrees)
  {
    MarkedMeasurementIsRead(RecordedFiles().records);
    MarkedRowIsTheTrial(RecordedFiles().records);
    MarkedIsFinished();
    WholeJournalRecovers(RecordedFiles(), [MarkedRow()], Nul);
  }

  lemma {:induction false} ScheduleIgnoresRecords(f: Files, records: map<Key, seq<byte>>, upTo: int)
    ensures Slots(f.(records := records), upTo) == Slots(f, upTo)
    decreases upTo + f.warmups
  {
    if upTo > 0 - f.warmups { ScheduleIgnoresRecords(f, records, upTo - 1); }
  }
}
