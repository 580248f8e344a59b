/**
 What any successful recovery vouches for, whatever the journal and the evidence were: every journal row
 is kept as it stands, every other row comes from its durable evidence and says from which, and all rows
 agree with records, measurements and the statistics of the report.
 */
module RecoverySoundness {
  import opened Prelude
  import opened Bytes
  import opened Json
  import opened Journal
  import opened Recovery
  import opened RecoveryProofs

  // ---------------------------------------------------------------- rows, field by field

  /** An object for this slot: its variant, trial and warm-up flag, whether it succeeded, and finite numbers. */
  ghost predicate IsRowOf(row: Json, key: Key) {
    && row.Obj? && {"variant", "trial", "warmup", "successful", "metrics"} <= row.fields.Keys
    && row.fields["variant"] == Str(key.variant) && row.fields["trial"] == Num(key.trial as real, true)
    && row.fields["warmup"] == Bool(key.trial < 0)
    && (row.fields["successful"] == Bool(true) || row.fields["successful"] == Bool(false))
    && row.fields["metrics"].Obj?
    && (forall name | name in row.fields["metrics"].fields :: row.fields["metrics"].fields[name].Num?)
    && (row.fields["successful"] == Bool(true) ==> row.fields["metrics"].fields != map[])
  }

  lemma ValidMeans(row: Json, key: Key)
    ensures ValidRecord(row, key) <==> IsRowOf(row, key)
  {
    assert (key.trial as real).Floor == key.trial;
    if ValidRecord(row, key) { assert row.fields["successful"].b || !row.fields["successful"].b; }
  }

  /** The record of the slot, if there is one, is a row of it, and `row` without its markers is the same. */
  ghost predicate AgreesWithRecord(f: Files, key: Key, row: Json) {
    key in f.records ==>
      exists record ::
        && f.codec.dec(f.records[key]) == Some(record) && IsRowOf(record, key)
        && row.Obj? && Same(Obj(row.fields - {"journalRecovered", "recoverySourceSHA256"}), record)
  }

  /** A successful row has the numbers of the slot's measurement, which succeeded as well. */
  ghost predicate AgreesWithMeasurement(f: Files, key: Key, row: Json) {
    At(row, "successful") == Bool(true) ==>
      exists m ::
        && key in f.measurements && f.codec.dec(f.measurements[key]) == Some(m)
        && m.Obj? && {"successful", "metrics"} <= m.fields.Keys && m.fields["successful"] == Bool(true)
        && SameNumbers(At(row, "metrics"), m.fields["metrics"])
  }

  ghost predicate SameNumbers(a: Json, b: Json) {
    && a.Obj? && b.Obj? && a.fields.Keys == b.fields.Keys
    && forall name | name in a.fields ::
         exists x, i, j :: a.fields[name] == Num(x, i) && b.fields[name] == Num(x, j)
  }

  lemma SameNumbersMeans(a: Json, b: Json)
    ensures SameMetrics(a, b) <==> SameNumbers(a, b)
  {
    if SameMetrics(a, b) {
      forall name | name in a.fields
        ensures exists x, i, j :: a.fields[name] == Num(x, i) && b.fields[name] == Num(x, j)
      {
        var v, w := a.fields[name], b.fields[name];
        assert v == Num(v.value, v.isInt) && w == Num(v.value, w.isInt);
      }
    }
  }

  /** The bytes a lost row is rebuilt from: those of the record, or without one those of the measurement. */
  ghost predicate IsEvidence(f: Files, key: Key, source: seq<byte>) {
    if key in f.records then source == f.records[key] else key in f.measurements && source == f.measurements[key]
  }

  /** Field by field the content of its evidence, marked as recovered and from which bytes. */
  ghost predicate RebuiltFrom(f: Files, key: Key, row: Json, source: seq<byte>) {
    && IsEvidence(f, key, source) && row.Obj?
    && "journalRecovered" in row.fields && row.fields["journalRecovered"] == Bool(true)
    && "recoverySourceSHA256" in row.fields && row.fields["recoverySourceSHA256"] == Str(f.digest(source))
    && exists content :: f.codec.dec(source) == Some(content) && content.Obj?
         && forall name | name != "journalRecovered" && name != "recoverySourceSHA256" ::
              FieldIsFrom(f, key, row, content, name)
  }

  /** A field of a rebuilt row: the slot's own, unknown, or what the evidence says. */
  predicate FieldIsFrom(f: Files, key: Key, row: Json, content: Json, name: string)
    requires row.Obj? && content.Obj?
  {
    if key !in f.records && name in {"workerPID", "startedNs", "elapsedProcessMs"} then
      name in row.fields && row.fields[name] == Nul
    else if key !in f.records && name in {"variant", "trial", "warmup"} then name in row.fields
    else (name in row.fields <==> name in content.fields)
         && (name in row.fields ==> row.fields[name] == content.fields[name])
  }

  // ---------------------------------------------------------------- one slot

  /** What one returned row vouches for; `read` is what the journal had for its slot. */
  ghost predicate Vouches(f: Files, key: Key, row: Json, read: Option<Json>) {
    && IsRowOf(row, key) && AgreesWithRecord(f, key, row) && AgreesWithMeasurement(f, key, row)
    && (read.Some? ==> row == read.value)
    && (read == None ==> exists source :: RebuiltFrom(f, key, row, source))
  }

  function ReadFor(lookup: map<Key, Json>, key: Key): Option<Json> {
    if key in lookup then Some(lookup[key]) else None
  }

  lemma RecordMeans(f: Files, key: Key, row: Json)
    requires row.Obj? && RecordOf(f, key).Ok?
    requires RecordOf(f, key).value.Some? ==> Same(Stripped(row), RecordOf(f, key).value.value)
    ensures AgreesWithRecord(f, key, row)
  {
    if key in f.records {
      ValidMeans(RecordOf(f, key).value.value, key);
      assert MARKERS == {"journalRecovered", "recoverySourceSHA256"};
    }
  }

  lemma MeasurementMeans(f: Files, key: Key, row: Json)
    ensures AgainstMeasurement(f, key, row) == None <==> AgreesWithMeasurement(f, key, row)
  {
    if key in f.measurements && MeasurementOf(f, key).Ok? {
      SameNumbersMeans(At(row, "metrics"), At(MeasurementOf(f, key).value, "metrics"));
    }
  }

  /** The row before it is marked, and the bytes it was made of. */
  lemma SourceIsEvidence(f: Files, lookup: map<Key, Json>, key: Key, row: Json)
    requires key !in lookup && RecordOf(f, key).Ok?
    requires Source(f, lookup, key, RecordOf(f, key).value) == Ok(row) && row.Obj?
    ensures RebuiltFrom(f, key, Marked(row, f.digest(SourceBytes(f, key))), SourceBytes(f, key))
  {
    var source := SourceBytes(f, key);
    var marked, content := Marked(row, f.digest(source)), f.codec.dec(source).value;
    forall name | name != "journalRecovered" && name != "recoverySourceSHA256"
      ensures FieldIsFrom(f, key, marked, content, name)
    {
      assert name in marked.fields <==> name in row.fields;
    }
  }

  lemma MarkersChangeNothing(f: Files, key: Key, row: Json, digest: string)
    requires row.Obj?
    ensures IsRowOf(Marked(row, digest), key) <==> IsRowOf(row, key)
    ensures AgreesWithRecord(f, key, Marked(row, digest)) <==> AgreesWithRecord(f, key, row)
    ensures AgreesWithMeasurement(f, key, Marked(row, digest)) <==> AgreesWithMeasurement(f, key, row)
  {
    MarkersAreIgnored(row, digest, key);
    ValidMeans(row, key);
    ValidMeans(Marked(row, digest), key);
    assert Stripped(Marked(row, digest)) == Stripped(row);
    assert At(Marked(row, digest), "successful") == At(row, "successful");
    assert At(Marked(row, digest), "metrics") == At(row, "metrics");
  }

  lemma RowVouches(f: Files, lookup: map<Key, Json>, key: Key, row: Json)
    requires RowIs(f, lookup, key, row)
    ensures Vouches(f, key, row, ReadFor(lookup, key))
  {
    var record := RecordOf(f, key).value;
    var bare := Source(f, lookup, key, record).value;
    ValidMeans(bare, key);
    RecordMeans(f, key, bare);
    MeasurementMeans(f, key, bare);
    if key !in lookup {
      SourceIsEvidence(f, lookup, key, bare);
      MarkersChangeNothing(f, key, bare, f.digest(SourceBytes(f, key)));
    }
  }

  // ---------------------------------------------------------------- the journal

  /** Line `i` of the journal is not blank and holds this row. */
  ghost predicate LineHolds(c: Codec, journal: seq<byte>, i: nat, row: Json) {
    i < |Lines(journal)| && !Blank(Lines(journal)[i]) && c.dec(Lines(journal)[i]) == Some(row)
  }

  /** A line that holds no row: blank, or the last one without its line end. */
  ghost predicate LineIsSkipped(c: Codec, journal: seq<byte>, i: nat)
    requires i < |Lines(journal)|
  {
    var line := Lines(journal)[i];
    Blank(line) || (c.dec(line) == None && i == |Lines(journal)| - 1 && (line == [] || line[|line| - 1] != NEWLINE))
  }

  /** How many of the first `k` lines hold a row. */
  ghost function RowCount(c: Codec, journal: seq<byte>, k: nat): nat
    requires k <= |Lines(journal)|
  {
    if k == 0 then 0 else RowCount(c, journal, k - 1) + if LineIsSkipped(c, journal, k - 1) then 0 else 1
  }

  lemma {:induction false} ObservedLines(c: Codec, journal: seq<byte>, k: nat, rows: seq<Json>)
    requires k <= |Lines(journal)| && Observed(c, Lines(journal), k) == Ok(rows)
    ensures forall row | row in rows :: exists i :: 0 <= i < k && LineHolds(c, journal, i, row)
    ensures forall i | 0 <= i < k ::
              LineIsSkipped(c, journal, i) || exists row :: LineHolds(c, journal, i, row) && row in rows
    ensures |rows| == RowCount(c, journal, k)
  {
    if k > 0 {
      var before := Observed(c, Lines(journal), k - 1).value;
      ObservedLines(c, journal, k - 1, before);
      if rows != before { assert LineHolds(c, journal, k - 1, rows[|rows| - 1]); }
      assert forall row | row in before :: row in rows;
    }
  }

  /** The first `k` rows sit in the map, each valid and under an expected slot, and nothing else does. */
  ghost predicate Filed(f: Files, rows: seq<Json>, k: nat, lookup: map<Key, Json>)
    requires k <= |rows|
  {
    && |lookup| == k
    && (forall key | key in lookup :: lookup[key] in rows && ValidRecord(lookup[key], key) && IsExpected(f, key))
    && (forall i | 0 <= i < k :: Sits(lookup, rows[i]))
  }

  ghost predicate Sits(lookup: map<Key, Json>, row: Json) {
    exists key :: key in lookup && lookup[key] == row
  }

  lemma SitsLater(before: map<Key, Json>, key: Key, row: Json, was: Json)
    requires Sits(before, was) && key !in before
    ensures Sits(before[key := row], was)
  {
    var other :| other in before && before[other] == was;
    assert before[key := row][other] == was;
  }

  lemma FiledNext(f: Files, rows: seq<Json>, k: nat, before: map<Key, Json>, key: Key)
    requires k < |rows| && Filed(f, rows, k, before) && key !in before
    requires ValidRecord(rows[k], key) && IsExpected(f, key)
    ensures Filed(f, rows, k + 1, before[key := rows[k]])
  {
    var after := before[key := rows[k]];
    assert after.Keys == before.Keys + {key} && |after| == |after.Keys|;
    forall i | 0 <= i < k + 1 ensures Sits(after, rows[i]) {
      if i < k { SitsLater(before, key, rows[k], rows[i]); } else { assert after[key] == rows[k]; }
    }
  }

  lemma {:induction false} LookupRows(f: Files, rows: seq<Json>, k: nat, lookup: map<Key, Json>)
    requires k <= |rows| && Lookup(f, rows, k) == Ok(lookup)
    ensures Filed(f, rows, k, lookup)
  {
    if k > 0 {
      var before := Lookup(f, rows, k - 1).value;
      LookupRows(f, rows, k - 1, before);
      FiledNext(f, rows, k - 1, before, KeyOf(rows[k - 1]).value);
    }
  }

  /** The map holds exactly the rows of the journal's lines, each under its own slot of the plan, none twice. */
  ghost predicate ReadsJournal(f: Files, journal: seq<byte>, lookup: map<Key, Json>) {
    && (forall key | key in lookup ::
          && key.variant in f.names && 0 - f.warmups <= key.trial && key.trial < f.trials
          && IsRowOf(lookup[key], key) && exists i: nat :: LineHolds(f.codec, journal, i, lookup[key]))
    && RowCount(f.codec, journal, |Lines(journal)|) == |lookup|
    && (forall i | 0 <= i < |Lines(journal)| ::
          LineIsSkipped(f.codec, journal, i)
          || exists key :: key in lookup && LineHolds(f.codec, journal, i, lookup[key]))
  }

  lemma FoundReads(f: Files, journal: seq<byte>, lookup: map<Key, Json>)
    requires Found(f, journal) == Ok(lookup)
    ensures ReadsJournal(f, journal, lookup)
  {
    var lines := Lines(journal);
    var rows := Observed(f.codec, lines, |lines|).value;
    ObservedLines(f.codec, journal, |lines|, rows);
    LookupRows(f, rows, |rows|, lookup);
    forall key | key in lookup
      ensures IsExpected(f, key) && IsRowOf(lookup[key], key)
      ensures exists i: nat :: LineHolds(f.codec, journal, i, lookup[key])
    {
      ValidMeans(lookup[key], key);
    }
    forall i | 0 <= i < |lines| && !LineIsSkipped(f.codec, journal, i)
      ensures exists key :: key in lookup && LineHolds(f.codec, journal, i, lookup[key])
    {
      var row :| LineHolds(f.codec, journal, i, row) && row in rows;
      assert Sits(lookup, row);
      var key :| key in lookup && lookup[key] == row;
    }
  }

  // ---------------------------------------------------------------- the whole

  /** What the journal had is kept as it stands, and what it had lost is what is reported as recovered. */
  ghost predicate Sound(f: Files, journal: seq<byte>, report: Json, r: Recovered, lookup: map<Key, Json>) {
    && ReadsJournal(f, journal, lookup) && |r.rows| == |Schedule(f)|
    && (forall k | 0 <= k < |r.rows| :: Vouches(f, Schedule(f)[k], r.rows[k], ReadFor(lookup, Schedule(f)[k])))
    && (forall key :: key in r.missing <==> key in Schedule(f) && key !in lookup)
    && Same(f.statistics(Views(r.rows)), report)
  }

  /**
   Whatever journal, records and measurements there are: if recovery succeeds, every line of the journal
   but a cut last one stands for the row of one slot and is returned as it is; every other slot gets a
   row rebuilt from its record or measurement and marked with the digest of those very bytes; and every
   row agrees with its record and measurement, and all of them with the statistics of the report.
   */
  lemma RecoveryIsSound(f: Files, journal: seq<byte>, report: Json, r: Recovered)
    requires Recover(f, journal, report) == Ok(r)
    ensures exists lookup :: Sound(f, journal, report, r, lookup)
  {
    var lookup, slots := Found(f, journal).value, Schedule(f);
    FoundReads(f, journal, lookup);
    RebuiltRows(f, lookup, slots, |slots|, r.rows);
    MissingMembers(lookup, slots);
    forall k | 0 <= k < |r.rows| ensures Vouches(f, slots[k], r.rows[k], ReadFor(lookup, slots[k])) {
      assert RowIs(f, lookup, slots[k], r.rows[k]);
      RowVouches(f, lookup, slots[k], r.rows[k]);
    }
    assert Sound(f, journal, report, r, lookup);
  }
}
