/** What recovery computes from a journal and the durable records, and why it gives back the original rows. */
module Recovery {
  import opened Prelude
  import opened Bytes
  import opened Json
  import opened Journal

  datatype Key = Key(variant: string, trial: int)

  datatype Failure =
    | Names | CorruptLine | UnexpectedSlot | DuplicateSlot | InvalidRecord | Unreadable
    | NoEvidence | RecordDisagrees | MeasurementDisagrees | StatisticsDisagree | AlreadyKept | Interrupted

  /** The statistics see a row only through these entries. */
  datatype View = View(variant: Json, trial: Json, warmup: Json, successful: Json, metrics: Json, evidence: Json)

  /** The part of a campaign directory that recovery reads and never writes. */
  datatype Files = Files(
    codec: Codec, digest: seq<byte> -> string, statistics: seq<View> -> Json,
    names: seq<string>, warmups: nat, trials: nat, order: int -> seq<string>,
    records: map<Key, seq<byte>>, measurements: map<Key, seq<byte>>)

  const MARKERS: set<string> := {"journalRecovered", "recoverySourceSHA256"}

  // ---------------------------------------------------------------- rows

  function At(row: Json, name: string): Json {
    if row.Obj? && name in row.fields then row.fields[name] else Nul
  }

  /** The slot a row claims. */
  function KeyOf(row: Json): Option<Key> {
    var variant, trial := At(row, "variant"), At(row, "trial");
    if variant.Str? && trial.Num? && trial.isInt && trial.value == trial.value.Floor as real
    then Some(Key(variant.s, trial.value.Floor)) else None
  }

  predicate FiniteMetrics(metrics: Json) {
    metrics.Obj? && forall k | k in metrics.fields :: metrics.fields[k].Num?
  }

  predicate ValidRecord(row: Json, key: Key) {
    && row.Obj? && KeyOf(row) == Some(key)
    && At(row, "warmup") == Bool(key.trial < 0) && At(row, "successful").Bool?
    && FiniteMetrics(At(row, "metrics")) && (Successful(row) ==> At(row, "metrics").fields != map[])
  }

  predicate Successful(row: Json) {
    At(row, "successful") == Bool(true)
  }

  function Stripped(row: Json): Json {
    if row.Obj? then Obj(row.fields - MARKERS) else row
  }

  function Marked(row: Json, digest: string): Json {
    if row.Obj? then Obj(row.fields["journalRecovered" := Bool(true)]["recoverySourceSHA256" := Str(digest)]) else row
  }

  function ViewOf(row: Json): View {
    View(At(row, "variant"), At(row, "trial"), At(row, "warmup"), At(row, "successful"), At(row, "metrics"),
        At(row, "evidence"))
  }

  function Views(rows: seq<Json>): (views: seq<View>)
    ensures |views| == |rows| && forall k | 0 <= k < |rows| :: views[k] == ViewOf(rows[k])
  {
    seq(|rows|, k requires 0 <= k < |rows| => ViewOf(rows[k]))
  }

  /** Nothing recovery checks or counts looks at the markers. */
  lemma MarkersAreIgnored(row: Json, digest: string, key: Key)
    requires row.Obj?
    ensures ViewOf(Marked(row, digest)) == ViewOf(row) == ViewOf(Stripped(row))
    ensures ValidRecord(Marked(row, digest), key) <==> ValidRecord(row, key)
    ensures Stripped(Marked(row, digest)) == Stripped(row)
  {
    var m, s := Marked(row, digest), Stripped(row);
    assert "variant" !in MARKERS && "trial" !in MARKERS && "warmup" !in MARKERS;
    assert "successful" !in MARKERS && "metrics" !in MARKERS && "evidence" !in MARKERS;
    assert m.fields - MARKERS == row.fields - MARKERS;
  }

  // ---------------------------------------------------------------- reading the journal

  /** The rows on the first `k` lines; only the very last line may be cut short. */
  function Observed(c: Codec, lines: seq<seq<byte>>, k: nat): Result<seq<Json>, Failure>
    requires k <= |lines|
  {
    if k == 0 then Ok([])
    else
      var line := lines[k - 1];
      match Observed(c, lines, k - 1)
      case Err(e) => Err(e)
      case Ok(rows) =>
        if Blank(line) then Ok(rows)
        else match c.dec(line)
          case Some(row) => Ok(rows + [row])
          case None =>
            if k != |lines| || (line != [] && line[|line| - 1] == NEWLINE) then Err(CorruptLine) else Ok(rows)
  }

  predicate IsExpected(f: Files, key: Key) {
    key.variant in f.names && 0 - f.warmups <= key.trial < f.trials
  }

  /** The first `k` rows by slot. */
  function Lookup(f: Files, rows: seq<Json>, k: nat): Result<map<Key, Json>, Failure>
    requires k <= |rows|
  {
    if k == 0 then Ok(map[])
    else
      var row := rows[k - 1];
      match Lookup(f, rows, k - 1)
      case Err(e) => Err(e)
      case Ok(lookup) =>
        var key := KeyOf(row);
        if key == None || !IsExpected(f, key.value) then Err(UnexpectedSlot)
        else if key.value in lookup then Err(DuplicateSlot)
        else if !ValidRecord(row, key.value) then Err(InvalidRecord)
        else Ok(lookup[key.value := row])
  }

  // ---------------------------------------------------------------- one slot

  /** The durable record of a slot, if there is one. */
  function RecordOf(f: Files, key: Key): Result<Option<Json>, Failure> {
    if key !in f.records then Ok(None)
    else match f.codec.dec(f.records[key])
      case None => Err(Unreadable)
      case Some(record) => if ValidRecord(record, key) then Ok(Some(record)) else Err(InvalidRecord)
  }

  function MeasurementOf(f: Files, key: Key): Result<Json, Failure> {
    if key !in f.measurements then Err(NoEvidence)
    else match f.codec.dec(f.measurements[key])
      case None => Err(Unreadable)
      case Some(m) => if m.Obj? then Ok(m) else Err(Unreadable)
  }

  /** A row made of a bare measurement; what the parent process knew stays null. */
  function FromMeasurement(m: Json, key: Key): Json
    requires m.Obj?
  {
    Obj(m.fields + map[
      "variant" := Str(key.variant), "trial" := Num(key.trial as real, true), "warmup" := Bool(key.trial < 0),
      "workerPID" := Nul, "startedNs" := Nul, "elapsedProcessMs" := Nul])
  }

  /** The row before its evidence is compared: from the journal, else the record, else the measurement. */
  function Source(f: Files, lookup: map<Key, Json>, key: Key, record: Option<Json>): Result<Json, Failure> {
    if key in lookup then Ok(lookup[key])
    else if record.Some? then Ok(record.value)
    else match MeasurementOf(f, key)
      case Err(e) => Err(e)
      case Ok(m) => Ok(FromMeasurement(m, key))
  }

  predicate SameMetrics(a: Json, b: Json) {
    && a.Obj? && b.Obj? && a.fields.Keys == b.fields.Keys
    && forall k | k in a.fields :: a.fields[k].Num? && b.fields[k].Num? && a.fields[k].value == b.fields[k].value
  }

  /** A successful row must be the measurement's. */
  function AgainstMeasurement(f: Files, key: Key, row: Json): Option<Failure> {
    if !Successful(row) then None
    else match MeasurementOf(f, key)
      case Err(e) => Some(e)
      case Ok(m) => if SameMetrics(At(row, "metrics"), At(m, "metrics")) && Successful(m) then
          None else Some(MeasurementDisagrees)
  }

  function SourceBytes(f: Files, key: Key): seq<byte> {
    if key in f.records then f.records[key] else if key in f.measurements then f.measurements[key] else []
  }

  /** The row of one slot, checked against its evidence and marked when the journal had lost it. */
  function RowFor(f: Files, lookup: map<Key, Json>, key: Key): Result<Json, Failure> {
    match RecordOf(f, key)
    case Err(e) => Err(e)
    case Ok(record) =>
      match Source(f, lookup, key, record)
      case Err(e) => Err(e)
      case Ok(row) =>
        if !ValidRecord(row, key) then Err(InvalidRecord)
        else if record.Some? && !Same(Stripped(row), record.value) then Err(RecordDisagrees)
        else
          var failure := AgainstMeasurement(f, key, row);
          if failure.Some? then Err(failure.value)
          else Ok(if key in lookup then row else Marked(row, f.digest(SourceBytes(f, key))))
  }

  // ---------------------------------------------------------------- the schedule

  function Block(names: seq<string>, trial: int): (slots: seq<Key>)
    ensures |slots| == |names| && forall k | 0 <= k < |names| :: slots[k] == Key(names[k], trial)
  {
    seq(|names|, k requires 0 <= k < |names| => Key(names[k], trial))
  }

  /** The slots of the trials from the first warm-up up to but not including `upTo`, shuffled block by block. */
  function Slots(f: Files, upTo: int): seq<Key>
    decreases upTo + f.warmups
  {
    if upTo <= 0 - f.warmups then [] else Slots(f, upTo - 1) + Block(f.order(upTo - 1), upTo - 1)
  }

  function Schedule(f: Files): seq<Key> {
    Slots(f, f.trials)
  }

  /** Every trial runs every variant once, in an order that depends on the seed. */
  ghost predicate Shuffles(f: Files) {
    && (forall i, j | 0 <= i < j < |f.names| :: f.names[i] != f.names[j])
    && forall t | 0 - f.warmups <= t < f.trials :: multiset(f.order(t)) == multiset(f.names)
  }

  /** The rows of the first `k` slots. */
  function Rebuilt(f: Files, lookup: map<Key, Json>, slots: seq<Key>, k: nat): Result<seq<Json>, Failure>
    requires k <= |slots|
  {
    if k == 0 then Ok([])
    else match Rebuilt(f, lookup, slots, k - 1)
      case Err(e) => Err(e)
      case Ok(rows) =>
        match RowFor(f, lookup, slots[k - 1])
        case Err(e) => Err(e)
        case Ok(row) => Ok(rows + [row])
  }

  /** The slots whose rows the journal had lost. */
  function Missing(lookup: map<Key, Json>, slots: seq<Key>): seq<Key> {
    if slots == [] then []
    else Missing(lookup, slots[..|slots| - 1]) + if slots[|slots| - 1] in lookup then [] else [slots[|slots| - 1]]
  }

  function Found(f: Files, journal: seq<byte>): Result<map<Key, Json>, Failure> {
    var lines := Lines(journal);
    match Observed(f.codec, lines, |lines|)
    case Err(e) => Err(e)
    case Ok(rows) => Lookup(f, rows, |rows|)
  }

  predicate UniqueNames(names: seq<string>) {
    names != [] && forall i, j | 0 <= i < j < |names| :: names[i] != names[j]
  }

  datatype Recovered = Recovered(rows: seq<Json>, missing: seq<Key>)

  /** The rows recovery arrives at, and the slots it had to recover. */
  function Recover(f: Files, journal: seq<byte>, report: Json): Result<Recovered, Failure> {
    if !UniqueNames(f.names) then Err(Names)
    else match Found(f, journal)
      case Err(e) => Err(e)
      case Ok(lookup) =>
        var slots := Schedule(f);
        match Rebuilt(f, lookup, slots, |slots|)
        case Err(e) => Err(e)
        case Ok(rows) =>
          if Same(f.statistics(Views(rows)), report) then Ok(Recovered(rows, Missing(lookup, slots)))
          else Err(StatisticsDisagree)
  }
}
