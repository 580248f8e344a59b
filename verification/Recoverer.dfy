/** The recovery program: reads the damaged journal, rebuilds every slot, and rewrites the directory. */
module Recoverer {
  import opened Prelude
  import opened Bytes
  import opened Json
  import opened Journal
  import opened Recovery
  import opened RecoveryProofs

  lemma {:induction false} ObservedFails(c: Codec, lines: seq<seq<byte>>, k: nat, n: nat)
    requires k <= n <= |lines| && Observed(c, lines, k).Err?
    ensures Observed(c, lines, n) == Observed(c, lines, k)
    decreases n - k
  {
    if k < n { ObservedFails(c, lines, k + 1, n); }
  }

  lemma {:induction false} LookupFails(f: Files, rows: seq<Json>, k: nat, n: nat)
    requires k <= n <= |rows| && Lookup(f, rows, k).Err?
    ensures Lookup(f, rows, n) == Lookup(f, rows, k)
    decreases n - k
  {
    if k < n { LookupFails(f, rows, k + 1, n); }
  }

  method ReadLines(c: Codec, journal: seq<byte>) returns (r: Result<seq<Json>, Failure>)
    ensures r == Observed(c, Lines(journal), |Lines(journal)|)
  {
    var lines, observed := Lines(journal), [];
    for index := 0 to |lines|
      invariant Observed(c, lines, index) == Ok(observed)
    {
      var line := lines[index];
      if Blank(line) { continue; }
      var row := c.dec(line);
      if row.Some? {
        observed := observed + [row.value];
      } else if index != |lines| - 1 || (line != [] && line[|line| - 1] == NEWLINE) {
        ObservedFails(c, lines, index + 1, |lines|);
        return Err(CorruptLine);
      }
    }
    r := Ok(observed);
  }

  method BuildLookup(f: Files, observed: seq<Json>) returns (r: Result<map<Key, Json>, Failure>)
    ensures r == Lookup(f, observed, |observed|)
  {
    var lookup := map[];
    for k := 0 to |observed|
      invariant Lookup(f, observed, k) == Ok(lookup)
    {
      var failure := Refusal(f, lookup, observed[k]);
      if failure.Some? {
        LookupFails(f, observed, k + 1, |observed|);
        return Err(failure.value);
      }
      lookup := lookup[KeyOf(observed[k]).value := observed[k]];
    }
    r := Ok(lookup);
  }

  /** Why a journal row cannot be entered under its slot. */
  function Refusal(f: Files, lookup: map<Key, Json>, row: Json): (failure: Option<Failure>)
    ensures failure == None ==> KeyOf(row).Some?
  {
    var key := KeyOf(row);
    if key == None || !IsExpected(f, key.value) then Some(UnexpectedSlot)
    else if key.value in lookup then Some(DuplicateSlot)
    else if !ValidRecord(row, key.value) then Some(InvalidRecord)
    else None
  }

  method RebuildRows(f: Files, lookup: map<Key, Json>, slots: seq<Key>) returns (r: Result<Recovered, Failure>)
    ensures match Rebuilt(f, lookup, slots, |slots|)
            case Err(e) => r == Err(e)
            case Ok(rows) => r == Ok(Recovered(rows, Missing(lookup, slots)))
  {
    var rows, recovered := [], [];
    for k := 0 to |slots|
      invariant RowsAre(f, lookup, slots, k, rows) && recovered == Missing(lookup, slots[..k])
    {
      assert slots[..k + 1][..k] == slots[..k];
      var row := RowFor(f, lookup, slots[k]);
      if row.Err? {
        RebuiltFails(f, lookup, slots, k + 1, |slots|);
        return Err(row.error);
      }
      RebuildStep(f, lookup, slots, k, rows, row.value);
      rows := rows + [row.value];
      if slots[k] !in lookup { recovered := recovered + [slots[k]]; }
    }
    assert slots[..|slots|] == slots;
    r := Ok(Recovered(rows, recovered));
  }

  method Compute(f: Files, journal: seq<byte>, report: Json) returns (r: Result<Recovered, Failure>)
    ensures r == Recover(f, journal, report)
  {
    if !UniqueNames(f.names) { return Err(Names); }
    var observed := ReadLines(f.codec, journal);
    if observed.Err? { return Err(observed.error); }
    var lookup := BuildLookup(f, observed.value);
    if lookup.Err? { return Err(lookup.error); }
    var rebuilt := RebuildRows(f, lookup.value, Schedule(f));
    if rebuilt.Err? { return Err(rebuilt.error); }
    if !Same(f.statistics(Views(rebuilt.value.rows)), report) { return Err(StatisticsDisagree); }
    r := rebuilt;
  }

  method WriteText(c: Codec, rows: seq<Json>) returns (text: seq<byte>)
    ensures text == Text(c, rows)
  {
    text := [];
    for k := 0 to |rows|
      invariant text == Text(c, rows[..k])
    {
      assert rows[..k + 1] == rows[..k] + [rows[k]];
      TextNext(c, rows[..k], rows[k]);
      text := text + Line(c, rows[k]);
    }
    assert rows[..|rows|] == rows;
  }

  /** The part of a campaign directory that recovery rewrites. */
  class Directory {
    const files: Files
    var journal: seq<byte>
    var original: Option<seq<byte>>
    var report: Json

    constructor (files: Files, journal: seq<byte>, report: Json)
      ensures this.files == files && this.journal == journal && this.report == report && original == None
    {
      this.files, this.journal, this.report, original := files, journal, report, None;
    }

    /**
     How many lines were recovered. Nothing is written unless there is something to recover; then the
     old journal is set aside once, the new one replaces it, and the report follows. The program may
     be interrupted after any of the three writes.
     */
    method RecoverJournal(stop: Stop) returns (r: Result<nat, Failure>)
      modifies this
      ensures var computed := Recover(files, old(journal), old(report));
              match computed
              case Err(e) => r == Err(e) && Unchanged(old(Now()))
              case Ok(recovered) =>
                if recovered.missing == [] then r == Ok(0) && Unchanged(old(Now()))
                else if old(original).Some? then r == Err(AlreadyKept) && Unchanged(old(Now()))
                else
                  && r == (if stop == Nowhere then Ok(|recovered.missing|) else Err(Interrupted))
                  && original == Some(old(journal))
                  && journal == (if stop == AfterOriginal then old(journal) else Text(files.codec, recovered.rows))
                  && report == (if stop == Nowhere then files.statistics(Views(recovered.rows)) else old(report))
    {
      var computed := Compute(files, journal, report);
      if computed.Err? { return Err(computed.error); }
      if computed.value.missing == [] { return Ok(0); }
      if original.Some? { return Err(AlreadyKept); }
      original := Some(journal);
      if stop == AfterOriginal { return Err(Interrupted); }
      journal := WriteText(files.codec, computed.value.rows);
      if stop == AfterJournal { return Err(Interrupted); }
      report := files.statistics(Views(computed.value.rows));
      r := Ok(|computed.value.missing|);
    }

    ghost function Now(): (seq<byte>, Option<seq<byte>>, Json)
      reads this
    {
      (journal, original, report)
    }

    ghost predicate Unchanged(before: (seq<byte>, Option<seq<byte>>, Json))
      reads this
    {
      Now() == before
    }
  }

  /** Where the program is interrupted. */
  datatype Stop = Nowhere | AfterOriginal | AfterJournal

  /**
   A recovery that finds something to do, and a second one. The second has nothing left to do exactly
   when the first had come to replace the journal; interrupted before that, the first has set the old
   journal aside, and no later recovery goes on.
   */
  method RecoverTwice(d: Directory, stop: Stop) returns (first: Result<nat, Failure>, second: Result<nat, Failure>)
    requires Shuffles(d.files) && d.original == None
    requires var computed := Recover(d.files, d.journal, d.report);
             computed.Ok? && computed.value.missing != [] && AllEncode(d.files.codec, computed.value.rows)
    modifies d
    ensures first == if stop == Nowhere then
              Ok(|Recover(d.files, old(d.journal), old(d.report)).value.missing|) else Err(Interrupted)
    ensures second == if stop == AfterOriginal then Err(AlreadyKept) else Ok(0)
  {
    ghost var computed := Recover(d.files, d.journal, d.report);
    ghost var journal, report := d.journal, d.report;
    first := d.RecoverJournal(stop);
    SameIsReflexive(d.files.statistics(Views(computed.value.rows)));
    if stop != AfterOriginal { SecondRecoveryFindsNothing(d.files, journal, report, computed.value, d.report); }
    second := d.RecoverJournal(Nowhere);
  }
}
