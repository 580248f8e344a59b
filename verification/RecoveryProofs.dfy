/** Recovery gives back the original journal, and a second recovery finds nothing to do. */
module RecoveryProofs {
  import opened Prelude
  import opened Bytes
  import opened Json
  import opened Journal
  import opened Recovery

  // ---------------------------------------------------------------- the schedule has every slot once

  lemma {:induction false} MultisetCounts(s: seq<string>, x: string)
    ensures multiset(s)[x] > 0 <==> x in s
    ensures (forall i, j | 0 <= i < j < |s| :: s[i] != s[j]) ==> multiset(s)[x] <= 1
    decreases |s|
  {
    if s != [] {
      var front, last := s[..|s| - 1], s[|s| - 1];
      assert s == front + [last];
      MultisetCounts(front, x);
    }
  }

  lemma TwiceCounts(s: seq<string>, i: nat, j: nat)
    requires i < j < |s| && s[i] == s[j]
    ensures multiset(s)[s[i]] >= 2
  {
    var front, back := s[..j], s[j..];
    assert s == front + back;
    assert front[i] == s[i] && back[0] == s[j];
    MultisetCounts(front, s[i]);
    MultisetCounts(back, s[i]);
  }

  lemma ShuffleIsDistinct(f: Files, t: int)
    requires Shuffles(f) && 0 - f.warmups <= t < f.trials
    ensures forall i, j | 0 <= i < j < |f.order(t)| :: f.order(t)[i] != f.order(t)[j]
    ensures forall k | 0 <= k < |f.order(t)| :: f.order(t)[k] in f.names
  {
    var s := f.order(t);
    forall i, j | 0 <= i < j < |s| ensures s[i] != s[j] {
      if s[i] == s[j] {
        TwiceCounts(s, i, j);
        MultisetCounts(f.names, s[i]);
      }
    }
    forall k | 0 <= k < |s| ensures s[k] in f.names {
      MultisetCounts(s, s[k]);
      MultisetCounts(f.names, s[k]);
    }
  }

  ghost predicate Distinct(slots: seq<Key>) {
    forall i, j | 0 <= i < j < |slots| :: slots[i] != slots[j]
  }

  ghost predicate Before(f: Files, slots: seq<Key>, upTo: int) {
    forall k | 0 <= k < |slots| :: IsExpected(f, slots[k]) && slots[k].trial < upTo
  }

  lemma BlockFits(f: Files, t: int)
    requires Shuffles(f) && 0 - f.warmups <= t < f.trials
    ensures var block := Block(f.order(t), t);
            Distinct(block) && Before(f, block, t + 1) && forall k | 0 <= k < |block| :: block[k].trial == t
  {
    ShuffleIsDistinct(f, t);
  }

  lemma AppendFits(f: Files, front: seq<Key>, block: seq<Key>, t: int)
    requires Distinct(front) && Before(f, front, t) && Distinct(block) && Before(f, block, t + 1)
    requires forall k | 0 <= k < |block| :: block[k].trial == t
    ensures Distinct(front + block) && Before(f, front + block, t + 1)
  {
    var all := front + block;
    forall i, j | 0 <= i < j < |all| ensures all[i] != all[j] {
      if i < |front| <= j { assert all[i].trial < t == all[j].trial; }
    }
  }

  lemma {:induction false} SlotsAreDistinct(f: Files, upTo: int)
    requires Shuffles(f) && upTo <= f.trials
    ensures Distinct(Slots(f, upTo)) && Before(f, Slots(f, upTo), upTo)
    decreases upTo + f.warmups
  {
    if upTo > 0 - f.warmups {
      SlotsAreDistinct(f, upTo - 1);
      BlockFits(f, upTo - 1);
      AppendFits(f, Slots(f, upTo - 1), Block(f.order(upTo - 1), upTo - 1), upTo - 1);
    }
  }

  // ---------------------------------------------------------------- a finished campaign

  /** The row of a slot with its durable evidence intact. */
  ghost predicate RowIsKept(f: Files, key: Key, row: Json) {
    && ValidRecord(row, key)
    && RecordOf(f, key) == Ok(Some(row))
    && AgainstMeasurement(f, key, row) == None
  }

  /** The row carries none of the names that recovery keeps for itself. */
  predicate Unmarked(row: Json) {
    Stripped(row) == row
  }

  predicate AllUnmarked(rows: seq<Json>) {
    forall k | 0 <= k < |rows| :: Unmarked(rows[k])
  }

  ghost predicate Finished(f: Files, rows: seq<Json>, report: Json) {
    && UniqueNames(f.names) && Shuffles(f) && AllEncode(f.codec, rows)
    && |rows| == |Schedule(f)| && (forall k | 0 <= k < |rows| :: RowIsKept(f, Schedule(f)[k], rows[k]))
    && report == f.statistics(Views(rows))
  }

  // ---------------------------------------------------------------- reading the cut journal

  lemma LineIsNotBlank(c: Codec, row: Json)
    requires Encodes(c, row)
    ensures !Blank(Line(c, row)) && !Blank(c.enc(row)) && forall n | 0 < n <= |c.enc(row)| :: !Blank(c.enc(row)[..n])
  {
    var s := c.enc(row);
    assert Line(c, row)[0] == s[0];
    forall n | 0 < n <= |s| ensures !Blank(s[..n]) { assert s[..n][0] == 123; }
  }

  /** Whole lines are read back row by row. */
  lemma {:induction false} WholeLinesRead(c: Codec, rows: seq<Json>, lines: seq<seq<byte>>, k: nat)
    requires AllEncode(c, rows) && k <= |rows| && k <= |lines|
    requires forall i | 0 <= i < k :: lines[i] == Line(c, rows[i])
    ensures Observed(c, lines, k) == Ok(rows[..k])
  {
    if k > 0 {
      WholeLinesRead(c, rows, lines, k - 1);
      assert Encodes(c, rows[k - 1]);
      LineIsNotBlank(c, rows[k - 1]);
      assert rows[..k] == rows[..k - 1] + [rows[k - 1]];
    }
  }

  /** How many rows survive a cut after `n` bytes: those with every byte but perhaps the line end. */
  ghost predicate Survive(c: Codec, rows: seq<Json>, n: nat, seen: nat) {
    && seen <= |rows| && |Text(c, rows[..seen])| <= n + 1
    && (seen < |rows| ==> n + 1 < |Text(c, rows[..seen + 1])|)
  }

  lemma TextOfOneMore(c: Codec, rows: seq<Json>, m: nat)
    requires m < |rows|
    ensures Text(c, rows[..m + 1]) == Text(c, rows[..m]) + Line(c, rows[m])
  {
    assert rows[..m + 1] == rows[..m] + [rows[m]];
    TextNext(c, rows[..m], rows[m]);
  }

  /** The lines of a cut journal. */
  lemma CutLines(c: Codec, rows: seq<Json>, m: nat, rest: seq<byte>)
    requires AllEncode(c, rows) && m <= |rows|
    requires rest == [] || (m < |rows| && |rest| <= |c.enc(rows[m])| && rest == c.enc(rows[m])[..|rest|])
    ensures Lines(Text(c, rows[..m]) + rest) == RowLines(c, rows[..m]) + if rest == [] then [] else [rest]
  {
    LinesOfText(c, rows[..m], rest);
    if rest != [] {
      assert Encodes(c, rows[m]);
      assert OneLine(rest);
    }
    LinesOfRest(rest);
  }

  lemma CutRowReads(c: Codec, rows: seq<Json>, m: nat, rest: seq<byte>)
    requires AllEncode(c, rows) && m < |rows| && 0 < |rest| <= |c.enc(rows[m])| && rest == c.enc(rows[m])[..|rest|]
    ensures !Blank(rest) && rest[|rest| - 1] != NEWLINE
    ensures c.dec(rest) == if |rest| == |c.enc(rows[m])| then Some(rows[m]) else None
  {
    var s := c.enc(rows[m]);
    assert Encodes(c, rows[m]);
    LineIsNotBlank(c, rows[m]);
    assert rest[|rest| - 1] == s[|rest| - 1];
    assert s[..|s|] == s;
  }

  ghost predicate ReadsAs(c: Codec, journal: seq<byte>, rows: seq<Json>) {
    var lines := Lines(journal);
    Observed(c, lines, |lines|) == Ok(rows)
  }

  ghost predicate CutAt(c: Codec, rows: seq<Json>, m: nat, rest: seq<byte>) {
    && m <= |rows|
    && (rest == [] || (m < |rows| && |rest| <= |c.enc(rows[m])| && rest == c.enc(rows[m])[..|rest|]))
  }

  /** The cut row counts when nothing but its line end is gone. */
  function SeenAt(c: Codec, rows: seq<Json>, m: nat, rest: seq<byte>): nat {
    if rest != [] && m < |rows| && |rest| == |c.enc(rows[m])| then m + 1 else m
  }

  lemma CutObserves(c: Codec, rows: seq<Json>, m: nat, rest: seq<byte>)
    requires AllEncode(c, rows) && CutAt(c, rows, m, rest)
    ensures ReadsAs(c, Text(c, rows[..m]) + rest, rows[..SeenAt(c, rows, m, rest)])
  {
    CutLines(c, rows, m, rest);
    var lines := Lines(Text(c, rows[..m]) + rest);
    WholeLinesRead(c, rows, lines, m);
    if rest != [] {
      CutRowReads(c, rows, m, rest);
      assert rows[..m + 1] == rows[..m] + [rows[m]];
    }
  }

  lemma CutSurvives(c: Codec, rows: seq<Json>, m: nat, rest: seq<byte>)
    requires AllEncode(c, rows) && CutAt(c, rows, m, rest)
    ensures Survive(c, rows, |Text(c, rows[..m])| + |rest|, SeenAt(c, rows, m, rest))
  {
    if m < |rows| {
      assert Encodes(c, rows[m]);
      TextOfOneMore(c, rows, m);
      if m + 1 < |rows| { TextOfOneMore(c, rows, m + 1); }
    }
  }

  /** A cut journal reads as the rows that survive the cut. */
  lemma CutJournalReads(c: Codec, rows: seq<Json>, n: nat) returns (seen: nat)
    requires AllEncode(c, rows) && n <= |Text(c, rows)|
    ensures Survive(c, rows, n, seen) && ReadsAs(c, Text(c, rows)[..n], rows[..seen])
  {
    var m, rest := CutText(c, rows, n);
    CutObserves(c, rows, m, rest);
    CutSurvives(c, rows, m, rest);
    seen := SeenAt(c, rows, m, rest);
  }

  // ---------------------------------------------------------------- the rows by slot

  /** `rows` sit in distinct expected slots. */
  ghost predicate Slotted(f: Files, rows: seq<Json>, slots: seq<Key>) {
    && |rows| == |slots| && Distinct(slots)
    && forall k | 0 <= k < |rows| :: ValidRecord(rows[k], slots[k]) && IsExpected(f, slots[k])
  }

  /** The map holds exactly the first `k` rows under their slots. */
  ghost predicate Indexes(lookup: map<Key, Json>, rows: seq<Json>, slots: seq<Key>, k: nat)
    requires k <= |rows| == |slots|
  {
    && (forall i | 0 <= i < k :: slots[i] in lookup && lookup[slots[i]] == rows[i])
    && (forall key | key in lookup :: exists i | 0 <= i < k :: slots[i] == key)
  }

  lemma IndexesNext(lookup: map<Key, Json>, rows: seq<Json>, slots: seq<Key>, k: nat)
    requires k < |rows| == |slots| && Distinct(slots) && Indexes(lookup, rows, slots, k)
    ensures slots[k] !in lookup && Indexes(lookup[slots[k] := rows[k]], rows, slots, k + 1)
  {}

  ghost predicate LookedUp(f: Files, rows: seq<Json>, slots: seq<Key>, k: nat, lookup: map<Key, Json>)
    requires k <= |rows| == |slots|
  {
    Lookup(f, rows, k) == Ok(lookup) && Indexes(lookup, rows, slots, k)
  }

  lemma LookupStep(f: Files, rows: seq<Json>, slots: seq<Key>, k: nat, lookup: map<Key, Json>)
    requires k < |rows| && Slotted(f, rows, slots) && LookedUp(f, rows, slots, k, lookup)
    ensures LookedUp(f, rows, slots, k + 1, lookup[slots[k] := rows[k]])
  {
    IndexesNext(lookup, rows, slots, k);
    assert ValidRecord(rows[k], slots[k]) && IsExpected(f, slots[k]);
  }

  lemma LookupStart(f: Files, rows: seq<Json>, slots: seq<Key>)
    requires |rows| == |slots|
    ensures LookedUp(f, rows, slots, 0, map[])
  {}

  lemma {:induction false} LookupFinds(f: Files, rows: seq<Json>, slots: seq<Key>, k: nat)
    returns (lookup: map<Key, Json>)
    requires Slotted(f, rows, slots) && k <= |rows|
    ensures LookedUp(f, rows, slots, k, lookup)
  {
    LookupStart(f, rows, slots);
    lookup := map[];
    if k > 0 {
      var before := LookupFinds(f, rows, slots, k - 1);
      LookupStep(f, rows, slots, k - 1, before);
      lookup := before[slots[k - 1] := rows[k - 1]];
    }
  }

  // ---------------------------------------------------------------- rebuilding

  lemma MarkersAreNotSame(row: Json)
    requires row.Obj? && !Unmarked(row)
    ensures !Same(Stripped(row), row)
  {
    var fields := row.fields;
    assert fields.Keys !! MARKERS ==> fields - MARKERS == fields;
    assert Stripped(row).fields.Keys == fields.Keys - MARKERS;
  }

  /**
   A row of a finished campaign is rebuilt, marked exactly when the journal had lost it; but a row
   with a marker name of its own never agrees with its record, whether the journal lost it or not.
   */
  lemma KeptRowRebuilds(f: Files, lookup: map<Key, Json>, key: Key, row: Json)
    requires RowIsKept(f, key, row) && (key in lookup ==> lookup[key] == row)
    ensures RowFor(f, lookup, key) ==
            if !Unmarked(row) then Err(RecordDisagrees)
            else Ok(if key in lookup then row else Marked(row, f.digest(SourceBytes(f, key))))
  {
    SameIsReflexive(row);
    if !Unmarked(row) { MarkersAreNotSame(row); }
  }

  /** The rebuilt row of slot `key`, given the original one. */
  function Restored(f: Files, lookup: map<Key, Json>, key: Key, row: Json): Json {
    if key in lookup then row else Marked(row, f.digest(SourceBytes(f, key)))
  }

  function AllRestored(f: Files, lookup: map<Key, Json>, slots: seq<Key>, rows: seq<Json>): (all: seq<Json>)
    requires |slots| == |rows|
    ensures |all| == |rows| && forall k | 0 <= k < |rows| :: all[k] == Restored(f, lookup, slots[k], rows[k])
  {
    seq(|rows|, k requires 0 <= k < |rows| => Restored(f, lookup, slots[k], rows[k]))
  }

  ghost predicate RowIs(f: Files, lookup: map<Key, Json>, key: Key, row: Json) {
    RowFor(f, lookup, key) == Ok(row)
  }

  ghost predicate RowsAre(f: Files, lookup: map<Key, Json>, slots: seq<Key>, k: nat, rows: seq<Json>) {
    k <= |slots| && Rebuilt(f, lookup, slots, k) == Ok(rows)
  }

  lemma RebuildStep(f: Files, lookup: map<Key, Json>, slots: seq<Key>, k: nat, rows: seq<Json>, row: Json)
    requires k < |slots| && RowsAre(f, lookup, slots, k, rows) && RowIs(f, lookup, slots[k], row)
    ensures RowsAre(f, lookup, slots, k + 1, rows + [row])
  {}

  lemma {:induction false} AllRebuild(f: Files, lookup: map<Key, Json>, slots: seq<Key>, all: seq<Json>, k: nat)
    requires k <= |slots| && EachRowIs(f, lookup, slots, |slots|, all)
    ensures RowsAre(f, lookup, slots, k, all[..k])
  {
    if k > 0 {
      AllRebuild(f, lookup, slots, all, k - 1);
      NextRebuilds(f, lookup, slots, all, k - 1);
    }
  }

  lemma NextRebuilds(f: Files, lookup: map<Key, Json>, slots: seq<Key>, all: seq<Json>, k: nat)
    requires k < |slots| && EachRowIs(f, lookup, slots, |slots|, all)
    requires RowsAre(f, lookup, slots, k, all[..k])
    ensures RowsAre(f, lookup, slots, k + 1, all[..k + 1])
  {
    RebuildStep(f, lookup, slots, k, all[..k], all[k]);
    assert all[..k + 1] == all[..k] + [all[k]];
  }

  lemma RestoredViews(f: Files, lookup: map<Key, Json>, slots: seq<Key>, rows: seq<Json>)
    requires |slots| == |rows| && forall k | 0 <= k < |rows| :: ValidRecord(rows[k], slots[k])
    ensures Views(AllRestored(f, lookup, slots, rows)) == Views(rows)
  {
    var all := AllRestored(f, lookup, slots, rows);
    forall k | 0 <= k < |rows| ensures ViewOf(all[k]) == ViewOf(rows[k]) {
      MarkersAreIgnored(rows[k], f.digest(SourceBytes(f, slots[k])), slots[k]);
    }
  }

  lemma {:induction false} MissingMembers(lookup: map<Key, Json>, slots: seq<Key>)
    ensures forall key :: key in Missing(lookup, slots) <==> key in slots && key !in lookup
    decreases |slots|
  {
    if slots != [] {
      MissingMembers(lookup, slots[..|slots| - 1]);
      assert slots == slots[..|slots| - 1] + [slots[|slots| - 1]];
    }
  }

  lemma {:induction false} RebuiltFails(f: Files, lookup: map<Key, Json>, slots: seq<Key>, k: nat, n: nat)
    requires k <= n <= |slots| && Rebuilt(f, lookup, slots, k).Err?
    ensures Rebuilt(f, lookup, slots, n) == Rebuilt(f, lookup, slots, k)
    decreases n - k
  {
    if k < n { RebuiltFails(f, lookup, slots, k + 1, n); }
  }

  /** The slot is rebuilt, or its record disagrees. */
  predicate RebuildsOrDisagrees(f: Files, lookup: map<Key, Json>, key: Key) {
    RowFor(f, lookup, key).Err? ==> RowFor(f, lookup, key) == Err(RecordDisagrees)
  }

  lemma {:induction false} OnlyDisagreement(f: Files, lookup: map<Key, Json>, slots: seq<Key>, n: nat)
    requires n <= |slots| && forall k | 0 <= k < n :: RebuildsOrDisagrees(f, lookup, slots[k])
    ensures Rebuilt(f, lookup, slots, n).Err? ==> Rebuilt(f, lookup, slots, n) == Err(RecordDisagrees)
  {
    if n > 0 {
      OnlyDisagreement(f, lookup, slots, n - 1);
      assert RebuildsOrDisagrees(f, lookup, slots[n - 1]);
    }
  }

  lemma OneDisagreementFails(f: Files, lookup: map<Key, Json>, slots: seq<Key>, k: nat)
    requires k < |slots| && RowFor(f, lookup, slots[k]).Err?
    requires forall i | 0 <= i < |slots| :: RebuildsOrDisagrees(f, lookup, slots[i])
    ensures Rebuilt(f, lookup, slots, |slots|) == Err(RecordDisagrees)
  {
    assert Rebuilt(f, lookup, slots, k + 1).Err?;
    RebuiltFails(f, lookup, slots, k + 1, |slots|);
    OnlyDisagreement(f, lookup, slots, |slots|);
  }

  lemma MarkedCampaignFails(f: Files, rows: seq<Json>, report: Json, lookup: map<Key, Json>)
    requires Finished(f, rows, report) && !AllUnmarked(rows)
    requires forall k | 0 <= k < |rows| && Schedule(f)[k] in lookup :: lookup[Schedule(f)[k]] == rows[k]
    ensures Rebuilt(f, lookup, Schedule(f), |Schedule(f)|) == Err(RecordDisagrees)
  {
    var slots := Schedule(f);
    var k :| 0 <= k < |rows| && !Unmarked(rows[k]);
    forall i | 0 <= i < |rows| ensures RebuildsOrDisagrees(f, lookup, slots[i]) {
      assert RowIsKept(f, slots[i], rows[i]);
      KeptRowRebuilds(f, lookup, slots[i], rows[i]);
    }
    assert RowIsKept(f, slots[k], rows[k]);
    KeptRowRebuilds(f, lookup, slots[k], rows[k]);
    OneDisagreementFails(f, lookup, slots, k);
  }

  lemma FinishedRebuilds(f: Files, rows: seq<Json>, report: Json, lookup: map<Key, Json>)
    requires Finished(f, rows, report) && AllUnmarked(rows)
    requires forall k | 0 <= k < |rows| && Schedule(f)[k] in lookup :: lookup[Schedule(f)[k]] == rows[k]
    ensures var slots, all := Schedule(f), AllRestored(f, lookup, Schedule(f), rows);
            Rebuilt(f, lookup, slots, |slots|) == Ok(all) && f.statistics(Views(all)) == report
  {
    var slots := Schedule(f);
    var all := AllRestored(f, lookup, slots, rows);
    forall k | 0 <= k < |rows| ensures RowIs(f, lookup, slots[k], all[k]) {
      assert RowIsKept(f, slots[k], rows[k]);
      KeptRowRebuilds(f, lookup, slots[k], rows[k]);
    }
    AllRebuild(f, lookup, slots, all, |slots|);
    assert all[..|slots|] == all;
    forall k | 0 <= k < |rows| ensures ValidRecord(rows[k], slots[k]) { assert RowIsKept(f, slots[k], rows[k]); }
    RestoredViews(f, lookup, slots, rows);
  }

  // ---------------------------------------------------------------- the theorem

  /** Some of the original rows, named by their places; keeping lines keeps their order, but any order will do. */
  ghost predicate Places(kept: seq<nat>, n: nat) {
    && (forall i | 0 <= i < |kept| :: kept[i] < n)
    && forall i, j | 0 <= i < j < |kept| :: kept[i] != kept[j]
  }

  function Pick<T>(all: seq<T>, kept: seq<nat>): (some: seq<T>)
    requires forall i | 0 <= i < |kept| :: kept[i] < |all|
    ensures |some| == |kept| && forall i | 0 <= i < |kept| :: some[i] == all[kept[i]]
  {
    seq(|kept|, i requires 0 <= i < |kept| => all[kept[i]])
  }

  lemma PickedIsSlotted(f: Files, rows: seq<Json>, report: Json, kept: seq<nat>)
    requires Finished(f, rows, report) && Places(kept, |rows|)
    ensures AllEncode(f.codec, Pick(rows, kept)) && Slotted(f, Pick(rows, kept), Pick(Schedule(f), kept))
  {
    SlotsAreDistinct(f, f.trials);
    var slots := Schedule(f);
    var some := Pick(slots, kept);
    forall i, j | 0 <= i < j < |some| ensures some[i] != some[j] {
      assert kept[i] != kept[j];
      assert slots[kept[i]] != slots[kept[j]] by {
        if kept[i] < kept[j] { assert slots[kept[i]] != slots[kept[j]]; } else {
          assert slots[kept[j]] != slots[kept[i]];
        }
      }
    }
    forall i | 0 <= i < |kept| ensures ValidRecord(rows[kept[i]], slots[kept[i]]) && Encodes(f.codec, rows[kept[i]]) {
      assert RowIsKept(f, slots[kept[i]], rows[kept[i]]);
    }
  }

  /** The map says of each slot whether its row is among the kept ones, and then holds that row. */
  ghost predicate Finds(lookup: map<Key, Json>, slots: seq<Key>, rows: seq<Json>, kept: seq<nat>)
    requires |slots| == |rows|
  {
    forall k | 0 <= k < |rows| ::
        (slots[k] in lookup <==> k in kept) && (slots[k] in lookup ==> lookup[slots[k]] == rows[k])
  }

  lemma SomeRowsFind(f: Files, rows: seq<Json>, report: Json, kept: seq<nat>) returns (lookup: map<Key, Json>)
    requires Finished(f, rows, report) && Places(kept, |rows|)
    ensures Lookup(f, Pick(rows, kept), |kept|) == Ok(lookup) && Finds(lookup, Schedule(f), rows, kept)
  {
    var some, slots := Pick(rows, kept), Schedule(f);
    PickedIsSlotted(f, rows, report, kept);
    lookup := LookupFinds(f, some, Pick(slots, kept), |kept|);
    SlotsAreDistinct(f, f.trials);
    forall k | 0 <= k < |rows| ensures (slots[k] in lookup <==> k in kept)
        && (slots[k] in lookup ==> lookup[slots[k]] == rows[k]) {
      SlotIsFound(lookup, some, slots, rows, kept, k);
    }
  }

  lemma FoundIsLookup(f: Files, journal: seq<byte>, rows: seq<Json>)
    requires ReadsAs(f.codec, journal, rows)
    ensures Found(f, journal) == Lookup(f, rows, |rows|)
  {}

  /** What the cut journal of a finished campaign says about its slots. */
  lemma CutJournalFinds(f: Files, rows: seq<Json>, report: Json, kept: seq<nat>, n: nat)
    returns (seen: nat, lookup: map<Key, Json>)
    requires Finished(f, rows, report) && Places(kept, |rows|) && n <= |Text(f.codec, Pick(rows, kept))|
    ensures Survive(f.codec, Pick(rows, kept), n, seen)
    ensures Found(f, Text(f.codec, Pick(rows, kept))[..n]) == Ok(lookup)
              && Finds(lookup, Schedule(f), rows, kept[..seen])
  {
    var some := Pick(rows, kept);
    PickedIsSlotted(f, rows, report, kept);
    seen := CutJournalReads(f.codec, some, n);
    assert some[..seen] == Pick(rows, kept[..seen]);
    lookup := ReadRowsFind(f, rows, report, kept[..seen], Text(f.codec, some)[..n]);
  }

  lemma ReadRowsFind(f: Files, rows: seq<Json>, report: Json, kept: seq<nat>, journal: seq<byte>)
    returns (lookup: map<Key, Json>)
    requires Finished(f, rows, report) && Places(kept, |rows|) && ReadsAs(f.codec, journal, Pick(rows, kept))
    ensures Found(f, journal) == Ok(lookup) && Finds(lookup, Schedule(f), rows, kept)
  {
    lookup := SomeRowsFind(f, rows, report, kept);
    FoundIsLookup(f, journal, Pick(rows, kept));
  }

  lemma SlotIsFound(lookup: map<Key, Json>, some: seq<Json>, slots: seq<Key>, rows: seq<Json>, kept: seq<nat>, k: nat)
    requires |slots| == |rows| && Distinct(slots) && Places(kept, |rows|) && k < |rows| && some == Pick(rows, kept)
    requires Indexes(lookup, some, Pick(slots, kept), |kept|)
    ensures slots[k] in lookup <==> k in kept
    ensures slots[k] in lookup ==> lookup[slots[k]] == rows[k]
  {
    if slots[k] in lookup {
      var i :| 0 <= i < |kept| && Pick(slots, kept)[i] == slots[k];
      assert kept[i] == k;
    }
    if k in kept {
      var i :| 0 <= i < |kept| && kept[i] == k;
      assert Pick(slots, kept)[i] == slots[k];
    }
  }

  /** What a successful recovery of the rows gives, when the rows at `read` are those the journal still shows. */
  ghost predicate Restores(f: Files, rows: seq<Json>, read: seq<nat>, r: Recovered)
    requires |rows| == |Schedule(f)|
  {
    && |r.rows| == |rows|
    && (forall k | 0 <= k < |rows| :: Stripped(r.rows[k]) == rows[k])
    && (forall k | 0 <= k < |rows| :: r.rows[k] ==
          if k in read then rows[k] else Marked(rows[k], f.digest(SourceBytes(f, Schedule(f)[k]))))
    && (forall k | 0 <= k < |rows| :: Schedule(f)[k] in r.missing <==> k !in read)
  }

  lemma FoundRestores(f: Files, rows: seq<Json>, report: Json, journal: seq<byte>, lookup: map<Key, Json>,
                      read: seq<nat>)
    requires Finished(f, rows, report) && AllUnmarked(rows)
    requires Found(f, journal) == Ok(lookup) && Finds(lookup, Schedule(f), rows, read)
    ensures Recover(f, journal, report).Ok? && Restores(f, rows, read, Recover(f, journal, report).value)
  {
    var slots := Schedule(f);
    FinishedRebuilds(f, rows, report, lookup);
    SameIsReflexive(report);
    MissingMembers(lookup, slots);
    forall k | 0 <= k < |rows| ensures Stripped(Restored(f, lookup, slots[k], rows[k])) == rows[k] {
      assert RowIsKept(f, slots[k], rows[k]) && Unmarked(rows[k]);
      MarkersAreIgnored(rows[k], f.digest(SourceBytes(f, slots[k])), slots[k]);
    }
  }

  /**
   Whatever lines of a finished campaign's journal are dropped and wherever its tail is cut,
   recovery succeeds exactly when no row carries a marker name of its own. It then gives back
   every original row in schedule order, and exactly those that the journal had lost are marked;
   otherwise it stops because a record disagrees, even if nothing was dropped or cut.
   */
  lemma RecoveryRestores(f: Files, rows: seq<Json>, report: Json, kept: seq<nat>, n: nat) returns (seen: nat)
    requires Finished(f, rows, report) && Places(kept, |rows|) && n <= |Text(f.codec, Pick(rows, kept))|
    ensures Survive(f.codec, Pick(rows, kept), n, seen)
    ensures var r := Recover(f, Text(f.codec, Pick(rows, kept))[..n], report);
            && (r.Ok? <==> AllUnmarked(rows))
            && (r.Ok? ==> Restores(f, rows, kept[..seen], r.value))
            && (r.Err? ==> r.error == RecordDisagrees)
  {
    var lookup;
    seen, lookup := CutJournalFinds(f, rows, report, kept, n);
    var journal := Text(f.codec, Pick(rows, kept))[..n];
    if AllUnmarked(rows) {
      FoundRestores(f, rows, report, journal, lookup, kept[..seen]);
    } else {
      MarkedCampaignFails(f, rows, report, lookup);
    }
  }

  /** Even of an undamaged journal: recovery accepts it exactly when no row carries a marker name. */
  lemma WholeJournalRecovers(f: Files, rows: seq<Json>, report: Json)
    requires Finished(f, rows, report)
    ensures var r := Recover(f, Text(f.codec, rows), report);
            (r.Ok? <==> AllUnmarked(rows)) && (r.Err? ==> r.error == RecordDisagrees)
  {
    var all := seq(|rows|, (k: nat) => k);
    var text := Text(f.codec, rows);
    assert Pick(rows, all) == rows && text[..|text|] == text;
    var seen := RecoveryRestores(f, rows, report, all, |text|);
  }

  // ---------------------------------------------------------------- recovering twice

  ghost predicate EachRowIs(f: Files, lookup: map<Key, Json>, slots: seq<Key>, k: nat, rows: seq<Json>) {
    |rows| == k <= |slots| && forall i | 0 <= i < k :: RowIs(f, lookup, slots[i], rows[i])
  }

  lemma RebuiltLast(f: Files, lookup: map<Key, Json>, slots: seq<Key>, k: nat, rows: seq<Json>)
    returns (front: seq<Json>, row: Json)
    requires 0 < k && RowsAre(f, lookup, slots, k, rows)
    ensures rows == front + [row] && RowsAre(f, lookup, slots, k - 1, front) && RowIs(f, lookup, slots[k - 1], row)
  {
    front := Rebuilt(f, lookup, slots, k - 1).value;
    row := RowFor(f, lookup, slots[k - 1]).value;
  }

  lemma EachRowNext(f: Files, lookup: map<Key, Json>, slots: seq<Key>, k: nat, front: seq<Json>, row: Json)
    requires k < |slots| && EachRowIs(f, lookup, slots, k, front) && RowIs(f, lookup, slots[k], row)
    ensures EachRowIs(f, lookup, slots, k + 1, front + [row])
  {}

  lemma {:induction false} RebuiltRows(f: Files, lookup: map<Key, Json>, slots: seq<Key>, k: nat, rows: seq<Json>)
    requires RowsAre(f, lookup, slots, k, rows)
    ensures EachRowIs(f, lookup, slots, k, rows)
  {
    if k > 0 {
      var front, row := RebuiltLast(f, lookup, slots, k, rows);
      RebuiltRows(f, lookup, slots, k - 1, front);
      EachRowNext(f, lookup, slots, k - 1, front, row);
    }
  }

  lemma RebuiltRowIsValid(f: Files, lookup: map<Key, Json>, key: Key, row: Json)
    requires RowIs(f, lookup, key, row)
    ensures ValidRecord(row, key)
  {
    if key !in lookup {
      var source := Source(f, lookup, key, RecordOf(f, key).value).value;
      MarkersAreIgnored(source, f.digest(SourceBytes(f, key)), key);
    }
  }

  /** A recovered row passes every check again once the journal holds it, markers and all. */
  lemma RebuiltRowIsStable(f: Files, before: map<Key, Json>, after: map<Key, Json>, key: Key, row: Json)
    requires RowIs(f, before, key, row) && key in after && after[key] == row
    ensures RowIs(f, after, key, row)
  {
    RebuiltRowIsValid(f, before, key, row);
    if key !in before {
      var source := Source(f, before, key, RecordOf(f, key).value).value;
      MarkersAreIgnored(source, f.digest(SourceBytes(f, key)), key);
    }
  }

  lemma {:induction false} NothingMissing(lookup: map<Key, Json>, slots: seq<Key>)
    requires forall k | 0 <= k < |slots| :: slots[k] in lookup
    ensures Missing(lookup, slots) == []
    decreases |slots|
  {
    if slots != [] { NothingMissing(lookup, slots[..|slots| - 1]); }
  }

  lemma WholeTextReads(c: Codec, rows: seq<Json>)
    requires AllEncode(c, rows)
    ensures ReadsAs(c, Text(c, rows), rows)
  {
    CutObserves(c, rows, |rows|, []);
    assert rows[..|rows|] == rows && Text(c, rows) + [] == Text(c, rows);
  }

  lemma RebuiltIsSlotted(f: Files, lookup: map<Key, Json>, rows: seq<Json>)
    requires Shuffles(f) && EachRowIs(f, lookup, Schedule(f), |Schedule(f)|, rows)
    ensures Slotted(f, rows, Schedule(f))
  {
    var slots := Schedule(f);
    SlotsAreDistinct(f, f.trials);
    forall k | 0 <= k < |rows| ensures ValidRecord(rows[k], slots[k]) {
      assert RowIs(f, lookup, slots[k], rows[k]);
      RebuiltRowIsValid(f, lookup, slots[k], rows[k]);
    }
  }

  lemma EachIsStable(f: Files, before: map<Key, Json>, after: map<Key, Json>, slots: seq<Key>, rows: seq<Json>)
    requires EachRowIs(f, before, slots, |slots|, rows) && Indexes(after, rows, slots, |rows|)
    ensures EachRowIs(f, after, slots, |slots|, rows)
  {
    forall k | 0 <= k < |rows| ensures RowIs(f, after, slots[k], rows[k]) {
      assert RowIs(f, before, slots[k], rows[k]);
      RebuiltRowIsStable(f, before, after, slots[k], rows[k]);
    }
  }

  lemma EachRebuilds(f: Files, lookup: map<Key, Json>, slots: seq<Key>, rows: seq<Json>)
    requires EachRowIs(f, lookup, slots, |slots|, rows)
    ensures RowsAre(f, lookup, slots, |slots|, rows)
  {
    AllRebuild(f, lookup, slots, rows, |slots|);
    assert rows[..|slots|] == rows;
  }

  lemma AllIndexed(lookup: map<Key, Json>, slots: seq<Key>, rows: seq<Json>)
    requires |slots| == |rows| && Indexes(lookup, rows, slots, |rows|)
    ensures Missing(lookup, slots) == []
  {
    NothingMissing(lookup, slots);
  }

  lemma RecoveredJournalIsStable(f: Files, before: map<Key, Json>, rows: seq<Json>) returns (after: map<Key, Json>)
    requires Shuffles(f) && AllEncode(f.codec, rows) && RowsAre(f, before, Schedule(f), |Schedule(f)|, rows)
    ensures Found(f, Text(f.codec, rows)) == Ok(after) && Missing(after, Schedule(f)) == []
    ensures RowsAre(f, after, Schedule(f), |Schedule(f)|, rows)
  {
    RebuiltRows(f, before, Schedule(f), |Schedule(f)|, rows);
    RebuiltIsSlotted(f, before, rows);
    WholeTextReads(f.codec, rows);
    FoundIsLookup(f, Text(f.codec, rows), rows);
    after := LookupFinds(f, rows, Schedule(f), |rows|);
    EachIsStable(f, before, after, Schedule(f), rows);
    EachRebuilds(f, after, Schedule(f), rows);
    AllIndexed(after, Schedule(f), rows);
  }

  /** After any successful recovery, whatever the damage was, a second one recovers nothing and keeps every row. */
  lemma SecondRecoveryFindsNothing(f: Files, journal: seq<byte>, report: Json, r: Recovered, report': Json)
    requires Shuffles(f) && Recover(f, journal, report) == Ok(r) && AllEncode(f.codec, r.rows)
    requires Same(f.statistics(Views(r.rows)), report')
    ensures Recover(f, Text(f.codec, r.rows), report') == Ok(Recovered(r.rows, []))
  {
    var after := RecoveredJournalIsStable(f, Found(f, journal).value, r.rows);
  }
}
