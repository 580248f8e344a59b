/** The counts of a campaign summary and the paired differences between two variants. */
module TrialSummary {
  import opened Prelude
  import opened Json
  import opened Recovery
  import opened RecoveryProofs

  // ---------------------------------------------------------------- counting rows

  datatype Which = Warmup | Measured | Good

  predicate IsOf(row: Json, name: string, which: Which) {
    && At(row, "variant") == Str(name)
    && match which
       case Warmup => At(row, "warmup") == Bool(true)
       case Measured => At(row, "warmup") != Bool(true)
       case Good => At(row, "warmup") != Bool(true) && Successful(row)
  }

  function Tally(rows: seq<Json>, name: string, which: Which): nat {
    if rows == [] then 0 else Tally(rows[..|rows| - 1], name, which) + if IsOf(rows[|rows| - 1], name, which) then
        1 else 0
  }

  /** Slots of a variant, before or from trial zero on. */
  function SlotTally(slots: seq<Key>, name: string, warmup: bool): nat {
    if slots == [] then 0
    else
      var key := slots[|slots| - 1];
      SlotTally(slots[..|slots| - 1], name, warmup) + if key.variant == name && (key.trial < 0) == warmup then 1 else 0
  }

  lemma {:induction false} SlotTallyOfBoth(a: seq<Key>, b: seq<Key>, name: string, warmup: bool)
    ensures SlotTally(a + b, name, warmup) == SlotTally(a, name, warmup) + SlotTally(b, name, warmup)
    decreases |b|
  {
    if b == [] {
      assert a + b == a;
    } else {
      SlotTallyOfBoth(a, b[..|b| - 1], name, warmup);
      assert (a + b)[..|a + b| - 1] == a + b[..|b| - 1];
    }
  }

  lemma {:induction false} BlockTally(names: seq<string>, trial: int, name: string, warmup: bool)
    ensures SlotTally(Block(names, trial), name, warmup) == if (trial < 0) == warmup then multiset(names)[name] else 0
    decreases |names|
  {
    var block := Block(names, trial);
    if names != [] {
      var n := |names| - 1;
      BlockTally(names[..n], trial, name, warmup);
      assert block[..n] == Block(names[..n], trial);
      assert names == names[..n] + [names[n]];
    }
  }

  /** A shuffled schedule holds every variant once a trial. */
  lemma {:induction false} SlotsTally(f: Files, upTo: int, name: string)
    requires Shuffles(f) && name in f.names && 0 - f.warmups <= upTo <= f.trials
    ensures SlotTally(Slots(f, upTo), name, true) == f.warmups + if upTo < 0 then upTo else 0
    ensures SlotTally(Slots(f, upTo), name, false) == if upTo < 0 then 0 else upTo
    decreases upTo + f.warmups
  {
    if upTo > 0 - f.warmups {
      var t := upTo - 1;
      SlotsTally(f, t, name);
      MultisetCounts(f.names, name);
      forall warmup ensures SlotTally(Slots(f, upTo), name, warmup) ==
                            SlotTally(Slots(f, t), name, warmup) + if (t < 0) == warmup then 1 else 0 {
        BlockTally(f.order(t), t, name, warmup);
        SlotTallyOfBoth(Slots(f, t), Block(f.order(t), t), name, warmup);
      }
    }
  }

  /** Rows in their slots are counted like the slots. */
  lemma {:induction false} RowsTally(rows: seq<Json>, slots: seq<Key>, name: string)
    requires |rows| == |slots| && forall k | 0 <= k < |rows| :: ValidRecord(rows[k], slots[k])
    ensures Tally(rows, name, Warmup) == SlotTally(slots, name, true)
    ensures Tally(rows, name, Measured) == SlotTally(slots, name, false)
    decreases |rows|
  {
    if rows != [] {
      var n := |rows| - 1;
      RowsTally(rows[..n], slots[..n], name);
      assert ValidRecord(rows[n], slots[n]);
    }
  }

  /** A finished campaign has every measured trial and every warm-up of every variant. */
  lemma FinishedTallies(f: Files, rows: seq<Json>, report: Json, name: string)
    requires Finished(f, rows, report) && name in f.names
    ensures Tally(rows, name, Measured) == f.trials && Tally(rows, name, Warmup) == f.warmups
  {
    var slots := Schedule(f);
    forall k | 0 <= k < |rows| ensures ValidRecord(rows[k], slots[k]) { assert RowIsKept(f, slots[k], rows[k]); }
    RowsTally(rows, slots, name);
    SlotsTally(f, f.trials, name);
  }

  lemma {:induction false} GoodIsMeasured(rows: seq<Json>, name: string)
    ensures Tally(rows, name, Good) <= Tally(rows, name, Measured)
    ensures Tally(rows, name, Good) == Tally(rows, name, Measured) <==>
              forall k | 0 <= k < |rows| && IsOf(rows[k], name, Measured) :: Successful(rows[k])
    decreases |rows|
  {
    if rows != [] {
      var n := |rows| - 1;
      GoodIsMeasured(rows[..n], name);
      assert forall k | 0 <= k < n :: rows[..n][k] == rows[k];
    }
  }

  // ---------------------------------------------------------------- one variant

  datatype Summary = Summary(measured: nat, successful: nat, warmups: nat, failed: nat)

  method SummarizeVariant(rows: seq<Json>, name: string) returns (s: Summary)
    ensures s.measured == Tally(rows, name, Measured) && s.successful == Tally(rows, name, Good)
    ensures s.warmups == Tally(rows, name, Warmup)
    ensures s.successful + s.failed == s.measured
    ensures s.failed == 0 <==> forall k | 0 <= k < |rows| && IsOf(rows[k], name, Measured) :: Successful(rows[k])
  {
    var measured, good, warmups := 0, 0, 0;
    for k := 0 to |rows|
      invariant measured == Tally(rows[..k], name, Measured) && good == Tally(rows[..k], name, Good)
      invariant warmups == Tally(rows[..k], name, Warmup)
    {
      assert rows[..k + 1][..k] == rows[..k];
      if IsOf(rows[k], name, Warmup) { warmups := warmups + 1; }
      if IsOf(rows[k], name, Measured) { measured := measured + 1; }
      if IsOf(rows[k], name, Good) { good := good + 1; }
    }
    assert rows[..|rows|] == rows;
    GoodIsMeasured(rows, name);
    s := Summary(measured, good, warmups, measured - good);
  }

  // ---------------------------------------------------------------- paired differences

  predicate IsMeasured(row: Json) {
    At(row, "warmup") != Bool(true)
  }

  /** No measured slot occurs twice. */
  predicate SlotsOnce(rows: seq<Json>) {
    forall i, j | 0 <= i < j < |rows| && IsMeasured(rows[i]) && IsMeasured(rows[j]) ::
      !(At(rows[i], "variant") == At(rows[j], "variant") && At(rows[i], "trial") == At(rows[j], "trial"))
  }

  predicate IsTrial(row: Json, name: string, trial: int) {
    IsMeasured(row) && At(row, "variant") == Str(name) && KeyOf(row) == Some(Key(name, trial))
  }

  /** What a row contributes to a metric: nothing when the trial failed or did not measure it. */
  function Reading(row: Json, metric: string): Option<real> {
    var metrics := At(row, "metrics");
    if Successful(row) && metrics.Obj? && metric in metrics.fields && metrics.fields[metric].Num?
    then Some(metrics.fields[metric].value) else None
  }

  /** The reading of a variant in a trial; None when there is no such row or it reads nothing. */
  function ReadingAt(rows: seq<Json>, name: string, trial: int, metric: string): Option<real> {
    if rows == [] then None
    else if IsTrial(rows[|rows| - 1], name, trial) then Reading(rows[|rows| - 1], metric)
    else ReadingAt(rows[..|rows| - 1], name, trial, metric)
  }

  datatype Pairs = Pairs(differences: seq<real>, missing: seq<int>, complete: bool)

  function Difference(rows: seq<Json>, control: string, treatment: string, metric: string, trial: int): Option<real> {
    match (ReadingAt(rows, control, trial, metric), ReadingAt(rows, treatment, trial, metric))
    case (Some(a), Some(b)) => Some(b - a)
    case _ => None
  }

  function Paired(rows: seq<Json>, control: string, treatment: string, metric: string, n: nat): seq<real> {
    if n == 0 then []
    else
      var d := Difference(rows, control, treatment, metric, n - 1);
      Paired(rows, control, treatment, metric, n - 1) + if d.Some? then [d.value] else []
  }

  function Unpaired(rows: seq<Json>, control: string, treatment: string, metric: string, n: nat): seq<int> {
    if n == 0 then []
    else
      Unpaired(rows, control, treatment, metric, n - 1)
      + if Difference(rows, control, treatment, metric, n - 1) == None then [n - 1] else []
  }

  /** Every expected trial is paired or missing, never both. */
  lemma {:induction false} PairsPartition(rows: seq<Json>, control: string, treatment: string, metric: string, n: nat)
    ensures |Paired(rows, control, treatment, metric, n)| + |Unpaired(rows, control, treatment, metric, n)| == n
    ensures forall t :: t in Unpaired(rows, control, treatment, metric, n) <==>
                          0 <= t < n && Difference(rows, control, treatment, metric, t) == None
  {
    if n > 0 { PairsPartition(rows, control, treatment, metric, n - 1); }
  }

  predicate AllPaired(rows: seq<Json>, control: string, treatment: string, metric: string, n: nat) {
    forall t | 0 <= t < n :: Difference(rows, control, treatment, metric, t).Some?
  }

  lemma CompleteMeansNoneMissing(rows: seq<Json>, control: string, treatment: string, metric: string, n: nat)
    ensures Unpaired(rows, control, treatment, metric, n) == [] <==> AllPaired(rows, control, treatment, metric, n)
  {
    PairsPartition(rows, control, treatment, metric, n);
    var missing := Unpaired(rows, control, treatment, metric, n);
    if missing != [] {
      assert missing[0] in missing;
    } else {
      forall t | 0 <= t < n ensures Difference(rows, control, treatment, metric, t).Some? { assert t !in missing; }
    }
  }

  /** Exchanging control and treatment negates every difference and misses the same trials. */
  lemma {:induction false} PairsExchange(rows: seq<Json>, control: string, treatment: string, metric: string, n: nat)
    ensures var there, back := Paired(rows, control, treatment, metric, n), Paired(rows, treatment, control, metric, n);
            |there| == |back| && forall k | 0 <= k < |there| :: back[k] == 0.0 - there[k]
    ensures Unpaired(rows, treatment, control, metric, n) == Unpaired(rows, control, treatment, metric, n)
  {
    if n > 0 { PairsExchange(rows, control, treatment, metric, n - 1); }
  }

  // ---------------------------------------------------------------- pairs, row by row

  /** The row is the measured, successful one of this variant and trial, and reads `x` for the metric. */
  predicate Measures(row: Json, name: string, trial: int, metric: string, x: real) {
    && row.Obj? && {"variant", "trial", "successful", "metrics"} <= row.fields.Keys
    && row.fields["variant"] == Str(name) && row.fields["trial"] == Num(trial as real, true)
    && !("warmup" in row.fields && row.fields["warmup"] == Bool(true)) && row.fields["successful"] == Bool(true)
    && row.fields["metrics"].Obj? && metric in row.fields["metrics"].fields
    && row.fields["metrics"].fields[metric].Num? && row.fields["metrics"].fields[metric].value == x
  }

  lemma RowMeasures(row: Json, name: string, trial: int, metric: string, x: real)
    ensures Measures(row, name, trial, metric, x) <==> IsTrial(row, name, trial) && Reading(row, metric) == Some(x)
  {
    assert (trial as real).Floor == trial;
  }

  ghost predicate SomeRowMeasures(rows: seq<Json>, name: string, trial: int, metric: string, x: real) {
    exists k :: 0 <= k < |rows| && Measures(rows[k], name, trial, metric, x)
  }

  lemma OneRowOfTrial(rows: seq<Json>, i: nat, j: nat, name: string, trial: int)
    requires SlotsOnce(rows) && i < j < |rows|
    ensures !(IsTrial(rows[i], name, trial) && IsTrial(rows[j], name, trial))
  {}

  /** With every slot at most once, the reading is that of the one row there is. */
  lemma {:induction false} ReadingMeans(rows: seq<Json>, name: string, trial: int, metric: string, x: real)
    requires SlotsOnce(rows)
    ensures ReadingAt(rows, name, trial, metric) == Some(x) <==> SomeRowMeasures(rows, name, trial, metric, x)
    decreases |rows|
  {
    if rows != [] {
      var n := |rows| - 1;
      RowMeasures(rows[n], name, trial, metric, x);
      ReadingMeans(rows[..n], name, trial, metric, x);
      if k :| 0 <= k < n && Measures(rows[k], name, trial, metric, x) {
        RowMeasures(rows[k], name, trial, metric, x);
        OneRowOfTrial(rows, k, n, name, trial);
        assert Measures(rows[..n][k], name, trial, metric, x);
      }
      if SomeRowMeasures(rows[..n], name, trial, metric, x) {
        var k :| 0 <= k < n && Measures(rows[..n][k], name, trial, metric, x);
        assert Measures(rows[k], name, trial, metric, x);
      }
    }
  }

  /** In this trial the treatment reads `d` more than the control. */
  ghost predicate PairOf(rows: seq<Json>, control: string, treatment: string, metric: string, trial: int, d: real) {
    exists a, b ::
      && SomeRowMeasures(rows, control, trial, metric, a) && SomeRowMeasures(rows, treatment, trial, metric, b)
      && d == b - a
  }

  lemma DifferenceMeans(rows: seq<Json>, control: string, treatment: string, metric: string, trial: int, d: real)
    requires SlotsOnce(rows)
    ensures Difference(rows, control, treatment, metric, trial) == Some(d) <==>
            PairOf(rows, control, treatment, metric, trial, d)
  {
    forall name, x ensures ReadingAt(rows, name, trial, metric) == Some(x) <==>
                           SomeRowMeasures(rows, name, trial, metric, x) {
      ReadingMeans(rows, name, trial, metric, x);
    }
  }

  /** The differences of these trials, in this order. */
  ghost predicate DifferencesOf(rows: seq<Json>, control: string, treatment: string, metric: string, trials: seq<int>,
                                differences: seq<real>) {
    && |trials| == |differences| && (forall i, j | 0 <= i < j < |trials| :: trials[i] < trials[j])
    && forall k | 0 <= k < |trials| :: PairOf(rows, control, treatment, metric, trials[k], differences[k])
  }

  lemma OneMoreDifference(rows: seq<Json>, control: string, treatment: string, metric: string, trials: seq<int>,
                          differences: seq<real>, t: int, d: real)
    requires DifferencesOf(rows, control, treatment, metric, trials, differences)
    requires PairOf(rows, control, treatment, metric, t, d) && forall u | u in trials :: u < t
    ensures DifferencesOf(rows, control, treatment, metric, trials + [t], differences + [d])
  {
    assert forall k | 0 <= k < |trials| :: trials[k] in trials;
  }

  lemma {:induction false} PairedTrials(rows: seq<Json>, control: string, treatment: string, metric: string, n: nat)
    returns (trials: seq<int>)
    requires SlotsOnce(rows)
    ensures DifferencesOf(rows, control, treatment, metric, trials, Paired(rows, control, treatment, metric, n))
    ensures forall t :: t in trials <==> 0 <= t < n && Difference(rows, control, treatment, metric, t).Some?
  {
    trials := [];
    if n > 0 {
      trials := PairedTrials(rows, control, treatment, metric, n - 1);
      var d := Difference(rows, control, treatment, metric, n - 1);
      if d.Some? {
        var before := Paired(rows, control, treatment, metric, n - 1);
        DifferenceMeans(rows, control, treatment, metric, n - 1, d.value);
        OneMoreDifference(rows, control, treatment, metric, trials, before, n - 1, d.value);
        trials := trials + [n - 1];
      }
    }
  }

  /** The rows of one variant by trial; a later row would replace an earlier one. */
  method ByTrial(rows: seq<Json>, name: string, metric: string) returns (index: map<int, Option<real>>)
    ensures forall t :: ReadingAt(rows, name, t, metric) == if t in index then index[t] else None
  {
    index := map[];
    for k := 0 to |rows|
      invariant forall t :: ReadingAt(rows[..k], name, t, metric) == if t in index then index[t] else None
    {
      assert rows[..k + 1][..k] == rows[..k];
      var key := KeyOf(rows[k]);
      if IsMeasured(rows[k]) && key.Some? && key.value.variant == name {
        index := index[key.value.trial := Reading(rows[k], metric)];
      }
    }
    assert rows[..|rows|] == rows;
  }

  /** None when a measured slot occurs twice. */
  method PairedDifferences(rows: seq<Json>, control: string, treatment: string, metric: string, expected: nat)
    returns (r: Option<Pairs>)
    ensures r.Some? <==> SlotsOnce(rows)
    ensures r.Some? ==>
              && r.value.differences == Paired(rows, control, treatment, metric, expected)
              && r.value.missing == Unpaired(rows, control, treatment, metric, expected)
              && |r.value.differences| + |r.value.missing| == expected
              && (r.value.complete <==> AllPaired(rows, control, treatment, metric, expected))
    ensures r.Some? ==> exists trials ::
              && DifferencesOf(rows, control, treatment, metric, trials, r.value.differences)
              && forall t :: 0 <= t < expected <==> t in trials || t in r.value.missing
    ensures r.Some? ==> forall t | t in r.value.missing :: !exists d :: PairOf(rows, control, treatment, metric, t, d)
  {
    if !SlotsOnce(rows) { return None; }
    var a := ByTrial(rows, control, metric);
    var b := ByTrial(rows, treatment, metric);
    var differences, missing := [], [];
    for t := 0 to expected
      invariant differences == Paired(rows, control, treatment, metric, t)
      invariant missing == Unpaired(rows, control, treatment, metric, t)
    {
      assert ReadingAt(rows, control, t, metric) == if t in a then a[t] else None;
      assert ReadingAt(rows, treatment, t, metric) == if t in b then b[t] else None;
      if t !in a || t !in b || a[t] == None || b[t] == None {
        missing := missing + [t];
      } else {
        differences := differences + [b[t].value - a[t].value];
      }
    }
    PairsPartition(rows, control, treatment, metric, expected);
    CompleteMeansNoneMissing(rows, control, treatment, metric, expected);
    ghost var trials := PairedTrials(rows, control, treatment, metric, expected);
    forall t, d | t in missing ensures !PairOf(rows, control, treatment, metric, t, d) {
      DifferenceMeans(rows, control, treatment, metric, t, d);
    }
    r := Some(Pairs(differences, missing, missing == [] && |differences| == expected));
  }
}
