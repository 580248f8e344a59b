/** What an accepted load burst is, entry by entry and request by request, without the checking functions. */
module LoadMeaning {
  import opened Prelude
  import opened Tolerance
  import opened LoadBurst

  // ---------------------------------------------------------------- the journal line

  predicate NoNumber(m: Latency) {
    m == Latency.Missing || m == Null
  }

  /** A finished client: its verdicts add up, and it has a mean exactly if something was acknowledged. */
  ghost predicate SpeaksForItself(row: Burst, confirmed: int) {
    && (exists p, d, u :: row.policyAllowed == Some(p) && row.policyDenied == Some(d) && row.policyUnknown == Some(u)
                          && p >= 0 && d >= 0 && u >= 0 && p + d + u == confirmed)
    && if confirmed == 0 then NoNumber(row.meanMs) else exists ms :: row.meanMs == Number(ms) && ms >= 0.0
  }

  /** One measured burst of a planned level, whose requests were all confirmed or failed within some time. */
  ghost predicate IsBurst(row: Burst, levels: seq<int>) {
    exists level, confirmed, failed, seconds ::
      && level in levels && row.concurrency == Some(level) && row.offered == Some(level)
      && row.warmup == Some(false) && row.trial == Some(0)
      && row.successful == Some(confirmed) && row.failed == Some(failed)
      && confirmed >= 0 && failed >= 0 && confirmed + failed == level
      && row.duration == Some(seconds) && seconds > 0.0
      && if row.evidence == Some("trial-crash") then confirmed == 0 && NoNumber(row.meanMs)
         else SpeaksForItself(row, confirmed)
  }

  lemma VerdictsMean(row: Burst, confirmed: int)
    ensures SpeaksForItself(row, confirmed) <==>
            && Natural(row.policyAllowed) && Natural(row.policyDenied) && Natural(row.policyUnknown)
            && row.policyAllowed.value + row.policyDenied.value + row.policyUnknown.value == confirmed
            && if confirmed == 0 then NoNumber(row.meanMs) else row.meanMs.Number? && row.meanMs.value >= 0.0
  {
    if row.policyAllowed.Some? && row.policyDenied.Some? && row.policyUnknown.Some? {
      assert row.policyAllowed == Some(row.policyAllowed.value) && row.policyDenied == Some(row.policyDenied.value)
             && row.policyUnknown == Some(row.policyUnknown.value);
    }
    if row.meanMs.Number? { assert row.meanMs == Number(row.meanMs.value); }
  }

  /** A line is taken exactly if it is such a burst. */
  lemma BurstMeans(row: Burst, levels: seq<int>)
    ensures ValidateBurst(row, levels) == None <==> IsBurst(row, levels)
  {
    if row.successful.Some? { VerdictsMean(row, row.successful.value); }
    if ValidateBurst(row, levels) == None {
      assert row.concurrency == Some(row.concurrency.value) && row.successful == Some(row.successful.value)
             && row.failed == Some(row.failed.value) && row.duration == Some(row.duration.value);
    }
  }

  // ---------------------------------------------------------------- the raw requests

  /** The places of the confirmed requests, of those not confirmed, and of the confirmed ones with this decision. */
  function Confirmed(s: seq<Request>): set<int> {
    set k | 0 <= k < |s| && s[k].success == Some(true)
  }

  function Unconfirmed(s: seq<Request>): set<int> {
    set k | 0 <= k < |s| && s[k].success != Some(true)
  }

  function Decided(s: seq<Request>, decision: string): set<int> {
    set k | 0 <= k < |s| && s[k].success == Some(true) && s[k].decision == Some(decision)
  }

  function Places(s: seq<Request>, kind: Kind): set<int> {
    set k | 0 <= k < |s| && Is(s[k], kind)
  }

  lemma OneMorePlace(front: seq<Request>, r: Request, kind: Kind)
    ensures |Places(front + [r], kind)| == |Places(front, kind)| + if Is(r, kind) then 1 else 0
  {
    var s := front + [r];
    assert Places(s, kind) == Places(front, kind) + if Is(r, kind) then {|front|} else {};
  }

  lemma {:induction false} CountIsPlaces(s: seq<Request>, kind: Kind)
    ensures Count(s, kind) == |Places(s, kind)|
    decreases |s|
  {
    if s != [] {
      var n := |s| - 1;
      CountIsPlaces(s[..n], kind);
      OneMorePlace(s[..n], s[n], kind);
      assert s == s[..n] + [s[n]];
    }
  }

  lemma KindsArePlaces(s: seq<Request>)
    ensures Places(s, Acknowledged) == Confirmed(s) && Places(s, Lost) == Unconfirmed(s)
    ensures Places(s, Passed) == Decided(s, "PASS") && Places(s, Denied) == Decided(s, "FAIL")
    ensures Places(s, Undecided) == Confirmed(s) - Decided(s, "PASS") - Decided(s, "FAIL")
  {}

  ghost predicate NamesTransaction(r: Request) {
    exists tx :: r.transactionID == Some(tx) && |tx| > 0
  }

  lemma TransactionMeans(r: Request)
    ensures NamesTransaction(r) <==> r.transactionID.Some? && r.transactionID.value != ""
  {
    if r.transactionID.Some? { assert r.transactionID == Some(r.transactionID.value); }
  }

  /** Under its own id, with a latency; a confirmed one also with the transaction it was confirmed under. */
  ghost predicate IsRequest(r: Request) {
    exists id, ok, ms ::
      && r.recordID == Some(id) && r.success == Some(ok) && r.latencyMs == Some(ms) && |id| > 0 && ms >= 0.0
      && (ok ==> NamesTransaction(r))
  }

  lemma RequestMeans(r: Request)
    ensures RequestOk(r) <==> IsRequest(r)
  {
    TransactionMeans(r);
    if RequestOk(r) {
      var id, ok, ms := r.recordID.value, r.success.value, r.latencyMs.value;
      assert r.recordID == Some(id) && r.success == Some(ok) && r.latencyMs == Some(ms) && |id| > 0 && ms >= 0.0
             && (ok ==> NamesTransaction(r));
    }
  }

  /** The summary kept with the requests repeats the line, where a missing mean may stand for none. */
  predicate Repeats(summary: Burst, row: Burst) {
    && summary.(warmup := row.warmup, trial := row.trial, reason := row.reason, meanMs := row.meanMs) == row
    && row.evidence != None && row.meanMs != Latency.Missing
    && (summary.meanMs == row.meanMs || (summary.meanMs == Latency.Missing && row.meanMs == Null))
  }

  lemma RepeatsMeans(summary: Burst, row: Burst)
    ensures SameFields(summary, row) <==> Repeats(summary, row)
  {}

  /** Each number of the line is the number of requests it stands for, and its mean is theirs. */
  ghost predicate Tallies(s: seq<Request>, row: Burst) {
    && row.offered == Some(|s|) && row.successful == Some(|Confirmed(s)|) && row.failed == Some(|Unconfirmed(s)|)
    && row.policyAllowed == Some(|Decided(s, "PASS")|) && row.policyDenied == Some(|Decided(s, "FAIL")|)
    && row.policyUnknown == Some(|Confirmed(s) - Decided(s, "PASS") - Decided(s, "FAIL")|)
    && (Confirmed(s) != {} ==>
          exists mean :: row.meanMs == Number(mean) && Close(TotalMs(s) / |Confirmed(s)| as real, mean))
  }

  ghost predicate IsBackedBy(file: RequestFile, row: Burst) {
    && Repeats(file.summary, row) && file.requests.Some?
    && var s := file.requests.value;
       && Tallies(s, row)
       && (forall k | 0 <= k < |s| :: IsRequest(s[k]))
       && (forall i, j | 0 <= i < |s| && 0 <= j < |s| && s[i].recordID == s[j].recordID :: i == j)
  }

  lemma TalliesMean(s: seq<Request>, row: Burst)
    ensures Accounts(s, row) <==> Tallies(s, row)
  {
    KindsArePlaces(s);
    forall kind ensures Count(s, kind) == |Places(s, kind)| { CountIsPlaces(s, kind); }
    if row.meanMs.Number? { assert row.meanMs == Number(row.meanMs.value); }
  }

  lemma AllMean(s: seq<Request>)
    ensures AllOk(s) <==> forall k | 0 <= k < |s| :: IsRequest(s[k])
  {
    forall k | 0 <= k < |s| ensures RequestOk(s[k]) <==> IsRequest(s[k]) { RequestMeans(s[k]); }
  }

  lemma UniqueMeans(s: seq<Request>)
    ensures UniqueIds(s) <==> forall i, j | 0 <= i < |s| && 0 <= j < |s| && s[i].recordID == s[j].recordID :: i == j
  {}

  /** A request file backs a line exactly in this sense. */
  lemma RequestsMean(file: RequestFile, row: Burst)
    ensures RequestsOk(file, row) <==> IsBackedBy(file, row)
  {
    RepeatsMeans(file.summary, row);
    if file.requests.Some? {
      var s := file.requests.value;
      TalliesMean(s, row);
      AllMean(s);
      UniqueMeans(s);
    }
  }

  /** The latencies added up lie between as many times the least and as many times the greatest. */
  lemma {:induction false} TotalIsBetween(s: seq<Request>, least: real, greatest: real)
    requires forall k | 0 <= k < |s| && s[k].success == Some(true) ::
               s[k].latencyMs.Some? && least <= s[k].latencyMs.value <= greatest
    ensures least * Count(s, Acknowledged) as real <= TotalMs(s) <= greatest * Count(s, Acknowledged) as real
    decreases |s|
  {
    if s != [] {
      var n := |s| - 1;
      TotalIsBetween(s[..n], least, greatest);
      if s[n].success == Some(true) {
        OneMoreBetween(Count(s[..n], Acknowledged), TotalMs(s[..n]), s[n].latencyMs.value, least, greatest);
      }
    }
  }

  lemma OneMoreBetween(n: nat, total: real, x: real, least: real, greatest: real)
    requires least * n as real <= total <= greatest * n as real && least <= x <= greatest
    ensures least * (n + 1) as real <= total + x <= greatest * (n + 1) as real
  {
    Distribute(least, n);
    Distribute(greatest, n);
  }

  lemma Distribute(x: real, n: nat)
    ensures x * (n + 1) as real == x * n as real + x
  {}
}
