/** Load bursts: what one journal line may say, and how its raw requests must account for it. */
module LoadBurst {
  import opened Prelude
  import opened Tolerance

  // ---------------------------------------------------------------- bursts

  datatype Latency = Missing | Null | Number(value: real) | Unusable

  /** One journal line; None stands for an entry that is missing or not of the type the check asks for. */
  datatype Burst = Burst(
    concurrency: Option<int>, warmup: Option<bool>, trial: Option<int>,
    offered: Option<int>, successful: Option<int>, failed: Option<int>,
    duration: Option<real>, meanMs: Latency, evidence: Option<string>,
    policyAllowed: Option<int>, policyDenied: Option<int>, policyUnknown: Option<int>, reason: string)

  datatype Reject =
    | Concurrency | NotMeasured | BadCounts | CountsDisagree | BadDuration | CrashClaims
    | VerdictsDisagree | BadLatency | Requests | Levels | NotPinned | DuplicateLevel | RequestsNotPinned | NoOuter

  const CRASH := "trial-crash"

  predicate Natural(n: Option<int>) {
    n.Some? && n.value >= 0
  }

  predicate Crashed(row: Burst) {
    row.evidence == Some(CRASH)
  }

  /** None when the line is accepted. */
  function ValidateBurst(row: Burst, levels: seq<int>): Option<Reject> {
    if row.concurrency == None || row.concurrency.value !in levels then Some(Concurrency)
    else if row.warmup != Some(false) || row.trial != Some(0) then Some(NotMeasured)
    else if !Natural(row.offered) || !Natural(row.successful) || !Natural(row.failed) then Some(BadCounts)
    else if row.offered != row.concurrency || row.successful.value + row.failed.value != row.offered.value then
        Some(CountsDisagree)
    else if row.duration == None || row.duration.value <= 0.0 then Some(BadDuration)
    else if Crashed(row) then
      if row.successful.value != 0 || row.meanMs.Number? || row.meanMs.Unusable? then Some(CrashClaims) else None
    else if !Natural(row.policyAllowed) || !Natural(row.policyDenied) || !Natural(row.policyUnknown)
            || row.policyAllowed.value + row.policyDenied.value + row.policyUnknown.value != row.successful.value then
                Some(VerdictsDisagree)
    else if row.successful.value != 0 then
      if !row.meanMs.Number? || row.meanMs.value < 0.0 then Some(BadLatency) else None
    else if row.meanMs.Number? || row.meanMs.Unusable? then Some(BadLatency)
    else None
  }

  /** A finished burst whose client can speak for its requests. */
  predicate Finished(row: Burst, levels: seq<int>) {
    ValidateBurst(row, levels) == None && !Crashed(row)
  }

  // ---------------------------------------------------------------- raw requests

  datatype Request = Request(
    recordID: Option<string>, success: Option<bool>, latencyMs: Option<real>,
    transactionID: Option<string>, decision: Option<string>)

  /** `requests` is None when it is not a list. */
  datatype RequestFile = RequestFile(summary: Burst, requests: Option<seq<Request>>)

  datatype Kind = Acknowledged | Lost | Passed | Denied | Undecided

  predicate Is(r: Request, kind: Kind) {
    match kind
    case Acknowledged => r.success == Some(true)
    case Lost => r.success != Some(true)
    case Passed => r.success == Some(true) && r.decision == Some("PASS")
    case Denied => r.success == Some(true) && r.decision == Some("FAIL")
    case Undecided => r.success == Some(true) && r.decision != Some("PASS") && r.decision != Some("FAIL")
  }

  function Count(s: seq<Request>, kind: Kind): nat {
    if s == [] then 0 else Count(s[..|s| - 1], kind) + if Is(s[|s| - 1], kind) then 1 else 0
  }

  function TotalMs(s: seq<Request>): real {
    if s == [] then 0.0
    else TotalMs(s[..|s| - 1]) + (var r := s[|s| - 1]; if Is(r, Acknowledged) && r.latencyMs.Some? then
        r.latencyMs.value else 0.0)
  }

  /** Every request is acknowledged or lost, and every acknowledged one has exactly one verdict. */
  lemma {:induction false} KindsPartition(s: seq<Request>)
    ensures Count(s, Acknowledged) + Count(s, Lost) == |s|
    ensures Count(s, Passed) + Count(s, Denied) + Count(s, Undecided) == Count(s, Acknowledged)
    decreases |s|
  {
    if s != [] { KindsPartition(s[..|s| - 1]); }
  }

  predicate RequestOk(r: Request) {
    && r.recordID.Some? && r.recordID.value != "" && r.success.Some?
    && r.latencyMs.Some? && r.latencyMs.value >= 0.0
    && (r.success.value ==> r.transactionID.Some? && r.transactionID.value != "")
  }

  predicate AllOk(s: seq<Request>) {
    forall k | 0 <= k < |s| :: RequestOk(s[k])
  }

  predicate UniqueIds(s: seq<Request>) {
    forall i, j | 0 <= i < j < |s| :: s[i].recordID != s[j].recordID
  }

  /** The journal line and the summary kept with the requests agree; the line must hold every entry. */
  predicate SameFields(summary: Burst, row: Burst) {
    && summary.concurrency == row.concurrency && summary.offered == row.offered
    && summary.successful == row.successful && summary.failed == row.failed
    && summary.policyAllowed == row.policyAllowed && summary.policyDenied == row.policyDenied
    && summary.policyUnknown == row.policyUnknown && summary.duration == row.duration
    && !row.meanMs.Missing? && (summary.meanMs == row.meanMs || (summary.meanMs.Missing? && row.meanMs.Null?))
    && row.evidence.Some? && summary.evidence == row.evidence
  }

  predicate MeanAgrees(s: seq<Request>, row: Burst) {
    Count(s, Acknowledged) > 0 ==>
        row.meanMs.Number? && Close(TotalMs(s) / Count(s, Acknowledged) as real, row.meanMs.value)
  }

  /** The requests account for the burst: counted over the raw list, not over the summary. */
  predicate Accounts(s: seq<Request>, row: Burst) {
    && row.offered == Some(|s|)
    && row.successful == Some(Count(s, Acknowledged)) && row.failed == Some(Count(s, Lost))
    && row.policyAllowed == Some(Count(s, Passed)) && row.policyDenied == Some(Count(s, Denied))
    && row.policyUnknown == Some(Count(s, Undecided))
    && MeanAgrees(s, row)
  }

  predicate RequestsOk(file: RequestFile, row: Burst) {
    && SameFields(file.summary, row) && file.requests.Some?
    && AllOk(file.requests.value) && UniqueIds(file.requests.value)
    && Accounts(file.requests.value, row)
  }

  /** The acknowledged requests of a list, in order. */
  function Kept(s: seq<Request>): seq<Request> {
    if s == [] then [] else Kept(s[..|s| - 1]) + if Is(s[|s| - 1], Acknowledged) then [s[|s| - 1]] else []
  }

  lemma CountNext(s: seq<Request>, r: Request, kind: Kind)
    ensures Count(s + [r], kind) == Count(s, kind) + if Is(r, kind) then 1 else 0
    ensures TotalMs(s + [r]) == TotalMs(s) + if Is(r, Acknowledged) && r.latencyMs.Some? then r.latencyMs.value else 0.0
  {
    assert (s + [r])[..|s|] == s;
  }

  /** Counting verdicts among the acknowledged ones is counting them among all. */
  lemma {:induction false} KeptCounts(s: seq<Request>, kind: Kind)
    requires kind != Lost
    ensures Count(Kept(s), kind) == Count(s, kind) && |Kept(s)| == Count(s, Acknowledged)
    ensures TotalMs(Kept(s)) == TotalMs(s)
    decreases |s|
  {
    if s != [] {
      var front, r := s[..|s| - 1], s[|s| - 1];
      KeptCounts(front, kind);
      if Is(r, Acknowledged) { CountNext(Kept(front), r, kind); } else { assert Kept(s) == Kept(front); }
    }
  }

  /** The requests read so far are sound and those acknowledged have been kept. */
  method ReadRequests(s: seq<Request>) returns (kept: Option<seq<Request>>)
    ensures kept.Some? <==> AllOk(s) && UniqueIds(s)
    ensures kept.Some? ==> kept.value == Kept(s)
  {
    var ids, acknowledged := {}, [];
    for k := 0 to |s|
      invariant AllOk(s[..k]) && UniqueIds(s[..k]) && acknowledged == Kept(s[..k])
      invariant forall id :: id in ids <==> exists j | 0 <= j < k :: s[j].recordID == Some(id)
    {
      var r := s[k];
      assert s[..k + 1][..k] == s[..k];
      if r.recordID == None || r.recordID.value == "" { return None; }
      if r.recordID.value in ids { return None; }
      ids := ids + {r.recordID.value};
      if r.success == None || r.latencyMs == None || r.latencyMs.value < 0.0 { return None; }
      if r.success.value {
        if r.transactionID == None || r.transactionID.value == "" { return None; }
        acknowledged := acknowledged + [r];
      }
    }
    assert s[..|s|] == s;
    kept := Some(acknowledged);
  }

  method VerifyRequests(file: RequestFile, row: Burst, ghost levels: seq<int>) returns (ok: bool)
    requires Finished(row, levels)
    ensures ok <==> RequestsOk(file, row)
  {
    if file.requests == None || |file.requests.value| != row.offered.value { return false; }
    if !SameFields(file.summary, row) { return false; }
    var s := file.requests.value;
    var kept := ReadRequests(s);
    if kept == None { return false; }
    var acknowledged := kept.value;
    KindsPartition(s);
    KeptCounts(s, Passed);
    KeptCounts(s, Denied);
    if |acknowledged| != row.successful.value { return false; }
    var passed, denied := Count(acknowledged, Passed), Count(acknowledged, Denied);
    if passed != row.policyAllowed.value || denied != row.policyDenied.value
       || |acknowledged| - (passed + denied) != row.policyUnknown.value { return false; }
    ok := |acknowledged| > 0 ==> Close(TotalMs(acknowledged) / |acknowledged| as real, row.meanMs.value);
  }
}
