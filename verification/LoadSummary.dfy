/** Load campaigns: every deployment is observed, crashed or missing, and the counts are conserved. */
module LoadSummary {
  import opened Prelude
  import opened LoadBurst
  import opened LoadMeaning

  datatype Journal = Pinned(rows: seq<Burst>) | NotInManifest

  /** One campaign: its variants, and per deployment the journal, the outer outcome and the request files. */
  datatype Campaign = Campaign(
    tasks: seq<string>, trials: nat, journals: map<(string, nat), Journal>,
    requests: map<(string, nat, int), RequestFile>, outer: map<(string, nat), bool>)

  function Rows(c: Campaign, name: string, trial: nat): seq<Burst> {
    if (name, trial) in c.journals && c.journals[(name, trial)].Pinned? then c.journals[(name, trial)].rows else []
  }

  /** What became of one load level in one deployment. */
  datatype Fate = Unseen | Crash(reason: string) | Observed(row: Burst)

  function FateOf(row: Burst): Fate {
    if Crashed(row) then Crash(row.reason) else Observed(row)
  }

  /** The last line for the level decides; accepted journals have one at most. */
  function FateIn(rows: seq<Burst>, level: int): Fate {
    if rows == [] then Unseen
    else if rows[|rows| - 1].concurrency == Some(level) then FateOf(rows[|rows| - 1])
    else FateIn(rows[..|rows| - 1], level)
  }

  function FateAt(c: Campaign, name: string, trial: nat, level: int): Fate {
    FateIn(Rows(c, name, trial), level)
  }

  predicate RowOk(c: Campaign, name: string, trial: nat, levels: seq<int>, row: Burst) {
    && ValidateBurst(row, levels) == None
    && (!Crashed(row) ==>
          && (name, trial, row.concurrency.value) in c.requests
          && RequestsOk(c.requests[(name, trial, row.concurrency.value)], row))
  }

  predicate RowsOk(c: Campaign, name: string, trial: nat, levels: seq<int>, rows: seq<Burst>) {
    forall k | 0 <= k < |rows| :: RowOk(c, name, trial, levels, rows[k])
  }

  predicate LevelsOnce(rows: seq<Burst>) {
    forall i, j | 0 <= i < j < |rows| :: rows[i].concurrency != rows[j].concurrency
  }

  predicate DeploymentOk(c: Campaign, name: string, trial: nat, levels: seq<int>) {
    && !((name, trial) in c.journals && c.journals[(name, trial)].NotInManifest?)
    && RowsOk(c, name, trial, levels, Rows(c, name, trial)) && LevelsOnce(Rows(c, name, trial))
  }

  /** For one variant, by level and deployment. */
  type Observations = map<int, map<int, Burst>>
  type Crashes = map<int, map<int, string>>

  /** The fate once the first `n` journals and `rows` of the next have been read. */
  function FateSoFar(c: Campaign, name: string, n: nat, rows: seq<Burst>, level: int, t: int): Fate {
    if 0 <= t < n then FateAt(c, name, t, level) else if t == n then FateIn(rows, level) else Unseen
  }

  /** The maps say what has been read. */
  ghost predicate Reflects(c: Campaign, name: string, n: nat, rows: seq<Burst>, levels: seq<int>,
                           observed: Observations, crashed: Crashes) {
    forall level | level in levels ::
      && level in observed && level in crashed
      && LevelReflects(c, name, n, rows, level, observed[level], crashed[level])
  }

  ghost predicate LevelReflects(c: Campaign, name: string, n: nat, rows: seq<Burst>, level: int, seen: map<int, Burst>,
                                lost: map<int, string>) {
    forall t ::
      && (t in seen <==> FateSoFar(c, name, n, rows, level, t).Observed?)
      && (t in lost <==> FateSoFar(c, name, n, rows, level, t).Crash?)
      && (t in seen ==> FateSoFar(c, name, n, rows, level, t) == Observed(seen[t]))
      && (t in lost ==> FateSoFar(c, name, n, rows, level, t) == Crash(lost[t]))
  }

  lemma {:induction false} UnseenLevel(rows: seq<Burst>, level: int)
    requires forall j | 0 <= j < |rows| :: rows[j].concurrency != Some(level)
    ensures FateIn(rows, level) == Unseen
    decreases |rows|
  {
    if rows != [] { UnseenLevel(rows[..|rows| - 1], level); }
  }

  lemma FateNext(rows: seq<Burst>, row: Burst, level: int)
    ensures FateIn(rows + [row], level) == if row.concurrency == Some(level) then FateOf(row) else FateIn(rows, level)
  {
    assert (rows + [row])[..|rows|] == rows;
  }

  /** Reading one more line moves only its own level. */
  lemma LineReflects(c: Campaign, name: string, n: nat, rows: seq<Burst>, row: Burst, levels: seq<int>,
                     observed: Observations, crashed: Crashes)
    requires Reflects(c, name, n, rows, levels, observed, crashed) && row.concurrency.Some?
               && row.concurrency.value in levels
    requires forall j | 0 <= j < |rows| :: rows[j].concurrency != row.concurrency
    ensures var level := row.concurrency.value;
            if Crashed(row) then Reflects(c, name, n, rows + [row], levels, observed,
                crashed[level := crashed[level][n := row.reason]])
            else Reflects(c, name, n, rows + [row], levels, observed[level := observed[level][n := row]], crashed)
  {
    UnseenLevel(rows, row.concurrency.value);
    forall level ensures FateIn(rows + [row], level) == if row.concurrency == Some(level) then
        FateOf(row) else FateIn(rows, level) {
      FateNext(rows, row, level);
    }
    forall level | level in levels
      ensures LevelReflects(c, name, n, rows, level, observed[level], crashed[level]) {}
  }

  lemma JournalEnds(c: Campaign, name: string, n: nat, levels: seq<int>, observed: Observations, crashed: Crashes)
    requires Reflects(c, name, n, Rows(c, name, n), levels, observed, crashed)
    ensures Reflects(c, name, n + 1, [], levels, observed, crashed)
  {
    forall level | level in levels ensures LevelReflects(c, name, n + 1, [], level, observed[level], crashed[level]) {
      assert LevelReflects(c, name, n, Rows(c, name, n), level, observed[level], crashed[level]);
      forall t ensures FateSoFar(c, name, n + 1, [], level, t) == FateSoFar(c, name, n, Rows(c, name, n), level, t) {}
    }
  }

  /** One line: its level must be new, and a finished burst must be backed by its requests. */
  method CheckLine(c: Campaign, name: string, trial: nat, levels: seq<int>, row: Burst, seen: set<int>)
    returns (reject: Option<Reject>)
    ensures reject == None <==> RowOk(c, name, trial, levels, row) && row.concurrency.value !in seen
    ensures reject == None <==>
            && IsBurst(row, levels) && row.concurrency.value !in seen
            && (row.evidence == Some("trial-crash")
                || ((name, trial, row.concurrency.value) in c.requests
                    && IsBackedBy(c.requests[(name, trial, row.concurrency.value)], row)))
  {
    BurstMeans(row, levels);
    if row.concurrency.Some? && (name, trial, row.concurrency.value) in c.requests {
      RequestsMean(c.requests[(name, trial, row.concurrency.value)], row);
    }
    reject := ValidateBurst(row, levels);
    if reject.Some? { return; }
    if row.concurrency.value in seen { return Some(DuplicateLevel); }
    if Crashed(row) { return None; }
    if (name, trial, row.concurrency.value) !in c.requests { return Some(RequestsNotPinned); }
    var ok := VerifyRequests(c.requests[(name, trial, row.concurrency.value)], row, levels);
    if !ok { return Some(Requests); }
  }

  /** Files an accepted line under its level and deployment, among the crashed or the observed ones. */
  method TakeLine(c: Campaign, name: string, trial: nat, ghost rows: seq<Burst>, row: Burst, ghost levels: seq<int>,
                  observed: Observations, crashed: Crashes)
    returns (observed': Observations, crashed': Crashes)
    requires Reflects(c, name, trial, rows, levels, observed, crashed)
    requires RowOk(c, name, trial, levels, row) && forall j | 0 <= j < |rows| :: rows[j].concurrency != row.concurrency
    ensures Reflects(c, name, trial, rows + [row], levels, observed', crashed')
  {
    LineReflects(c, name, trial, rows, row, levels, observed, crashed);
    var level := row.concurrency.value;
    observed', crashed' := observed, crashed;
    if Crashed(row) {
      crashed' := crashed[level := crashed[level][trial := row.reason]];
    } else {
      observed' := observed[level := observed[level][trial := row]];
    }
  }

  method ReadJournal(c: Campaign, name: string, trial: nat, levels: seq<int>, observed: Observations, crashed: Crashes)
    returns (reject: Option<Reject>, observed': Observations, crashed': Crashes)
    requires Reflects(c, name, trial, [], levels, observed, crashed)
    ensures reject == None <==> DeploymentOk(c, name, trial, levels)
    ensures reject == None ==> Reflects(c, name, trial + 1, [], levels, observed', crashed')
  {
    observed', crashed' := observed, crashed;
    reject := None;
    if (name, trial) in c.journals && c.journals[(name, trial)].NotInManifest? {
      return Some(NotPinned), observed', crashed';
    }
    var rows, seen: set<int> := Rows(c, name, trial), {};
    for k := 0 to |rows|
      invariant reject == None && RowsOk(c, name, trial, levels, rows[..k]) && LevelsOnce(rows[..k])
      invariant forall level :: level in seen <==> exists j | 0 <= j < k :: rows[j].concurrency == Some(level)
      invariant Reflects(c, name, trial, rows[..k], levels, observed', crashed')
    {
      assert rows[..k + 1] == rows[..k] + [rows[k]];
      reject := CheckLine(c, name, trial, levels, rows[k], seen);
      if reject.Some? { return; }
      observed', crashed' := TakeLine(c, name, trial, rows[..k], rows[k], levels, observed', crashed');
      seen := seen + {rows[k].concurrency.value};
    }
    assert rows[..|rows|] == rows;
    JournalEnds(c, name, trial, levels, observed', crashed');
  }

  // ---------------------------------------------------------------- what is reported

  datatype Group = Group(
    observed: seq<int>, crashed: seq<int>, missing: seq<int>, zero: int, failedOuter: int,
    offered: int, confirmed: int, failed: int, passed: int, denied: int, undecided: int)

  datatype Field = Offered | Successful | Failed | Allowed | Refused | Unknown | Zero

  function Get(row: Burst, f: Field): int {
    var entry := match f
      case Offered => row.offered
      case Successful => row.successful
      case Failed => row.failed
      case Allowed => row.policyAllowed
      case Refused => row.policyDenied
      case Unknown => row.policyUnknown
      case Zero => Some(if row.successful == Some(0) then 1 else 0);
    if entry.Some? then entry.value else 0
  }

  predicate Ascending(s: seq<int>) {
    forall i, j | 0 <= i < j < |s| :: s[i] < s[j]
  }

  function Range(n: nat): (s: set<int>)
    ensures forall t :: t in s <==> 0 <= t < n
  {
    if n == 0 then {} else Range(n - 1) + {n - 1}
  }

  /** The deployments below `n` that are in `keys`, ascending. */
  function Listed(keys: set<int>, n: nat): seq<int> {
    if n == 0 then [] else Listed(keys, n - 1) + if n - 1 in keys then [n - 1] else []
  }

  function Sum(m: map<int, Burst>, n: nat, f: Field): int {
    if n == 0 then 0 else Sum(m, n - 1, f) + if n - 1 in m then Get(m[n - 1], f) else 0
  }

  /** What the raw request files of these deployments add up to. */
  function RawTotal(c: Campaign, name: string, level: int, trials: seq<int>, kind: Kind): nat {
    if trials == [] then 0
    else RawTotal(c, name, level, trials[..|trials| - 1], kind) + RawCount(c, name, level, trials[|trials| - 1], kind)
  }

  function RawCount(c: Campaign, name: string, level: int, trial: int, kind: Kind): nat {
    if trial >= 0 && (name, trial as nat, level) in c.requests && c.requests[(name, trial as nat, level)].requests.Some?
    then Count(c.requests[(name, trial as nat, level)].requests.value, kind) else 0
  }

  /** Deployments whose requests were all lost. */
  function Silent(c: Campaign, name: string, level: int, trials: seq<int>): nat {
    if trials == [] then 0
    else Silent(c, name, level, trials[..|trials| - 1]) + if RawCount(c, name, level, trials[|trials| - 1],
        Acknowledged) == 0 then 1 else 0
  }

  /** Deployments whose outer trial failed although the burst was observed. */
  function OuterFailures(c: Campaign, name: string, trials: seq<int>): nat {
    if trials == [] then 0
    else
      var t := trials[|trials| - 1];
      OuterFailures(c, name, trials[..|trials| - 1])
      + if t >= 0 && (name, t as nat) in c.outer && !c.outer[(name, t as nat)] then 1 else 0
  }

  lemma SilentNext(c: Campaign, name: string, level: int, trials: seq<int>, t: int)
    ensures Silent(c, name, level, trials + [t])
              == Silent(c, name, level, trials) + if RawCount(c, name, level, t, Acknowledged) == 0 then 1 else 0
    ensures OuterFailures(c, name, trials + [t]) == OuterFailures(c, name, trials)
            + if t >= 0 && (name, t as nat) in c.outer && !c.outer[(name, t as nat)] then 1 else 0
  {
    assert (trials + [t])[..|trials|] == trials;
  }

  lemma RawTotalNext(c: Campaign, name: string, level: int, trials: seq<int>, trial: int, kind: Kind)
    ensures RawTotal(c, name, level, trials + [trial], kind)
              == RawTotal(c, name, level, trials, kind) + RawCount(c, name, level, trial, kind)
  {
    assert (trials + [trial])[..|trials|] == trials;
  }

  lemma {:induction false} ListedMembers(keys: set<int>, n: nat)
    ensures forall t :: t in Listed(keys, n) <==> 0 <= t < n && t in keys
    ensures Ascending(Listed(keys, n))
  {
    if n > 0 {
      ListedMembers(keys, n - 1);
      var front := Listed(keys, n - 1);
      assert forall i | 0 <= i < |front| :: front[i] in front;
    }
  }

  /** Three disjoint sets that cover the deployments split them exactly. */
  lemma {:induction false} ListedPartition(a: set<int>, b: set<int>, rest: set<int>, n: nat)
    requires a !! b && forall t | 0 <= t < n :: t in rest <==> t !in a && t !in b
    ensures |Listed(a, n)| + |Listed(b, n)| + |Listed(rest, n)| == n
  {
    if n > 0 { ListedPartition(a, b, rest, n - 1); }
  }

  /** What is known of a burst that was taken up. */
  ghost predicate Backed(c: Campaign, name: string, level: int, trial: int, levels: seq<int>, row: Burst) {
    && 0 <= trial && Finished(row, levels) && row.concurrency == Some(level)
    && (name, trial as nat, level) in c.requests && RequestsOk(c.requests[(name, trial as nat, level)], row)
  }

  ghost predicate AllBacked(c: Campaign, name: string, level: int, levels: seq<int>, m: map<int, Burst>) {
    forall t | t in m :: Backed(c, name, level, t, levels, m[t])
  }

  lemma BackedCounts(c: Campaign, name: string, level: int, trial: int, levels: seq<int>, row: Burst)
    requires Backed(c, name, level, trial, levels, row)
    ensures Get(row, Offered) == level == Get(row, Successful) + Get(row, Failed)
    ensures Get(row, Successful) == Get(row, Allowed) + Get(row, Refused) + Get(row, Unknown)
    ensures Get(row, Successful) == RawCount(c, name, level, trial, Acknowledged)
    ensures Get(row, Failed) == RawCount(c, name, level, trial, Lost)
    ensures Get(row, Allowed) == RawCount(c, name, level, trial, Passed)
    ensures Get(row, Refused) == RawCount(c, name, level, trial, Denied)
    ensures Get(row, Unknown) == RawCount(c, name, level, trial, Undecided)
  {}

  function KindOf(f: Field): Kind {
    match f
    case Successful => Acknowledged
    case Failed => Lost
    case Allowed => Passed
    case Refused => Denied
    case _ => Undecided
  }

  /** Each sum over the journal lines is the sum over the raw requests. */
  lemma {:induction false} SumsAreRaw(c: Campaign, name: string, level: int, levels: seq<int>, m: map<int, Burst>,
                                      n: nat, f: Field)
    requires AllBacked(c, name, level, levels, m)
    requires f != Offered && f != Zero
    ensures Sum(m, n, f) == RawTotal(c, name, level, Listed(m.Keys, n), KindOf(f))
  {
    if n > 0 {
      SumsAreRaw(c, name, level, levels, m, n - 1, f);
      if n - 1 in m {
        BackedCounts(c, name, level, n - 1, levels, m[n - 1]);
        RawTotalNext(c, name, level, Listed(m.Keys, n - 1), n - 1, KindOf(f));
      } else {
        assert Listed(m.Keys, n) == Listed(m.Keys, n - 1);
      }
    }
  }

  lemma {:induction false} ZerosAreSilent(c: Campaign, name: string, level: int, levels: seq<int>, m: map<int, Burst>,
                                          n: nat)
    requires AllBacked(c, name, level, levels, m)
    ensures Sum(m, n, Zero) == Silent(c, name, level, Listed(m.Keys, n))
  {
    if n > 0 {
      ZerosAreSilent(c, name, level, levels, m, n - 1);
      if n - 1 in m {
        BackedCounts(c, name, level, n - 1, levels, m[n - 1]);
        SilentNext(c, name, level, Listed(m.Keys, n - 1), n - 1);
      } else {
        assert Listed(m.Keys, n) == Listed(m.Keys, n - 1);
      }
    }
  }

  lemma {:induction false} SumsBalance(c: Campaign, name: string, level: int, levels: seq<int>, m: map<int, Burst>,
                                       n: nat)
    requires AllBacked(c, name, level, levels, m)
    ensures Sum(m, n, Offered) == level * |Listed(m.Keys, n)| == Sum(m, n, Successful) + Sum(m, n, Failed)
    ensures Sum(m, n, Successful) == Sum(m, n, Allowed) + Sum(m, n, Refused) + Sum(m, n, Unknown)
  {
    if n > 0 {
      SumsBalance(c, name, level, levels, m, n - 1);
      if n - 1 in m {
        BackedCounts(c, name, level, n - 1, levels, m[n - 1]);
        assert |Listed(m.Keys, n)| == |Listed(m.Keys, n - 1)| + 1;
        assert level * (|Listed(m.Keys, n - 1)| + 1) == level * |Listed(m.Keys, n - 1)| + level;
      }
    }
  }

  // ---------------------------------------------------------------- the report against the journals

  /** Every deployment is observed, crashed or missing, as its journal says, and nothing else is listed. */
  ghost predicate Splits(c: Campaign, name: string, level: int, g: Group) {
    && Ascending(g.observed) && Ascending(g.crashed) && Ascending(g.missing)
    && (forall t :: t in g.observed <==> 0 <= t < c.trials && FateAt(c, name, t, level).Observed?)
    && (forall t :: t in g.crashed <==> 0 <= t < c.trials && FateAt(c, name, t, level).Crash?)
    && (forall t :: t in g.missing <==> 0 <= t < c.trials && FateAt(c, name, t, level).Unseen?)
    && |g.observed| + |g.crashed| + |g.missing| == c.trials
  }

  /** The sums balance, and they are those of the raw requests of the observed deployments. */
  ghost predicate Balances(c: Campaign, name: string, level: int, g: Group) {
    && g.offered == level * |g.observed| == g.confirmed + g.failed
    && g.confirmed == g.passed + g.denied + g.undecided
    && g.confirmed == RawTotal(c, name, level, g.observed, Acknowledged)
    && g.failed == RawTotal(c, name, level, g.observed, Lost)
    && g.passed == RawTotal(c, name, level, g.observed, Passed)
    && g.denied == RawTotal(c, name, level, g.observed, Denied)
    && g.undecided == RawTotal(c, name, level, g.observed, Undecided)
    && g.zero == Silent(c, name, level, g.observed)
    && g.failedOuter == OuterFailures(c, name, g.observed)
  }

  ghost predicate OuterKnown(c: Campaign, name: string, level: int) {
    forall t: nat | t < c.trials && FateAt(c, name, t, level).Observed? :: (name, t) in c.outer
  }

  function OuterBelow(c: Campaign, name: string, keys: set<int>, n: nat): nat {
    OuterFailures(c, name, Listed(keys, n))
  }

  predicate OuterFailed(c: Campaign, name: string, t: nat) {
    (name, t) in c.outer && !c.outer[(name, t)]
  }

  /** None when an observed deployment has no outer outcome. */
  method CountOuterFailures(c: Campaign, name: string, deployments: map<int, Burst>) returns (failures: Option<nat>)
    ensures failures.Some? <==> forall t: nat | t < c.trials && t in deployments :: (name, t) in c.outer
    ensures failures.Some? ==> failures.value == OuterBelow(c, name, deployments.Keys, c.trials)
  {
    var count := 0;
    for t := 0 to c.trials
      invariant count == OuterBelow(c, name, deployments.Keys, t)
      invariant forall u: nat | u < t && u in deployments :: (name, u) in c.outer
    {
      OuterNext(c, name, deployments.Keys, t);
      if t in deployments {
        if (name, t) !in c.outer { return None; }
        if OuterFailed(c, name, t) { count := count + 1; }
      }
    }
    failures := Some(count);
  }

  lemma MembersAreFates(c: Campaign, name: string, level: int, m: map<int, Burst>, lost: map<int, string>)
    requires LevelReflects(c, name, c.trials, [], level, m, lost)
    ensures forall t: nat | t < c.trials :: t in m <==> FateAt(c, name, t, level).Observed?
  {
    forall t: nat | t < c.trials ensures t in m <==> FateAt(c, name, t, level).Observed? {
      assert t in m <==> FateSoFar(c, name, c.trials, [], level, t).Observed?;
    }
  }

  lemma OuterNext(c: Campaign, name: string, keys: set<int>, t: nat)
    ensures OuterBelow(c, name, keys, t + 1) == OuterBelow(c, name, keys, t) + if t in keys
              && OuterFailed(c, name, t) then 1 else 0
  {
    if t in keys {
      SilentNext(c, name, 0, Listed(keys, t), t);
    } else {
      assert Listed(keys, t + 1) == Listed(keys, t);
    }
  }

  method MakeGroup(c: Campaign, name: string, level: int, ghost levels: seq<int>, deployments: map<int, Burst>,
                   crashed: map<int, string>)
    returns (g: Option<Group>)
    requires LevelReflects(c, name, c.trials, [], level, deployments, crashed)
               && AllBacked(c, name, level, levels, deployments)
    ensures g.Some? <==> OuterKnown(c, name, level)
    ensures g.Some? ==> Splits(c, name, level, g.value) && Balances(c, name, level, g.value)
  {
    var n := c.trials;
    var missing := Range(n) - deployments.Keys - crashed.Keys;
    var failures := CountOuterFailures(c, name, deployments);
    MembersAreFates(c, name, level, deployments, crashed);
    if failures == None { return None; }
    g := Some(Group(
      Listed(deployments.Keys, n), Listed(crashed.Keys, n), Listed(missing, n), Sum(deployments, n, Zero),
          failures.value,
      Sum(deployments, n, Offered), Sum(deployments, n, Successful), Sum(deployments, n, Failed),
      Sum(deployments, n, Allowed), Sum(deployments, n, Refused), Sum(deployments, n, Unknown)));
    GroupSplits(c, name, level, deployments, crashed, missing, g.value);
    GroupBalances(c, name, level, levels, deployments, g.value);
  }

  lemma GroupSplits(c: Campaign, name: string, level: int, m: map<int, Burst>, lost: map<int, string>,
                    missing: set<int>, g: Group)
    requires LevelReflects(c, name, c.trials, [], level, m, lost)
    requires missing == Range(c.trials) - m.Keys - lost.Keys
    requires g.observed == Listed(m.Keys, c.trials) && g.crashed == Listed(lost.Keys, c.trials)
               && g.missing == Listed(missing, c.trials)
    ensures Splits(c, name, level, g)
  {
    ListedMembers(m.Keys, c.trials);
    ListedMembers(lost.Keys, c.trials);
    ListedMembers(missing, c.trials);
    forall t ensures !(t in m && t in lost) { var fate := FateSoFar(c, name, c.trials, [], level, t); }
    ListedPartition(m.Keys, lost.Keys, missing, c.trials);
    forall t | 0 <= t < c.trials ensures FateSoFar(c, name, c.trials, [], level, t) == FateAt(c, name, t, level) {}
  }

  lemma GroupBalances(c: Campaign, name: string, level: int, levels: seq<int>, m: map<int, Burst>, g: Group)
    requires AllBacked(c, name, level, levels, m) && g.observed == Listed(m.Keys, c.trials)
    requires g.offered == Sum(m, c.trials, Offered) && g.confirmed == Sum(m, c.trials, Successful)
               && g.failed == Sum(m, c.trials, Failed)
    requires g.passed == Sum(m, c.trials, Allowed) && g.denied == Sum(m, c.trials, Refused)
               && g.undecided == Sum(m, c.trials, Unknown)
    requires g.zero == Sum(m, c.trials, Zero) && g.failedOuter == OuterFailures(c, name, g.observed)
    ensures Balances(c, name, level, g)
  {
    SumsBalance(c, name, level, levels, m, c.trials);
    ZerosAreSilent(c, name, level, levels, m, c.trials);
    SumsAreRaw(c, name, level, levels, m, c.trials, Successful);
    SumsAreRaw(c, name, level, levels, m, c.trials, Failed);
    SumsAreRaw(c, name, level, levels, m, c.trials, Allowed);
    SumsAreRaw(c, name, level, levels, m, c.trials, Refused);
    SumsAreRaw(c, name, level, levels, m, c.trials, Unknown);
  }

  // ---------------------------------------------------------------- the whole campaign

  predicate LevelsOk(levels: seq<int>) {
    && levels != [] && (forall i, j | 0 <= i < j < |levels| :: levels[i] != levels[j])
    && forall k | 0 <= k < |levels| :: 1 <= levels[k] <= 10000
  }

  ghost predicate DeploymentsOk(c: Campaign, name: string, n: nat, levels: seq<int>) {
    forall t: nat | t < n :: DeploymentOk(c, name, t, levels)
  }

  ghost predicate TaskOk(c: Campaign, name: string, levels: seq<int>) {
    && DeploymentsOk(c, name, c.trials, levels)
    && forall level | level in levels :: OuterKnown(c, name, level)
  }

  ghost predicate GroupsOk(c: Campaign, name: string, groups: map<int, Group>, levels: seq<int>) {
    forall level | level in levels ::
        level in groups && Splits(c, name, level, groups[level]) && Balances(c, name, level, groups[level])
  }

  /** Every observed burst of a sound deployment is backed by its requests. */
  lemma {:induction false} FateIsBacked(c: Campaign, name: string, t: nat, levels: seq<int>, rows: seq<Burst>,
                                        level: int)
    requires RowsOk(c, name, t, levels, rows) && FateIn(rows, level).Observed?
    ensures Backed(c, name, level, t, levels, FateIn(rows, level).row)
    decreases |rows|
  {
    if rows[|rows| - 1].concurrency != Some(level) { FateIsBacked(c, name, t, levels, rows[..|rows| - 1], level); }
  }

  lemma ReflectedIsBacked(c: Campaign, name: string, level: int, levels: seq<int>, m: map<int, Burst>, lost: map<int,
                          string>)
    requires LevelReflects(c, name, c.trials, [], level, m, lost)
    requires DeploymentsOk(c, name, c.trials, levels)
    ensures AllBacked(c, name, level, levels, m)
  {
    forall t | t in m ensures Backed(c, name, level, t, levels, m[t]) {
      assert FateSoFar(c, name, c.trials, [], level, t) == Observed(m[t]);
      assert 0 <= t < c.trials && DeploymentOk(c, name, t, levels);
      FateIsBacked(c, name, t, levels, Rows(c, name, t), level);
    }
  }

  lemma NothingReflects(c: Campaign, name: string, levels: seq<int>, observed: Observations, crashed: Crashes)
    requires forall level | level in levels ::
               level in observed && level in crashed && observed[level] == map[] && crashed[level] == map[]
    ensures Reflects(c, name, 0, [], levels, observed, crashed)
  {}

  method ReadTask(c: Campaign, name: string, levels: seq<int>)
    returns (reject: Option<Reject>, observed: Observations, crashed: Crashes)
    ensures reject == None <==> DeploymentsOk(c, name, c.trials, levels)
    ensures reject == None ==> Reflects(c, name, c.trials, [], levels, observed, crashed)
  {
    observed := map level | level in levels :: map[];
    crashed := map level | level in levels :: map[];
    reject := None;
    NothingReflects(c, name, levels, observed, crashed);
    for trial := 0 to c.trials
      invariant reject == None && DeploymentsOk(c, name, trial, levels)
      invariant Reflects(c, name, trial, [], levels, observed, crashed)
    {
      reject, observed, crashed := ReadJournal(c, name, trial, levels, observed, crashed);
      if reject.Some? { return; }
    }
  }

  method SummarizeTask(c: Campaign, name: string, levels: seq<int>) returns (r: Result<map<int, Group>, Reject>)
    ensures r.Ok? <==> TaskOk(c, name, levels)
    ensures r.Ok? ==> GroupsOk(c, name, r.value, levels)
  {
    var reject, observed, crashed := ReadTask(c, name, levels);
    if reject.Some? { return Err(reject.value); }
    var groups := map[];
    for k := 0 to |levels|
      invariant forall j | 0 <= j < k :: OuterKnown(c, name, levels[j])
      invariant GroupsOk(c, name, groups, levels[..k])
    {
      var level := levels[k];
      assert level in levels && levels[..k + 1] == levels[..k] + [level];
      ReflectedIsBacked(c, name, level, levels, observed[level], crashed[level]);
      var g := MakeGroup(c, name, level, levels, observed[level], crashed[level]);
      if g == None { return Err(NoOuter); }
      groups := groups[level := g.value];
    }
    assert levels[..|levels|] == levels;
    r := Ok(groups);
  }

  /** The report covers every variant and level, or the campaign is refused. */
  method SummarizeCampaign(c: Campaign, levels: seq<int>) returns (r: Result<map<string, map<int, Group>>, Reject>)
    ensures r.Ok? <==> LevelsOk(levels) && forall name | name in c.tasks :: TaskOk(c, name, levels)
    ensures r.Ok? ==> forall name | name in c.tasks :: name in r.value && GroupsOk(c, name, r.value[name], levels)
  {
    if !LevelsOk(levels) { return Err(Levels); }
    var variants := map[];
    for k := 0 to |c.tasks|
      invariant forall j | 0 <= j < k :: TaskOk(c, c.tasks[j], levels)
      invariant forall j | 0 <= j < k :: c.tasks[j] in variants && GroupsOk(c, c.tasks[j], variants[c.tasks[j]], levels)
    {
      var groups := SummarizeTask(c, c.tasks[k], levels);
      if groups.Err? { return Err(groups.error); }
      variants := variants[c.tasks[k] := groups.value];
    }
    r := Ok(variants);
  }
}
