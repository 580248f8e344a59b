/** Versions fence stale workers: a worker that lost its claim can no longer change its row. */
module Fencing {
  import opened Prelude
  import opened StoreModel
  import EventLog

  predicate Settled(db: Db, rid: Id) {
    rid in db.outbox && (InStage(db, rid, Prepared) || InStage(db, rid, Committed))
  }

  /** What any transaction leaves of a row: its bindings, its progress and its outbox row. */
  ghost predicate Progress(before: Db, after: Db) {
    && (forall rid | rid in before.submissions ::
          && rid in after.submissions
          && before.submissions[rid].version <= after.submissions[rid].version
          && after.submissions[rid] == before.submissions[rid].(
               stage := after.submissions[rid].stage, version := after.submissions[rid].version,
               leaseUntil := after.submissions[rid].leaseUntil))
    && (forall rid | rid in before.outbox && rid in before.submissions && Settled(before, rid) ::
          && Settled(after, rid)
          && after.outbox[rid].payload == before.outbox[rid].payload
          && after.outbox[rid].snapshot == before.outbox[rid].snapshot)
    && (forall rid | rid in before.outbox && InStage(before, rid, Committed) ::
          InStage(after, rid, Committed) && after.outbox[rid] == before.outbox[rid])
  }

  /** A transaction that touches only `rid` progresses when it does so for `rid`. */
  lemma OneRowProgress(before: Db, after: Db, rid: Id)
    requires after.submissions.Keys == before.submissions.Keys + {rid}
    requires forall other | other in before.submissions && other != rid ::
               after.submissions[other] == before.submissions[other]
    requires forall other | other in before.outbox && other != rid ::
               other in after.outbox && after.outbox[other] == before.outbox[other]
    requires rid in before.submissions ==>
               && !InStage(before, rid, Committed)
               && before.submissions[rid].version <= after.submissions[rid].version
               && after.submissions[rid] == before.submissions[rid].(
                    stage := after.submissions[rid].stage, version := after.submissions[rid].version,
                    leaseUntil := after.submissions[rid].leaseUntil)
    requires Settled(before, rid) ==>
               && Settled(after, rid)
               && after.outbox[rid].payload == before.outbox[rid].payload
               && after.outbox[rid].snapshot == before.outbox[rid].snapshot
    ensures Progress(before, after)
  {}

  lemma ApplyProgress(c: Config, db: Db, op: Op)
    requires EventLog.Inv(c, db)
    ensures Progress(db, Apply(c, db, op))
  {
    var after := Apply(c, db, op);
    if after != db {
      match op
      case OpIngest(a, now, created, ns) =>
        assert EventLog.OutboxFollows(db, a.rid);
        OneRowProgress(db, after, a.rid);
      case OpClaim(rid, now, ns) => OneRowProgress(db, after, rid);
      case OpPrepare(rid, version, payload, ns) => OneRowProgress(db, after, rid);
      case OpFinish(rid, snapshot, tx, hash, ns) => OneRowProgress(db, after, rid);
      case OpFail(rid, version, ns) => OneRowProgress(db, after, rid);
      case OpRecover(now, order, stamps) =>
        RecoverProgress(c, db, now, order, stamps);
    }
  }

  lemma RecoverProgress(c: Config, db: Db, now: real, order: seq<Id>, stamps: nat -> int)
    requires Selects(db, now, order)
    ensures Progress(db, RecoverRows(c, db, order, stamps))
  {
    EventLog.RecoverRowsTables(c, db, order, stamps);
  }

  lemma {:induction false} RunProgress(c: Config, db: Db, ops: seq<Op>)
    requires EventLog.Inv(c, db)
    ensures EventLog.Inv(c, Run(c, db, ops)) && Progress(db, Run(c, db, ops))
  {
    if ops != [] {
      var k := |ops| - 1;
      RunProgress(c, db, ops[..k]);
      ApplyProgress(c, Run(c, db, ops[..k]), ops[k]);
      EventLog.ApplyKeeps(c, Run(c, db, ops[..k]), ops[k]);
    }
  }

  /**
   A worker claims `rid`; then anything happens; then a recovery takes the row back; then
   anything happens again, further claims included. The first worker's `prepare` raises
   and its `fail_processing` does nothing.
   */
  lemma StaleWorkerIsFenced(
    c: Config, before: Db, rid: Id, now: real, ns: int, mid: seq<Op>,
    swept: real, order: seq<Id>, stamps: nat -> int, later: seq<Op>)
    requires EventLog.Inv(c, before)
    requires ClaimTx(c, before, rid, now, ns).Ok?
    requires var held := Run(c, ClaimTx(c, before, rid, now, ns).value.0, mid);
             Selects(held, swept, order) && rid in order
    ensures var (claimed, row) := ClaimTx(c, before, rid, now, ns).value;
            var db := Run(c, Apply(c, Run(c, claimed, mid), OpRecover(swept, order, stamps)), later);
            && (forall payload, at :: PrepareTx(c, db, rid, row.version, payload, at) == Err(StaleWorker))
            && (forall at :: FailTx(c, db, rid, row.version, at) == db)
  {
    var (claimed, row) := ClaimTx(c, before, rid, now, ns).value;
    EventLog.ClaimKeeps(c, before, rid, now, ns);
    RunProgress(c, claimed, mid);
    var held := Run(c, claimed, mid);
    assert row.version <= held.submissions[rid].version;
    SweptIsFenced(c, held, rid, row.version, swept, order, stamps, later);
  }

  lemma SweptIsFenced(
    c: Config, held: Db, rid: Id, version: nat, swept: real, order: seq<Id>, stamps: nat -> int, later: seq<Op>)
    requires EventLog.Inv(c, held) && Selects(held, swept, order)
    requires rid in order && rid in held.submissions && version <= held.submissions[rid].version
    ensures var db := Run(c, Apply(c, held, OpRecover(swept, order, stamps)), later);
            rid in db.submissions && version < db.submissions[rid].version
  {
    EventLog.RecoverRowsTables(c, held, order, stamps);
    EventLog.ApplyKeeps(c, held, OpRecover(swept, order, stamps));
    RunProgress(c, Apply(c, held, OpRecover(swept, order, stamps)), later);
  }

  /** After one successful `prepare` of `rid` no later `prepare` of it succeeds, whoever calls it. */
  lemma PrepareSucceedsOnce(
    c: Config, ops: seq<Op>, rid: Id, version: nat, payload: Payload, ns: int, later: seq<Op>,
    version': nat, payload': Payload, ns': int)
    requires PrepareTx(c, Run(c, EMPTY, ops), rid, version, payload, ns).Ok?
    ensures var db := Run(c, PrepareTx(c, Run(c, EMPTY, ops), rid, version, payload, ns).value, later);
            && PrepareTx(c, db, rid, version', payload', ns') == Err(StaleWorker)
            && rid in db.outbox && db.outbox[rid].payload == payload && db.outbox[rid].snapshot == version + 1
  {
    EventLog.LogRefinesTables(c, ops);
    EventLog.PrepareKeeps(c, Run(c, EMPTY, ops), rid, version, payload, ns);
    RunProgress(c, PrepareTx(c, Run(c, EMPTY, ops), rid, version, payload, ns).value, later);
  }

  /** Event `i` is the last one of `rid`, is a claim, and brought the record to `version`. */
  ghost predicate IsLatestClaim(events: seq<EventRow>, rid: Id, version: nat, i: nat) {
    && i < |events| && events[i].body.recordID == rid && events[i].body.kind == KProcessing
    && (forall j | i < j < |events| :: events[j].body.recordID != rid)
    && EventLog.CountOf(events[..i + 1], rid) == version
  }

  /** The position of the event that put a record into its current state. */
  lemma {:induction false} LatestEvent(events: seq<EventRow>, rid: Id) returns (i: nat)
    requires EventLog.TrackOf(events, rid) == EventLog.At(Processing)
    ensures IsLatestClaim(events, rid, EventLog.CountOf(events, rid), i)
  {
    var k := |events| - 1;
    if events[k].body.recordID == rid {
      i := k;
      assert events[..k + 1] == events;
    } else {
      i := LatestEvent(events[..k], rid);
      assert events[..k][..i + 1] == events[..i + 1];
      assert events[..k][i] == events[i];
    }
  }

  /**
   A `prepare` that succeeds is the one of the latest claim: the last event of the record is
   that claim and the version it returned is the version presented. Its outbox insert never
   meets an existing row.
   */
  lemma PrepareBelongsToLatestClaim(c: Config, ops: seq<Op>, rid: Id, version: nat, payload: Payload, ns: int)
    ensures var db := Run(c, EMPTY, ops);
            var r := PrepareTx(c, db, rid, version, payload, ns);
            && r != Err(IntegrityError)
            && (r.Ok? ==> exists i: nat :: IsLatestClaim(db.events, rid, version, i))
  {
    var db := Run(c, EMPTY, ops);
    EventLog.LogRefinesTables(c, ops);
    assert EventLog.LogFollows(db, rid) && EventLog.OutboxFollows(db, rid);
    if PrepareTx(c, db, rid, version, payload, ns).Ok? {
      var i := LatestEvent(db.events, rid);
    }
  }

  // ---------------------------------------------------------------- leases

  /** Operation `k` is the claim that the row is still under; it ran at `ops[k].now` and lasts 300 seconds. */
  ghost predicate LeasedBy(c: Config, ops: seq<Op>, k: nat, rid: Id) {
    && k < |ops| && ops[k].OpClaim? && ops[k].rid == rid && InStage(Run(c, EMPTY, ops[..k]), rid, Ingested)
    && InStage(Run(c, EMPTY, ops), rid, Processing)
    && Run(c, EMPTY, ops).submissions[rid].version == Run(c, EMPTY, ops[..k]).submissions[rid].version + 1
    && Run(c, EMPTY, ops).submissions[rid].leaseUntil == ops[k].now + 300.0
  }

  /** A transaction leaves a claimed row claimed as it is, or claims it, or ends the claim. */
  lemma ClaimOrSame(c: Config, db: Db, op: Op, rid: Id)
    requires InStage(Apply(c, db, op), rid, Processing)
    ensures || (rid in db.submissions && Apply(c, db, op).submissions[rid] == db.submissions[rid])
            || (op.OpClaim? && op.rid == rid && InStage(db, rid, Ingested)
                && Apply(c, db, op).submissions[rid].version == db.submissions[rid].version + 1
                && Apply(c, db, op).submissions[rid].leaseUntil == op.now + 300.0)
  {
    if op.OpRecover? && Selects(db, op.now, op.order) { EventLog.RecoverRowsTables(c, db, op.order, op.stamps); }
  }

  lemma {:induction false} LeaseIsFromClaim(c: Config, ops: seq<Op>, rid: Id) returns (k: nat)
    requires InStage(Run(c, EMPTY, ops), rid, Processing)
    ensures LeasedBy(c, ops, k, rid)
  {
    var last := |ops| - 1;
    var before := Run(c, EMPTY, ops[..last]);
    ClaimOrSame(c, before, ops[last], rid);
    if rid in before.submissions && Run(c, EMPTY, ops).submissions[rid] == before.submissions[rid] {
      k := LeaseIsFromClaim(c, ops[..last], rid);
      assert ops[..last][..k] == ops[..k];
    } else {
      k := last;
    }
  }

  /** After any transactions a sweep takes exactly the rows whose claim was made more than 300 seconds before. */
  lemma SweepTakesLapsedClaims(c: Config, ops: seq<Op>, now: real, order: seq<Id>, rid: Id)
    requires Selects(Run(c, EMPTY, ops), now, order)
    ensures rid in order <==> exists k: nat :: LeasedBy(c, ops, k, rid) && ops[k].now + 300.0 < now
  {
    if InStage(Run(c, EMPTY, ops), rid, Processing) {
      var k := LeaseIsFromClaim(c, ops, rid);
      assert LeasedBy(c, ops, k, rid);
    }
  }
}
