/**
 The append-only event log refines the tables: a submission's version is the number of its
 events, its state is what those events lead to, and the outbox follows the state.
 */
module EventLog {
  import opened Prelude
  import opened StoreModel

  // ---------------------------------------------------------------- reading the log

  function CountOf(events: seq<EventRow>, rid: Id): nat {
    if events == [] then 0
    else
      var k := |events| - 1;
      CountOf(events[..k], rid) + if events[k].body.recordID == rid then 1 else 0
  }

  /** What the events of one record lead to; `Stuck` when one of them was not allowed. */
  datatype Track = Unseen | At(stage: Stage) | Stuck

  /** The transition automaton of a submission. */
  function Delta(t: Track, kind: Kind): Track {
    match (t, kind)
    case (Unseen, KIngested) => At(Ingested)
    case (At(Ingested), KProcessing) => At(Processing)
    case (At(Processing), KPrepared) => At(Prepared)
    case (At(Processing), KFailed) => At(Failed)
    case (At(Processing), KLeaseRecovered) => At(Ingested)
    case (At(Prepared), KCommitted) => At(Committed)
    case _ => Stuck
  }

  function TrackOf(events: seq<EventRow>, rid: Id): Track {
    if events == [] then Unseen
    else
      var k := |events| - 1;
      var before := TrackOf(events[..k], rid);
      if events[k].body.recordID == rid then Delta(before, events[k].body.kind) else before
  }

  /** Every row carries the hash of the row before it and of its own text. */
  ghost predicate Chained(c: Config, events: seq<EventRow>) {
    forall i | 0 <= i < |events| :: Linked(c, events, i)
  }

  /** Event `i` hashes its text onto the hash of the event before it. */
  predicate Linked(c: Config, events: seq<EventRow>, i: nat)
    requires i < |events|
  {
    && events[i].prevHash == LastHash(events[..i])
    && events[i].eventHash == c.hash(events[i].prevHash, events[i].body)
  }

  // ---------------------------------------------------------------- the invariant

  predicate OutboxFollows(db: Db, rid: Id) {
    && (rid in db.outbox <==> InStage(db, rid, Prepared) || InStage(db, rid, Committed))
    && (InStage(db, rid, Prepared) ==>
          var out := db.outbox[rid];
          out.snapshot == db.submissions[rid].version && out.status == Pending && out.txId == None)
    && (InStage(db, rid, Committed) ==>
          var out := db.outbox[rid];
          && out.snapshot + 1 == db.submissions[rid].version
          && out.status == Confirmed && out.txId.Some? && out.txId.value != "")
  }

  predicate LogFollows(db: Db, rid: Id) {
    if rid in db.submissions then
      && CountOf(db.events, rid) == db.submissions[rid].version
      && TrackOf(db.events, rid) == At(db.submissions[rid].stage)
    else
      CountOf(db.events, rid) == 0 && TrackOf(db.events, rid) == Unseen
  }

  ghost predicate Inv(c: Config, db: Db) {
    && Chained(c, db.events)
    && (forall e | e in db.events :: e.recordID == e.body.recordID)
    && (forall rid :: LogFollows(db, rid))
    && (forall rid :: OutboxFollows(db, rid))
  }

  // ---------------------------------------------------------------- preservation

  lemma AppendReads(c: Config, events: seq<EventRow>, rid: Id, kind: Kind, ns: int, detail: seq<string>)
    ensures var after := Append(c, events, rid, kind, ns, detail);
            && CountOf(after, rid) == CountOf(events, rid) + 1
            && TrackOf(after, rid) == Delta(TrackOf(events, rid), kind)
            && (forall other | other != rid ::
                  CountOf(after, other) == CountOf(events, other) && TrackOf(after, other) == TrackOf(events, other))
            && (Chained(c, events) ==> Chained(c, after))
  {
    var after := Append(c, events, rid, kind, ns, detail);
    assert after[..|after| - 1] == events;
    if Chained(c, events) { AppendChains(c, events, after[|after| - 1]); }
  }

  lemma AppendChains(c: Config, events: seq<EventRow>, e: EventRow)
    requires Chained(c, events) && e.prevHash == LastHash(events) && e.eventHash == c.hash(e.prevHash, e.body)
    ensures Chained(c, events + [e])
  {
    var after := events + [e];
    forall i | 0 <= i < |after| ensures Linked(c, after, i) {
      if i < |events| {
        assert Linked(c, events, i) && after[..i] == events[..i];
      } else {
        assert after[..i] == events;
      }
    }
  }

  /** One transaction that moves one row and appends one event keeps the invariant. */
  lemma OneMove(c: Config, db: Db, after: Db, rid: Id, kind: Kind, ns: int, detail: seq<string>)
    requires Inv(c, db)
    requires after.events == Append(c, db.events, rid, kind, ns, detail)
    requires rid in after.submissions && after.submissions.Keys == db.submissions.Keys + {rid}
    requires forall other | other in db.submissions && other != rid :: after.submissions[other] == db.submissions[other]
    requires forall other | other != rid :: (other in after.outbox <==> other in db.outbox)
    requires forall other | other in db.outbox && other != rid :: after.outbox[other] == db.outbox[other]
    requires after.submissions[rid].version == (if rid in db.submissions then db.submissions[rid].version else 0) + 1
    requires Delta(TrackOf(db.events, rid), kind) == At(after.submissions[rid].stage)
    requires OutboxFollows(after, rid)
    ensures Inv(c, after)
  {
    AppendReads(c, db.events, rid, kind, ns, detail);
    forall other ensures LogFollows(after, other) && OutboxFollows(after, other) {
      assert LogFollows(db, other) && OutboxFollows(db, other);
    }
  }

  lemma IngestKeeps(c: Config, db: Db, a: IngestArgs, now: real, created: real, ns: int)
    requires Inv(c, db) && IngestTx(c, db, a, now, created, ns).Ok?
    ensures Inv(c, IngestTx(c, db, a, now, created, ns).value)
  {
    assert LogFollows(db, a.rid) && OutboxFollows(db, a.rid);
    OneMove(c, db, IngestTx(c, db, a, now, created, ns).value, a.rid, KIngested, ns, [a.documentHash, a.cipherHash]);
  }

  lemma ClaimKeeps(c: Config, db: Db, rid: Id, now: real, ns: int)
    requires Inv(c, db) && ClaimTx(c, db, rid, now, ns).Ok?
    ensures Inv(c, ClaimTx(c, db, rid, now, ns).value.0)
  {
    assert LogFollows(db, rid) && OutboxFollows(db, rid);
    OneMove(c, db, ClaimTx(c, db, rid, now, ns).value.0, rid, KProcessing, ns, []);
  }

  lemma PrepareKeeps(c: Config, db: Db, rid: Id, version: nat, payload: Payload, ns: int)
    requires Inv(c, db) && PrepareTx(c, db, rid, version, payload, ns).Ok?
    ensures Inv(c, PrepareTx(c, db, rid, version, payload, ns).value)
  {
    assert LogFollows(db, rid) && OutboxFollows(db, rid);
    OneMove(c, db, PrepareTx(c, db, rid, version, payload, ns).value, rid, KPrepared, ns, [payload.receiptHash]);
  }

  lemma FinishKeeps(c: Config, db: Db, rid: Id, snapshot: nat, tx: Tx, hash: Digest, ns: int)
    requires Inv(c, db) && FinishTx(c, db, rid, snapshot, tx, hash, ns).Ok?
    ensures Inv(c, FinishTx(c, db, rid, snapshot, tx, hash, ns).value)
  {
    assert LogFollows(db, rid) && OutboxFollows(db, rid);
    var after := FinishTx(c, db, rid, snapshot, tx, hash, ns).value;
    if after != db {
      OneMove(c, db, after, rid, KCommitted, ns, [tx, hash]);
    }
  }

  lemma FailKeeps(c: Config, db: Db, rid: Id, version: nat, ns: int)
    requires Inv(c, db)
    ensures Inv(c, FailTx(c, db, rid, version, ns))
  {
    if Holds(db, rid, version) {
      assert LogFollows(db, rid) && OutboxFollows(db, rid);
      OneMove(c, db, FailTx(c, db, rid, version, ns), rid, KFailed, ns, []);
    }
  }

  /** `after` is `db` with exactly the rows of `order` moved one step back to INGESTED. */
  ghost predicate MovedBack(db: Db, order: seq<Id>, after: Db) {
    && after.outbox == db.outbox && after.replays == db.replays && after.submissions.Keys == db.submissions.Keys
    && forall rid | rid in db.submissions :: after.submissions[rid] ==
         if rid in order then Move(db.submissions[rid], Ingested, 0.0) else db.submissions[rid]
  }

  lemma MovedBackNext(c: Config, db: Db, order: seq<Id>, after: Db, rid: Id, ns: int)
    requires MovedBack(db, order, after) && rid in db.submissions && rid !in order
    ensures MovedBack(db, order + [rid], RecoverOne(c, after, rid, ns))
  {}

  /** The recovery loop moves exactly the selected rows. */
  lemma {:induction false} RecoverRowsTables(c: Config, db: Db, order: seq<Id>, ns: nat -> int)
    requires NoDup(order)
    requires forall rid | rid in order :: rid in db.submissions
    ensures MovedBack(db, order, RecoverRows(c, db, order, ns))
  {
    if order != [] {
      var k := |order| - 1;
      RecoverRowsTables(c, db, order[..k], ns);
      assert order[k] !in order[..k] && order[k] in order;
      MovedBackNext(c, db, order[..k], RecoverRows(c, db, order[..k], ns), order[k], ns(k));
      assert order == order[..k] + [order[k]];
    }
  }

  lemma RecoverOneKeeps(c: Config, db: Db, rid: Id, ns: int)
    requires Inv(c, db) && InStage(db, rid, Processing)
    ensures Inv(c, RecoverOne(c, db, rid, ns))
  {
    assert LogFollows(db, rid) && OutboxFollows(db, rid);
    OneMove(c, db, RecoverOne(c, db, rid, ns), rid, KLeaseRecovered, ns, []);
  }

  lemma {:induction false} RecoverKeeps(c: Config, db: Db, order: seq<Id>, ns: nat -> int)
    requires Inv(c, db) && NoDup(order)
    requires forall rid | rid in order :: rid in db.submissions && db.submissions[rid].stage == Processing
    ensures Inv(c, RecoverRows(c, db, order, ns))
  {
    if order != [] {
      var k := |order| - 1;
      RecoverKeeps(c, db, order[..k], ns);
      RecoverRowsTables(c, db, order[..k], ns);
      assert order[k] !in order[..k];
      RecoverOneKeeps(c, RecoverRows(c, db, order[..k], ns), order[k], ns(k));
    }
  }

  lemma ApplyKeeps(c: Config, db: Db, op: Op)
    requires Inv(c, db)
    ensures Inv(c, Apply(c, db, op))
  {
    match op
    case OpIngest(a, now, created, ns) =>
      if IngestTx(c, db, a, now, created, ns).Ok? { IngestKeeps(c, db, a, now, created, ns); }
    case OpClaim(rid, now, ns) =>
      if ClaimTx(c, db, rid, now, ns).Ok? { ClaimKeeps(c, db, rid, now, ns); }
    case OpPrepare(rid, version, payload, ns) =>
      if PrepareTx(c, db, rid, version, payload, ns).Ok? { PrepareKeeps(c, db, rid, version, payload, ns); }
    case OpFinish(rid, snapshot, tx, hash, ns) =>
      if FinishTx(c, db, rid, snapshot, tx, hash, ns).Ok? { FinishKeeps(c, db, rid, snapshot, tx, hash, ns); }
    case OpFail(rid, version, ns) => FailKeeps(c, db, rid, version, ns);
    case OpRecover(now, order, stamps) =>
      if Selects(db, now, order) { RecoverKeeps(c, db, order, stamps); }
  }

  lemma {:induction false} RunKeeps(c: Config, db: Db, ops: seq<Op>)
    requires Inv(c, db)
    ensures Inv(c, Run(c, db, ops))
  {
    if ops != [] {
      var k := |ops| - 1;
      RunKeeps(c, db, ops[..k]);
      ApplyKeeps(c, Run(c, db, ops[..k]), ops[k]);
    }
  }

  /** Whatever calls are made in whatever order, the log refines the tables. */
  lemma LogRefinesTables(c: Config, ops: seq<Op>)
    ensures Inv(c, Run(c, EMPTY, ops))
  {
    RunKeeps(c, EMPTY, ops);
  }
}
