/**
 One process that runs to its end without interruption: what the sequential code of the
 pipeline computes, and what a caller of it can rely on.
 */
module Solo {
  import opened Prelude
  import opened StoreModel
  import opened Protocol
  import opened ProtocolSafety
  import EventLog
  import Fencing

  /** What each step of an uninterrupted run takes from outside, counted down to the last step. */
  type Inputs = nat -> Input

  const CHECK := 3
  const CALL := 2
  const FINISH := 1

  function Rank(p: Delivery): nat {
    match p
    case DStart(_) => 4
    case DPending(_, _) => CHECK
    case DLookup(_, _, _, _) => CALL
    case DSubmit(_, _, _) => CALL
    case DFinish(_, _, _) => FINISH
    case _ => 0
  }

  /** All steps of a delivery in a row, each with its own outside input. */
  function Deliver(env: Env, s: Shared, p: Delivery, i: Inputs): (Shared, Delivery)
    decreases Rank(p)
  {
    if Rank(p) == 0 then (s, p)
    else var (after, q) := DeliverStep(env, s, p, i(Rank(p))); Deliver(env, after, q, i)
  }

  const CLAIM := 3
  const PREPARE := 2
  const FAIL := 1

  function WorkRank(p: Worker): nat {
    match p
    case WStart(_) => CLAIM
    case WClaimed(_, _) => PREPARE
    case WFailing(_, _) => FAIL
    case WEnded => 0
  }

  function Work(env: Env, s: Shared, p: Worker, i: Inputs): Shared
    decreases WorkRank(p)
  {
    if p.WEnded? then s else var (after, q) := WorkerStep(env, s, p, i(WorkRank(p))); Work(env, after, q, i)
  }

  const LOOK := 4
  const WRITE := 3
  const ADMIT := 2
  const UNLINK := 1

  function IngestRank(p: Ingestion): nat {
    match p
    case IStart(_) => LOOK
    case IGated(_) => WRITE
    case IWritten(_) => ADMIT
    case IUnlink(_) => UNLINK
    case _ => 0
  }

  function Ingest(env: Env, s: Shared, p: Ingestion, i: Inputs): (Shared, Ingestion)
    decreases IngestRank(p)
  {
    if IngestRank(p) == 0 then (s, p)
    else var (after, q) := IngestStep(env, s, p, i(IngestRank(p))); Ingest(env, after, q, i)
  }

  // ---------------------------------------------------------------- delivery

  lemma {:induction false} DeliverKeeps(env: Env, s: Shared, p: Delivery, i: Inputs)
    requires Good(env, s) && DeliveryOk(s, p)
    ensures var (after, q) := Deliver(env, s, p, i);
            Good(env, after) && DeliveryOk(after, q) && q.rid == p.rid && (q.DReturned? || q.DRaised?)
    decreases Rank(p)
  {
    if Rank(p) != 0 {
      DeliverStepSafe(env, s, p, i(Rank(p)));
      var (after, q) := DeliverStep(env, s, p, i(Rank(p)));
      DeliverKeeps(env, after, q, i);
    }
  }

  /** `rid` is prepared and the ledger holds nothing else than its receipt under that id. */
  predicate Deliverable(s: Shared, rid: Id) {
    && InStage(s.db, rid, Prepared) && rid in s.db.outbox
    && (rid in s.ledger ==> s.ledger[rid].hash == s.db.outbox[rid].payload.receiptHash)
  }

  lemma PreparedEntry(env: Env, s: Shared, rid: Id)
    requires Good(env, s) && InStage(s.db, rid, Prepared)
    ensures rid in s.db.outbox && s.db.outbox[rid].status == Pending
    ensures s.db.outbox[rid].snapshot == s.db.submissions[rid].version
    ensures Bound(env, rid, s.db.submissions[rid], s.db.outbox[rid].payload)
  {
    assert EventLog.OutboxFollows(s.db, rid) && OutboxBound(env, s.db, rid);
  }

  /** Nothing stands in the way of a step: the work and every check go through, and no reply is lost. */
  predicate StepWorks(i: Input) {
    i.proceed && i.accepted && !i.replyLost
  }

  /** Nothing stands in the way of a delivery, and its receipt verifies when it is checked. */
  ghost predicate Works(env: Env, i: Inputs, p: Payload) {
    (forall n :: StepWorks(i(n))) && env.verifies(p, i(CHECK).clock)
  }

  lemma Then(env: Env, s: Shared, p: Delivery, i: Inputs, after: Shared, q: Delivery)
    requires Rank(p) != 0 && DeliverStep(env, s, p, i(Rank(p))) == (after, q)
    ensures Deliver(env, s, p, i) == Deliver(env, after, q, i)
  {}

  lemma ThenWork(env: Env, s: Shared, p: Worker, i: Inputs, after: Shared, q: Worker)
    requires !p.WEnded? && WorkerStep(env, s, p, i(WorkRank(p))) == (after, q)
    ensures Work(env, s, p, i) == Work(env, after, q, i)
  {}

  lemma ThenIngest(env: Env, s: Shared, p: Ingestion, i: Inputs, after: Shared, q: Ingestion)
    requires IngestRank(p) != 0 && IngestStep(env, s, p, i(IngestRank(p))) == (after, q)
    ensures Ingest(env, s, p, i) == Ingest(env, after, q, i)
  {}

  /** An entry as it stands between `prepare` and `finish`. */
  predicate Waiting(env: Env, s: Shared, rid: Id) {
    && InStage(s.db, rid, Prepared) && rid in s.db.outbox && s.db.outbox[rid].status == Pending
    && s.db.outbox[rid].snapshot == s.db.submissions[rid].version
    && Bound(env, rid, s.db.submissions[rid], s.db.outbox[rid].payload)
  }

  /** The state once `ack` has been recorded in the tables. */
  function Finished(env: Env, s: Shared, rid: Id, ack: Ack, ns: int): Shared
    requires rid in s.db.outbox
  {
    s.(db := Kept(s.db, FinishTx(env.store, s.db, rid, s.db.outbox[rid].snapshot, ack.tx, ack.hash, ns)))
  }

  lemma FinishWaiting(env: Env, s: Shared, rid: Id, ack: Ack, i: Inputs)
    requires Waiting(env, s, rid) && !i(FINISH).replyLost
    requires ack.tx != "" && ack.hash == s.db.outbox[rid].payload.receiptHash
    ensures Deliver(env, s, DFinish(rid, s.db.outbox[rid], ack), i)
              == (Finished(env, s, rid, ack, i(FINISH).ns), DReturned(rid, ack))
    ensures var after := Finished(env, s, rid, ack, i(FINISH).ns);
            && after.db.submissions == s.db.submissions[rid := after.db.submissions[rid]]
            && after.db.outbox == s.db.outbox[rid := after.db.outbox[rid]]
            && InStage(after.db, rid, Committed) && after.db.outbox[rid].txId == Some(ack.tx)
            && after.db.submissions[rid].version == s.db.submissions[rid].version + 1
            && after.db.outbox[rid].payload == s.db.outbox[rid].payload
            && after.db.submissions[rid].cipherHash == s.db.submissions[rid].cipherHash
  {
    Then(env, s, DFinish(rid, s.db.outbox[rid], ack), i, Finished(env, s, rid, ack, i(FINISH).ns), DReturned(rid, ack));
  }

  /**
   Lost acknowledgement, then expiry or revocation: the row is finalized from the record
   that is already there, under its transaction id, and nothing is written to the ledger.
   */
  lemma OldCommitIsRecovered(env: Env, s: Shared, rid: Id, i: Inputs)
    requires Good(env, s) && Deliverable(s, rid) && rid in s.ledger
    requires !env.verifies(s.db.outbox[rid].payload, i(CHECK).clock) && !i(CALL).replyLost && !i(FINISH).replyLost
    ensures var (after, q) := Deliver(env, s, DStart(rid), i);
            && q == DReturned(rid, Ack(s.ledger[rid].tx, s.ledger[rid].hash))
            && InStage(after.db, rid, Committed) && after.ledger == s.ledger
            && rid in after.db.outbox && after.db.outbox[rid].txId == Some(s.ledger[rid].tx)
  {
    PreparedEntry(env, s, rid);
    RecoveryPath(env, s, rid, i);
  }

  lemma RecoveryPath(env: Env, s: Shared, rid: Id, i: Inputs)
    requires Waiting(env, s, rid) && Deliverable(s, rid) && rid in s.ledger && s.ledger[rid].tx != ""
    requires !env.verifies(s.db.outbox[rid].payload, i(CHECK).clock) && !i(CALL).replyLost && !i(FINISH).replyLost
    ensures var ack := Ack(s.ledger[rid].tx, s.ledger[rid].hash);
            && Deliver(env, s, DStart(rid), i) == (Finished(env, s, rid, ack, i(FINISH).ns), DReturned(rid, ack))
            && InStage(Finished(env, s, rid, ack, i(FINISH).ns).db, rid, Committed)
            && rid in Finished(env, s, rid, ack, i(FINISH).ns).db.outbox
            && Finished(env, s, rid, ack, i(FINISH).ns).db.outbox[rid].txId == Some(ack.tx)
  {
    var out, row := s.db.outbox[rid], s.db.submissions[rid];
    var ack := Ack(s.ledger[rid].tx, s.ledger[rid].hash);
    Then(env, s, DStart(rid), i, s, DPending(rid, out));
    Then(env, s, DPending(rid, out), i, s, DLookup(rid, out, row, false));
    Then(env, s, DLookup(rid, out, row, false), i, s, DFinish(rid, out, ack));
    FinishWaiting(env, s, rid, ack, i);
  }

  /** The ledger record a delivery ends with: the one already there, or its own. */
  function FinalAck(s: Shared, rid: Id, tx: Tx): Ack
    requires rid in s.db.outbox
  {
    if rid in s.ledger then Ack(s.ledger[rid].tx, s.ledger[rid].hash) else Ack(tx, s.db.outbox[rid].payload.receiptHash)
  }

  /**
   With a working ledger and a receipt that verifies, a prepared entry is committed on both
   sides, and no other row of either side changes.
   */
  lemma DeliveryCommits(env: Env, s: Shared, rid: Id, i: Inputs)
    requires Good(env, s) && Deliverable(s, rid) && Works(env, i, s.db.outbox[rid].payload) && i(CALL).tx != ""
    ensures var (after, q) := Deliver(env, s, DStart(rid), i);
            && Good(env, after) && q == DReturned(rid, FinalAck(s, rid, i(CALL).tx)) && BothCommitted(after, rid)
            && after.ledger == s.ledger[rid := LedgerRow(q.ack.hash, q.ack.tx)]
            && rid in after.db.outbox && after.db.outbox == s.db.outbox[rid := after.db.outbox[rid]]
            && after.db.submissions == s.db.submissions[rid := after.db.submissions[rid]]
            && after.db.submissions[rid].version == s.db.submissions[rid].version + 1
            && after.db.outbox[rid].payload == s.db.outbox[rid].payload
            && after.files == s.files
  {
    PreparedEntry(env, s, rid);
    DeliverKeeps(env, s, DStart(rid), i);
    CommitPath(env, s, rid, i);
  }

  lemma CommitPath(env: Env, s: Shared, rid: Id, i: Inputs)
    requires Waiting(env, s, rid) && Deliverable(s, rid) && Works(env, i, s.db.outbox[rid].payload) && i(CALL).tx != ""
    requires rid in s.ledger ==> s.ledger[rid].tx != ""
    ensures var ack := FinalAck(s, rid, i(CALL).tx);
            var s1 := s.(ledger := s.ledger[rid := LedgerRow(ack.hash, ack.tx)]);
            var after := Finished(env, s1, rid, ack, i(FINISH).ns);
            && Deliver(env, s, DStart(rid), i) == (after, DReturned(rid, ack))
            && rid in after.db.outbox && after.db.outbox == s.db.outbox[rid := after.db.outbox[rid]]
            && InStage(after.db, rid, Committed)
            && after.db.submissions == s.db.submissions[rid := after.db.submissions[rid]]
            && after.db.submissions[rid].version == s.db.submissions[rid].version + 1
            && after.db.outbox[rid].payload == s.db.outbox[rid].payload
  {
    var out := s.db.outbox[rid];
    var ack := FinalAck(s, rid, i(CALL).tx);
    var s1 := s.(ledger := s.ledger[rid := LedgerRow(ack.hash, ack.tx)]);
    Then(env, s, DStart(rid), i, s, DPending(rid, out));
    Then(env, s, DPending(rid, out), i, s, DSubmit(rid, out, i(CHECK).clock));
    SubmitOwn(env, s, rid, i(CALL).tx);
    Then(env, s, DSubmit(rid, out, i(CHECK).clock), i, s1, DFinish(rid, out, ack));
    FinishWaiting(env, s1, rid, ack, i);
  }

  lemma SubmitOwn(env: Env, s: Shared, rid: Id, tx: Tx)
    requires Waiting(env, s, rid) && Deliverable(s, rid) && tx != ""
    ensures var ack := FinalAck(s, rid, tx);
            && Submit(s.ledger, s.db.outbox[rid].payload, true, tx)
                == (s.ledger[rid := LedgerRow(ack.hash, ack.tx)], Some(ack))
            && ack.hash == s.db.outbox[rid].payload.receiptHash
  {
    if rid in s.ledger { assert s.ledger[rid := s.ledger[rid]] == s.ledger; }
  }

  /** A delivery of a committed record returns the recorded acknowledgement and changes nothing. */
  lemma RetryReturnsTheSame(env: Env, s: Shared, rid: Id, i: Inputs)
    requires Good(env, s) && InStage(s.db, rid, Committed) && !i(CALL).replyLost
    ensures Agrees(s, rid)
    ensures Deliver(env, s, DStart(rid), i) == (s, DReturned(rid, Ack(s.ledger[rid].tx, s.ledger[rid].hash)))
  {
    assert Agrees(s, rid) && OutboxBound(env, s.db, rid);
    CachedPath(env, s, rid, i);
  }

  lemma CachedPath(env: Env, s: Shared, rid: Id, i: Inputs)
    requires InStage(s.db, rid, Committed) && Agrees(s, rid) && OutboxBound(env, s.db, rid)
    requires s.ledger[rid].tx != "" && !i(CALL).replyLost
    ensures Deliver(env, s, DStart(rid), i) == (s, DReturned(rid, Ack(s.ledger[rid].tx, s.ledger[rid].hash)))
  {
    var out, row := s.db.outbox[rid], s.db.submissions[rid];
    Then(env, s, DStart(rid), i, s, DPending(rid, out));
    Then(env, s, DPending(rid, out), i, s, DLookup(rid, out, row, true));
    Then(env, s, DLookup(rid, out, row, true), i, s, DReturned(rid, Ack(s.ledger[rid].tx, s.ledger[rid].hash)));
  }

  // ---------------------------------------------------------------- from upload to commit

  /**
   An admissible upload of a new id, with nothing failing on the way, ends committed on both
   sides at version 4, and the ledger row is the one computed from the worker's own payload.
   Upload, worker and delivery each have their own inputs.
   */
  lemma UploadCommits(env: Env, s: Shared, a: IngestArgs, u: Inputs, w: Inputs, i: Inputs)
    requires Good(env, s) && (forall n :: StepWorks(u(n)) && StepWorks(w(n)) && StepWorks(i(n))) && i(CALL).tx != ""
    requires a.rid !in s.db.submissions && a.rid !in s.files && a.rid !in s.ledger
    requires IngestTx(env.store, s.db, a, u(ADMIT).now, u(ADMIT).created, u(ADMIT).ns).Ok?
    ensures var s1 := Ingest(env, s, IStart(a), u).0;
            var s2 := Work(env, s1, WStart(a.rid), w);
            var (s3, q) := Deliver(env, s2, DStart(a.rid), i);
            && a.rid in s2.db.outbox
            && (env.verifies(s2.db.outbox[a.rid].payload, i(CHECK).clock) ==>
                  && a.rid in s3.db.outbox
                  && q == DReturned(a.rid, Ack(i(CALL).tx, env.digest(s3.db.outbox[a.rid].payload.receipt)))
                  && BothCommitted(s3, a.rid) && s3.db.submissions[a.rid].version == 4
                  && a.rid in s3.files
                      && s3.files[a.rid] == a.cipherHash == s3.db.outbox[a.rid].payload.receipt.ciphertextHash)
  {
    UploadPrepares(env, s, a, u, w);
    var s2 := Work(env, Ingest(env, s, IStart(a), u).0, WStart(a.rid), w);
    PreparedEntry(env, s2, a.rid);
    if env.verifies(s2.db.outbox[a.rid].payload, i(CHECK).clock) { DeliveryCommits(env, s2, a.rid, i); }
  }

  /** The upload's own file, then its admission. */
  lemma UploadAdmits(env: Env, s: Shared, a: IngestArgs, u: Inputs)
    requires forall n :: StepWorks(u(n))
    requires a.rid !in s.db.submissions && a.rid !in s.files
    requires IngestTx(env.store, s.db, a, u(ADMIT).now, u(ADMIT).created, u(ADMIT).ns).Ok?
    ensures var db := IngestTx(env.store, s.db, a, u(ADMIT).now, u(ADMIT).created, u(ADMIT).ns).value;
            Ingest(env, s, IStart(a), u) == (s.(files := s.files[a.rid := a.cipherHash], db := db), IDone(a.rid))
  {
    var written := s.(files := s.files[a.rid := a.cipherHash]);
    var s1 := written.(db := IngestTx(env.store, s.db, a, u(ADMIT).now, u(ADMIT).created, u(ADMIT).ns).value);
    assert StepWorks(u(LOOK)) && StepWorks(u(WRITE)) && StepWorks(u(ADMIT));
    ThenIngest(env, s, IStart(a), u, s, IGated(a));
    ThenIngest(env, s, IGated(a), u, written, IWritten(a));
    ThenIngest(env, written, IWritten(a), u, s1, IDone(a.rid));
  }

  lemma AdmittedIsGood(env: Env, s: Shared, a: IngestArgs, u: Inputs)
    requires Good(env, s) && forall n :: StepWorks(u(n))
    requires a.rid !in s.db.submissions && a.rid !in s.files
    requires IngestTx(env.store, s.db, a, u(ADMIT).now, u(ADMIT).created, u(ADMIT).ns).Ok?
    ensures var s1 := Ingest(env, s, IStart(a), u).0;
            && Good(env, s1) && InStage(s1.db, a.rid, Ingested) && a.rid !in s1.db.outbox
            && s1.db.submissions[a.rid].version == 1 && s1.db.submissions[a.rid].cipherHash == a.cipherHash
  {
    UploadAdmits(env, s, a, u);
    assert StepWorks(u(WRITE)) && StepWorks(u(ADMIT));
    var written := s.(files := s.files[a.rid := a.cipherHash]);
    IngestStepSafe(env, s, IGated(a), u(WRITE));
    IngestStepSafe(env, written, IWritten(a), u(ADMIT));
    assert EventLog.OutboxFollows(Ingest(env, s, IStart(a), u).0.db, a.rid);
  }

  lemma UploadPrepares(env: Env, s: Shared, a: IngestArgs, u: Inputs, w: Inputs)
    requires Good(env, s) && forall n :: StepWorks(u(n)) && StepWorks(w(n))
    requires a.rid !in s.db.submissions && a.rid !in s.files && a.rid !in s.ledger
    requires IngestTx(env.store, s.db, a, u(ADMIT).now, u(ADMIT).created, u(ADMIT).ns).Ok?
    ensures var (s1, p) := Ingest(env, s, IStart(a), u);
            var s2 := Work(env, s1, WStart(a.rid), w);
            && p == IDone(a.rid) && Good(env, s2) && Deliverable(s2, a.rid)
            && s2.db.submissions[a.rid].version == 3 && s2.db.submissions[a.rid].cipherHash == a.cipherHash
            && s2.files == s.files[a.rid := a.cipherHash] && s2.ledger == s.ledger
  {
    UploadAdmits(env, s, a, u);
    AdmittedIsGood(env, s, a, u);
    assert StepWorks(w(CLAIM)) && StepWorks(w(PREPARE));
    WorkPrepares(env, Ingest(env, s, IStart(a), u).0, a.rid, w);
  }

  lemma WorkPrepares(env: Env, s: Shared, rid: Id, w: Inputs)
    requires Good(env, s) && InStage(s.db, rid, Ingested)
    requires w(PREPARE).proceed && !w(CLAIM).replyLost && !w(PREPARE).replyLost
    ensures var after := Work(env, s, WStart(rid), w);
            && Good(env, after) && InStage(after.db, rid, Prepared) && rid in after.db.outbox
            && after.db.submissions[rid].version == s.db.submissions[rid].version + 2
            && SameBinding(after.db.submissions[rid], s.db.submissions[rid])
            && after.ledger == s.ledger && after.files == s.files
  {
    WorkerStepSafe(env, s, WStart(rid), w(CLAIM));
    var (s1, p) := WorkerStep(env, s, WStart(rid), w(CLAIM));
    assert EventLog.OutboxFollows(s1.db, rid);
    WorkerStepSafe(env, s1, p, w(PREPARE));
    var (s2, q) := WorkerStep(env, s1, p, w(PREPARE));
    assert q == WEnded;
    ThenWork(env, s, WStart(rid), w, s1, p);
    ThenWork(env, s1, p, w, s2, q);
  }

  // ---------------------------------------------------------------- what does not go through

  /** The receipt of a prepared entry still verifies, but a recheck fails: nothing is submitted and nothing changes. */
  lemma FailedCheckSubmitsNothing(env: Env, s: Shared, rid: Id, i: Inputs)
    requires rid in s.db.outbox && s.db.outbox[rid].status == Pending
    requires env.verifies(s.db.outbox[rid].payload, i(CHECK).clock) && !i(CHECK).proceed
    ensures Deliver(env, s, DStart(rid), i) == (s, DRaised(rid))
  {
    var out := s.db.outbox[rid];
    Then(env, s, DStart(rid), i, s, DPending(rid, out));
    Then(env, s, DPending(rid, out), i, s, DRaised(rid));
  }

  /** Work that fails after its claim leaves no outbox row; the claimed submission is marked failed. */
  lemma FailedWorkPreparesNothing(env: Env, s: Shared, rid: Id, w: Inputs)
    requires !w(PREPARE).proceed
    ensures var after := Work(env, s, WStart(rid), w);
            && after.db.outbox == s.db.outbox && after.ledger == s.ledger && after.files == s.files
            && (InStage(s.db, rid, Ingested) && !w(CLAIM).replyLost ==>
                  && InStage(after.db, rid, Failed)
                  && after.db.submissions[rid].version == s.db.submissions[rid].version + 2)
            && (!InStage(s.db, rid, Ingested) ==> after == s)
  {
    var (s1, p) := WorkerStep(env, s, WStart(rid), w(CLAIM));
    ThenWork(env, s, WStart(rid), w, s1, p);
    if p.WClaimed? {
      ThenWork(env, s1, p, w, s1, WFailing(rid, p.row.version));
      var s2 := s1.(db := FailTx(env.store, s1.db, rid, p.row.version, w(FAIL).ns));
      ThenWork(env, s1, WFailing(rid, p.row.version), w, s2, WEnded);
    }
  }

  /** A new document that the gate or the encryption refuses, or whose file exists, leaves nothing behind. */
  lemma GatedUploadAdmitsNothing(env: Env, s: Shared, a: IngestArgs, u: Inputs)
    requires a.rid !in s.db.submissions
    requires !u(LOOK).proceed || !u(WRITE).proceed || a.rid in s.files
    ensures Ingest(env, s, IStart(a), u) == (s, IRaised)
  {
    if u(LOOK).proceed {
      ThenIngest(env, s, IStart(a), u, s, IGated(a));
      ThenIngest(env, s, IGated(a), u, s, IRaised);
    } else {
      ThenIngest(env, s, IStart(a), u, s, IRaised);
    }
  }

  /** An upload that the store refuses takes its own file away again. */
  lemma RefusedUploadLeavesNothing(env: Env, s: Shared, a: IngestArgs, u: Inputs)
    requires a.rid !in s.db.submissions && a.rid !in s.files && u(LOOK).proceed && u(WRITE).proceed
    requires IngestTx(env.store, s.db, a, u(ADMIT).now, u(ADMIT).created, u(ADMIT).ns).Err?
    ensures Ingest(env, s, IStart(a), u) == (s, IRaised)
  {
    var written := s.(files := s.files[a.rid := a.cipherHash]);
    assert s.files[a.rid := a.cipherHash] - {a.rid} == s.files;
    ThenIngest(env, s, IStart(a), u, s, IGated(a));
    ThenIngest(env, s, IGated(a), u, written, IWritten(a));
    ThenIngest(env, written, IWritten(a), u, written, IUnlink(a));
    ThenIngest(env, written, IUnlink(a), u, s, IRaised);
  }

  /** An upload of a known id changes nothing: the id again for the same document and vendor, else a refusal. */
  lemma KnownUploadIsAnswered(env: Env, s: Shared, a: IngestArgs, u: Inputs)
    requires a.rid in s.db.submissions
    ensures var row := s.db.submissions[a.rid];
            Ingest(env, s, IStart(a), u) ==
              (s, if row.documentHash == a.documentHash && row.vendor == a.vendor then IDone(a.rid) else IRaised)
  {
    ThenIngest(env, s, IStart(a), u, s, IngestStep(env, s, IStart(a), u(LOOK)).1);
  }

  // ---------------------------------------------------------------- repair of an outbox entry

  lemma {:induction false} DeliverGrows(env: Env, s: Shared, p: Delivery, i: Inputs)
    requires Good(env, s) && DeliveryOk(s, p)
    ensures Grows(s, Deliver(env, s, p, i).0)
    decreases Rank(p)
  {
    if Rank(p) == 0 {
      GrowsRefl(s);
    } else {
      DeliverStepSafe(env, s, p, i(Rank(p)));
      var (after, q) := DeliverStep(env, s, p, i(Rank(p)));
      DeliverGrows(env, after, q, i);
      Then(env, s, p, i, after, q);
      GrowsTrans(s, after, Deliver(env, after, q, i).0);
    }
  }

  lemma GrowsTrans(a: Shared, b: Shared, c: Shared)
    requires Grows(a, b) && Grows(b, c)
    ensures Grows(a, c)
  {}

  /** Both sides agree on the rows of `other`. */
  predicate SameRows(s: Shared, after: Shared, other: Id) {
    && (other in after.ledger <==> other in s.ledger) && (other in s.ledger ==> after.ledger[other] == s.ledger[other])
    && (other in after.db.outbox <==> other in s.db.outbox)
    && (other in s.db.outbox ==> after.db.outbox[other] == s.db.outbox[other])
    && (other in after.db.submissions <==> other in s.db.submissions)
    && (other in s.db.submissions ==> after.db.submissions[other] == s.db.submissions[other])
  }

  lemma SameRowsThen(a: Shared, b: Shared, c: Shared, other: Id)
    requires SameRows(a, b, other) && SameRows(b, c, other)
    ensures SameRows(a, c, other)
  {}

  lemma StepFrame(env: Env, s: Shared, p: Delivery, i: Input, other: Id)
    requires p.DSubmit? ==> p.out.payload.recordID == p.rid
    requires other != p.rid
    ensures SameRows(s, DeliverStep(env, s, p, i).0, other)
  {}

  /** The delivery of `rid` leaves every other row of both sides alone. */
  lemma {:induction false} DeliverFrame(env: Env, s: Shared, p: Delivery, i: Inputs, other: Id)
    requires Good(env, s) && DeliveryOk(s, p) && other != p.rid
    ensures SameRows(s, Deliver(env, s, p, i).0, other)
    decreases Rank(p)
  {
    if Rank(p) != 0 {
      assert OutboxBound(env, s.db, p.rid);
      StepFrame(env, s, p, i(Rank(p)), other);
      DeliverStepSafe(env, s, p, i(Rank(p)));
      var (after, q) := DeliverStep(env, s, p, i(Rank(p)));
      DeliverFrame(env, after, q, i, other);
      Then(env, s, p, i, after, q);
      SameRowsThen(s, after, Deliver(env, after, q, i).0, other);
    }
  }

  /** Prepared with nothing foreign in the ledger, or committed already. */
  predicate Waits(s: Shared, rid: Id) {
    Deliverable(s, rid) || (InStage(s.db, rid, Committed) && rid in s.db.outbox)
  }

  /** Every entry waits, and nothing fails for any of them. */
  ghost predicate AllWork(env: Env, s: Shared, inputs: nat -> Inputs) {
    forall rid | rid in s.db.outbox :: Waits(s, rid) && forall k :: Works(env, inputs(k), s.db.outbox[rid].payload)
  }

  lemma WaitingIsFound(env: Env, s: Shared, e: (Id, OutRow))
    requires Good(env, s) && ReadFrom(s.db, e.0, e.1) && Waits(s, e.0)
    ensures Lookup(s.ledger, e.1.payload).Ok?
  {
    assert OutboxBound(env, s.db, e.0) && Agrees(s, e.0);
  }

  lemma WaitsSurvives(env: Env, s: Shared, rid: Id, i: Inputs)
    requires Good(env, s)
    ensures forall other | other != rid && Waits(s, other) :: Waits(Deliver(env, s, DStart(rid), i).0, other)
  {
    forall other | other != rid && Waits(s, other) ensures Waits(Deliver(env, s, DStart(rid), i).0, other) {
      DeliverFrame(env, s, DStart(rid), i, other);
    }
  }

  lemma WaitingIsRepaired(env: Env, s: Shared, rid: Id, i: Inputs)
    requires Good(env, s) && Waits(s, rid) && Works(env, i, s.db.outbox[rid].payload) && i(CALL).tx != ""
    ensures Deliver(env, s, DStart(rid), i).1.DReturned?
  {
    assert StepWorks(i(CALL));
    if Deliverable(s, rid) { DeliveryCommits(env, s, rid, i); } else { RetryReturnsTheSame(env, s, rid, i); }
  }
}
