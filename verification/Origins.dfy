/**
 Where rows come from: over any run every submission was admitted by an upload that had passed its
 gate and written its file, and every outbox row was prepared by a worker that had claimed the
 submission and whose work went through.
 */
module Origins {
  import opened Prelude
  import opened StoreModel
  import opened Protocol
  import opened ProtocolSafety
  import EventLog

  /** Process `id` is an upload at this point. */
  predicate Uploading(w: World, id: nat, p: Ingestion) {
    id in w.procs && w.procs[id] == PIngest(p)
  }

  predicate Working(w: World, id: nat, p: Worker) {
    id in w.procs && w.procs[id] == PWorker(p)
  }

  /** Action `m` is a step of process `id` in which everything it did itself went through. */
  predicate GoesOn(acts: seq<Action>, m: nat, id: nat) {
    m < |acts| && acts[m].Step? && acts[m].id == id && acts[m].input.proceed
  }

  /** The same ids have rows in both tables. */
  predicate SameIds(before: Db, after: Db) {
    after.submissions.Keys == before.submissions.Keys && after.outbox.Keys == before.outbox.Keys
  }

  lemma {:induction false} SweepAddsNothing(env: Env, db: Db, order: seq<Id>, ns: nat -> int)
    requires forall rid | rid in order :: rid in db.submissions
    ensures SameIds(db, RecoverRows(env.store, db, order, ns))
  {
    if order != [] { SweepAddsNothing(env, db, order[..|order| - 1], ns); }
  }

  lemma DeliveryAddsNothing(env: Env, s: Shared, d: Delivery, i: Input)
    ensures SameIds(s.db, DeliverStep(env, s, d, i).0.db)
  {}

  lemma OtherStepsAddNothing(env: Env, w: World, b: Action)
    requires b.Step? && b.id in w.procs ==> w.procs[b.id].PDeliver? || w.procs[b.id].PReconcile?
    ensures SameIds(w.shared.db, Next(env, w, b).shared.db)
  {
    match b
    case Step(id, i) =>
      if id in w.procs {
        match w.procs[id] {
          case PDeliver(d) => DeliveryAddsNothing(env, w.shared, d, i);
          case PReconcile(x) => if x.RRepair? { DeliveryAddsNothing(env, w.shared, x.inner, i); }
        }
      }
    case Sweep(now, order, stamps) =>
      if Selects(w.shared.db, now, order) { SweepAddsNothing(env, w.shared.db, order, stamps); }
    case _ =>
  }

  // ---------------------------------------------------------------- uploads

  /** Action `m` is the look at an id that is still free, and the gate after it, which passes. */
  ghost predicate PassedAt(env: Env, acts: seq<Action>, m: nat, id: nat, a: IngestArgs) {
    && GoesOn(acts, m, id) && Uploading(Exec(env, INITIAL, acts[..m]), id, IStart(a))
    && a.rid !in Exec(env, INITIAL, acts[..m]).shared.db.submissions
  }

  /** Action `m` creates the ciphertext file of this upload where there was none. */
  ghost predicate FiledAt(env: Env, acts: seq<Action>, m: nat, id: nat, a: IngestArgs) {
    && GoesOn(acts, m, id) && Uploading(Exec(env, INITIAL, acts[..m]), id, IGated(a))
    && a.rid !in Exec(env, INITIAL, acts[..m]).shared.files
    && exists n: nat :: PassedAt(env, acts[..m], n, id, a)
  }

  ghost predicate Passed(env: Env, acts: seq<Action>, id: nat, a: IngestArgs) {
    exists m: nat :: PassedAt(env, acts, m, id, a)
  }

  ghost predicate Filed(env: Env, acts: seq<Action>, id: nat, a: IngestArgs) {
    exists m: nat :: FiledAt(env, acts, m, id, a)
  }

  ghost predicate UploadsGated(env: Env, acts: seq<Action>) {
    forall id, a :: var w := Exec(env, INITIAL, acts);
      && (Uploading(w, id, IGated(a)) ==> Passed(env, acts, id, a))
      && (Uploading(w, id, IWritten(a)) ==> Filed(env, acts, id, a))
  }

  lemma PassedLater(env: Env, acts: seq<Action>, b: Action, id: nat, a: IngestArgs)
    requires Passed(env, acts, id, a)
    ensures Passed(env, acts + [b], id, a)
  {
    var m: nat :| PassedAt(env, acts, m, id, a);
    assert (acts + [b])[..m] == acts[..m] && (acts + [b])[m] == acts[m];
    assert PassedAt(env, acts + [b], m, id, a);
  }

  lemma FiledLater(env: Env, acts: seq<Action>, b: Action, id: nat, a: IngestArgs)
    requires Filed(env, acts, id, a)
    ensures Filed(env, acts + [b], id, a)
  {
    var m: nat :| FiledAt(env, acts, m, id, a);
    assert (acts + [b])[..m] == acts[..m] && (acts + [b])[m] == acts[m];
    assert FiledAt(env, acts + [b], m, id, a);
  }

  lemma UploadStep(env: Env, w: World, b: Action, id: nat, a: IngestArgs)
    ensures Uploading(Next(env, w, b), id, IGated(a)) ==>
              || Uploading(w, id, IGated(a))
              || (b.Step? && b.id == id && b.input.proceed && Uploading(w, id, IStart(a))
                  && a.rid !in w.shared.db.submissions)
    ensures Uploading(Next(env, w, b), id, IWritten(a)) ==>
              || Uploading(w, id, IWritten(a))
              || (b.Step? && b.id == id && b.input.proceed && Uploading(w, id, IGated(a)) && a.rid !in w.shared.files)
  {}

  lemma UploadsStayGated(env: Env, acts: seq<Action>, b: Action)
    requires UploadsGated(env, acts)
    ensures UploadsGated(env, acts + [b])
  {
    var w, all := Exec(env, INITIAL, acts), acts + [b];
    assert all[..|acts|] == acts;
    forall id, a
      ensures Uploading(Exec(env, INITIAL, all), id, IGated(a)) ==> Passed(env, all, id, a)
      ensures Uploading(Exec(env, INITIAL, all), id, IWritten(a)) ==> Filed(env, all, id, a)
    {
      UploadStep(env, w, b, id, a);
      if Uploading(Exec(env, INITIAL, all), id, IGated(a)) {
        if Uploading(w, id, IGated(a)) {
          PassedLater(env, acts, b, id, a);
        } else {
          assert PassedAt(env, all, |acts|, id, a);
        }
      }
      if Uploading(Exec(env, INITIAL, all), id, IWritten(a)) {
        if Uploading(w, id, IWritten(a)) {
          FiledLater(env, acts, b, id, a);
        } else {
          assert FiledAt(env, all, |acts|, id, a);
        }
      }
    }
  }

  lemma {:induction false} RunUploadsGated(env: Env, acts: seq<Action>)
    ensures UploadsGated(env, acts)
    decreases |acts|
  {
    if acts != [] {
      var k := |acts| - 1;
      RunUploadsGated(env, acts[..k]);
      UploadsStayGated(env, acts[..k], acts[k]);
      assert acts[..k] + [acts[k]] == acts;
    }
  }

  /** The row is what this upload asked for, whatever has become of it since. */
  predicate IsOf(row: Submission, a: IngestArgs) {
    && row.vendor == a.vendor && row.documentHash == a.documentHash && row.cipherHash == a.cipherHash
    && row.envelope == a.envelope && row.context == a.context && row.blobPath == a.path
  }

  /** Action `k` admits the upload of `rid`, whose process has passed the gate and written its file. */
  ghost predicate AdmittedAt(env: Env, acts: seq<Action>, k: nat, rid: Id, row: Submission) {
    && k < |acts| && acts[k].Step? && rid !in Exec(env, INITIAL, acts[..k]).shared.db.submissions
    && exists a :: UploadAdmitted(env, acts[..k], acts[k].id, a) && a.rid == rid && IsOf(row, a)
  }

  ghost predicate UploadAdmitted(env: Env, acts: seq<Action>, id: nat, a: IngestArgs) {
    Uploading(Exec(env, INITIAL, acts), id, IWritten(a)) && Filed(env, acts, id, a)
  }

  lemma UploadAdmitsOwn(env: Env, s: Shared, p: Ingestion, i: Input, rid: Id)
    requires rid !in s.db.submissions && rid in IngestStep(env, s, p, i).0.db.submissions
    ensures p.IWritten? && p.args.rid == rid
    ensures IsOf(IngestStep(env, s, p, i).0.db.submissions[rid], p.args)
  {}

  lemma WorkAdmitsNothing(env: Env, s: Shared, p: Worker, i: Input)
    ensures WorkerStep(env, s, p, i).0.db.submissions.Keys == s.db.submissions.Keys
  {}

  /** Only an upload adds a submission, and it adds its own. */
  lemma OnlyUploadsAdmit(env: Env, w: World, b: Action, rid: Id)
    requires rid !in w.shared.db.submissions && rid in Next(env, w, b).shared.db.submissions
    ensures b.Step? && b.id in w.procs && w.procs[b.id].PIngest? && w.procs[b.id].ingestion.IWritten?
    ensures w.procs[b.id].ingestion.args.rid == rid
    ensures IsOf(Next(env, w, b).shared.db.submissions[rid], w.procs[b.id].ingestion.args)
  {
    if b.Step? && b.id in w.procs && w.procs[b.id].PIngest? {
      UploadAdmitsOwn(env, w.shared, w.procs[b.id].ingestion, b.input, rid);
    } else if b.Step? && b.id in w.procs && w.procs[b.id].PWorker? {
      WorkAdmitsNothing(env, w.shared, w.procs[b.id].worker, b.input);
    } else {
      OtherStepsAddNothing(env, w, b);
    }
  }

  lemma AdmittedNow(env: Env, acts: seq<Action>, b: Action, rid: Id)
    requires var w := Exec(env, INITIAL, acts);
             rid !in w.shared.db.submissions && rid in Next(env, w, b).shared.db.submissions
    ensures AdmittedAt(env, acts + [b], |acts|, rid, Next(env, Exec(env, INITIAL, acts), b).shared.db.submissions[rid])
  {
    var w := Exec(env, INITIAL, acts);
    assert (acts + [b])[..|acts|] == acts;
    RunUploadsGated(env, acts);
    OnlyUploadsAdmit(env, w, b, rid);
    assert UploadAdmitted(env, acts, b.id, w.procs[b.id].ingestion.args);
  }

  /** The same upload explains the row as it is after one more action. */
  lemma AdmittedLater(env: Env, acts: seq<Action>, b: Action, k: nat, rid: Id)
    requires rid in Exec(env, INITIAL, acts).shared.db.submissions
    requires AdmittedAt(env, acts, k, rid, Exec(env, INITIAL, acts).shared.db.submissions[rid])
    ensures rid in Exec(env, INITIAL, acts + [b]).shared.db.submissions
    ensures AdmittedAt(env, acts + [b], k, rid, Exec(env, INITIAL, acts + [b]).shared.db.submissions[rid])
  {
    var w := Exec(env, INITIAL, acts);
    assert (acts + [b])[..|acts|] == acts && (acts + [b])[..k] == acts[..k] && (acts + [b])[k] == acts[k];
    AlwaysSafe(env, acts);
    NextSafe(env, w, b);
    var a :| UploadAdmitted(env, acts[..k], acts[k].id, a) && a.rid == rid && IsOf(w.shared.db.submissions[rid], a);
    assert IsOf(Next(env, w, b).shared.db.submissions[rid], a);
  }

  /**
   Every submission, at every moment of every run, is the one some upload asked for, and that upload
   had found the id free, passed the gate and created its file before the store admitted it.
   */
  lemma {:induction false} EverySubmissionWasGated(env: Env, acts: seq<Action>, rid: Id)
    requires rid in Exec(env, INITIAL, acts).shared.db.submissions
    ensures exists k: nat :: AdmittedAt(env, acts, k, rid, Exec(env, INITIAL, acts).shared.db.submissions[rid])
    decreases |acts|
  {
    var k := |acts| - 1;
    var before := acts[..k];
    assert before + [acts[k]] == acts;
    if rid in Exec(env, INITIAL, before).shared.db.submissions {
      EverySubmissionWasGated(env, before, rid);
      var m: nat :| AdmittedAt(env, before, m, rid, Exec(env, INITIAL, before).shared.db.submissions[rid]);
      AdmittedLater(env, before, acts[k], m, rid);
    } else {
      AdmittedNow(env, before, acts[k], rid);
    }
  }

  // ---------------------------------------------------------------- workers

  /** Action `m` is the claim in which the worker got this row: one version up, on lease. */
  ghost predicate ClaimedAt(env: Env, acts: seq<Action>, m: nat, id: nat, rid: Id, row: Submission) {
    && m < |acts| && acts[m].Step? && acts[m].id == id
    && Working(Exec(env, INITIAL, acts[..m]), id, WStart(rid))
    && InStage(Exec(env, INITIAL, acts[..m]).shared.db, rid, Ingested)
    && row == Exec(env, INITIAL, acts[..m]).shared.db.submissions[rid].(
         stage := Processing, version := row.version, leaseUntil := acts[m].input.now + 300.0)
    && row.version == Exec(env, INITIAL, acts[..m]).shared.db.submissions[rid].version + 1
  }

  ghost predicate Claimed(env: Env, acts: seq<Action>, id: nat, rid: Id, row: Submission) {
    exists m: nat :: ClaimedAt(env, acts, m, id, rid, row)
  }

  ghost predicate WorkersClaimed(env: Env, acts: seq<Action>) {
    forall id, rid, row | Working(Exec(env, INITIAL, acts), id, WClaimed(rid, row)) :: Claimed(env, acts, id, rid, row)
  }

  lemma ClaimedLater(env: Env, acts: seq<Action>, b: Action, id: nat, rid: Id, row: Submission)
    requires Claimed(env, acts, id, rid, row)
    ensures Claimed(env, acts + [b], id, rid, row)
  {
    var m: nat :| ClaimedAt(env, acts, m, id, rid, row);
    assert (acts + [b])[..m] == acts[..m] && (acts + [b])[m] == acts[m];
    assert ClaimedAt(env, acts + [b], m, id, rid, row);
  }

  lemma WorkersStayClaimed(env: Env, acts: seq<Action>, b: Action)
    requires WorkersClaimed(env, acts)
    ensures WorkersClaimed(env, acts + [b])
  {
    var w, all := Exec(env, INITIAL, acts), acts + [b];
    assert all[..|acts|] == acts;
    forall id, rid, row | Working(Exec(env, INITIAL, all), id, WClaimed(rid, row))
      ensures Claimed(env, all, id, rid, row)
    {
      if Working(w, id, WClaimed(rid, row)) {
        ClaimedLater(env, acts, b, id, rid, row);
      } else {
        assert ClaimedAt(env, all, |acts|, id, rid, row);
      }
    }
  }

  lemma {:induction false} RunWorkersClaimed(env: Env, acts: seq<Action>)
    ensures WorkersClaimed(env, acts)
    decreases |acts|
  {
    if acts != [] {
      var k := |acts| - 1;
      RunWorkersClaimed(env, acts[..k]);
      WorkersStayClaimed(env, acts[..k], acts[k]);
      assert acts[..k] + [acts[k]] == acts;
    }
  }

  /** The payload is over the claimed row and this worker's own results, and under the digest of its receipt. */
  predicate Covers(env: Env, p: Payload, rid: Id, row: Submission, d: Draft) {
    && p.recordID == p.receipt.recordID == p.receipt.nonce == rid
    && p.receipt.vendorID == row.vendor
    && p.receipt.documentHash == row.documentHash && p.receipt.ciphertextHash == row.cipherHash
    && p.receipt.sbomHash == d.sbomHash && p.receipt.policyHash == d.policyHash && p.receipt.decision == d.decision
    && p.receipt.keyID == d.keyID && p.receipt.issuedAt == d.issuedAt && p.receipt.expiresAt == d.expiresAt
    && p.receiptHash == env.digest(p.receipt) && p.signature == d.signature
  }

  /** Action `k` prepares this payload for `rid`, at the claimed version, after work that went through. */
  ghost predicate PreparedAt(env: Env, acts: seq<Action>, k: nat, rid: Id, p: Payload) {
    && k < |acts| && acts[k].Step? && acts[k].input.proceed
    && rid !in Exec(env, INITIAL, acts[..k]).shared.db.outbox
    && exists row :: WorkPrepared(env, acts[..k], acts[k].id, rid, row) && Covers(env, p, rid, row, acts[k].input.draft)
  }

  ghost predicate WorkPrepared(env: Env, acts: seq<Action>, id: nat, rid: Id, row: Submission) {
    && Working(Exec(env, INITIAL, acts), id, WClaimed(rid, row)) && Claimed(env, acts, id, rid, row)
    && InStage(Exec(env, INITIAL, acts).shared.db, rid, Processing)
    && Exec(env, INITIAL, acts).shared.db.submissions[rid].version == row.version
  }

  lemma UploadPreparesNothing(env: Env, s: Shared, p: Ingestion, i: Input)
    ensures IngestStep(env, s, p, i).0.db.outbox == s.db.outbox
  {}

  lemma WorkPreparesOwn(env: Env, s: Shared, p: Worker, i: Input, rid: Id)
    requires rid !in s.db.outbox && rid in WorkerStep(env, s, p, i).0.db.outbox
    ensures i.proceed && p.WClaimed? && p.rid == rid
    ensures InStage(s.db, rid, Processing) && s.db.submissions[rid].version == p.row.version
    ensures Covers(env, WorkerStep(env, s, p, i).0.db.outbox[rid].payload, rid, p.row, i.draft)
  {}

  /** Only a worker that goes on adds an outbox row, to the submission it still holds. */
  lemma OnlyWorkersPrepare(env: Env, w: World, b: Action, rid: Id)
    requires rid !in w.shared.db.outbox && rid in Next(env, w, b).shared.db.outbox
    ensures b.Step? && b.input.proceed && b.id in w.procs && w.procs[b.id].PWorker?
    ensures w.procs[b.id].worker.WClaimed? && w.procs[b.id].worker.rid == rid
    ensures var row := w.procs[b.id].worker.row;
            && InStage(w.shared.db, rid, Processing) && w.shared.db.submissions[rid].version == row.version
            && Covers(env, Next(env, w, b).shared.db.outbox[rid].payload, rid, row, b.input.draft)
  {
    if b.Step? && b.id in w.procs && w.procs[b.id].PIngest? {
      UploadPreparesNothing(env, w.shared, w.procs[b.id].ingestion, b.input);
    } else if b.Step? && b.id in w.procs && w.procs[b.id].PWorker? {
      WorkPreparesOwn(env, w.shared, w.procs[b.id].worker, b.input, rid);
    } else {
      OtherStepsAddNothing(env, w, b);
    }
  }

  lemma PreparedNow(env: Env, acts: seq<Action>, b: Action, rid: Id)
    requires var w := Exec(env, INITIAL, acts); rid !in w.shared.db.outbox && rid in Next(env, w, b).shared.db.outbox
    ensures var after := Next(env, Exec(env, INITIAL, acts), b).shared.db;
            PreparedAt(env, acts + [b], |acts|, rid, after.outbox[rid].payload)
  {
    var w := Exec(env, INITIAL, acts);
    assert (acts + [b])[..|acts|] == acts;
    RunWorkersClaimed(env, acts);
    OnlyWorkersPrepare(env, w, b, rid);
    assert WorkPrepared(env, acts, b.id, rid, w.procs[b.id].worker.row);
  }

  lemma PreparedLater(env: Env, acts: seq<Action>, b: Action, k: nat, rid: Id)
    requires rid in Exec(env, INITIAL, acts).shared.db.outbox
    requires PreparedAt(env, acts, k, rid, Exec(env, INITIAL, acts).shared.db.outbox[rid].payload)
    ensures rid in Exec(env, INITIAL, acts + [b]).shared.db.outbox
    ensures PreparedAt(env, acts + [b], k, rid, Exec(env, INITIAL, acts + [b]).shared.db.outbox[rid].payload)
  {
    var w := Exec(env, INITIAL, acts);
    assert (acts + [b])[..|acts|] == acts && (acts + [b])[..k] == acts[..k] && (acts + [b])[k] == acts[k];
    AlwaysSafe(env, acts);
    NextSafe(env, w, b);
    assert EventLog.OutboxFollows(w.shared.db, rid);
  }

  /**
   Every outbox row, at every moment of every run, holds the receipt that one worker made of the row
   it had claimed, in a step in which decryption, sandbox, scan and policy all went through.
   */
  lemma {:induction false} EveryReceiptWasWorkedFor(env: Env, acts: seq<Action>, rid: Id)
    requires rid in Exec(env, INITIAL, acts).shared.db.outbox
    ensures exists k: nat :: PreparedAt(env, acts, k, rid, Exec(env, INITIAL, acts).shared.db.outbox[rid].payload)
    decreases |acts|
  {
    var k := |acts| - 1;
    var before := acts[..k];
    assert before + [acts[k]] == acts;
    if rid in Exec(env, INITIAL, before).shared.db.outbox {
      EveryReceiptWasWorkedFor(env, before, rid);
      var m: nat :| PreparedAt(env, before, m, rid, Exec(env, INITIAL, before).shared.db.outbox[rid].payload);
      PreparedLater(env, before, acts[k], m, rid);
    } else {
      PreparedNow(env, before, acts[k], rid);
    }
  }
}
