/**
 The ciphertext files: exclusive creation gives each file one owner. A submission keeps its
 ciphertext exactly as long as no upload cleans up an id that has already been admitted.
 */
module BlobSafety {
  import opened StoreModel
  import opened Protocol
  import opened ProtocolSafety
  import Fencing

  /** The process created the file of `rid` and has not let go of it. */
  predicate Owns(p: Proc, rid: Id) {
    p.PIngest? && (p.ingestion.IWritten? || p.ingestion.IUnlink?) && p.ingestion.args.rid == rid
  }

  predicate HasBlob(s: Shared, rid: Id) {
    rid in s.db.submissions && rid in s.files && s.files[rid] == s.db.submissions[rid].cipherHash
  }

  predicate Admitted(s: Shared, rid: Id) {
    rid in s.db.submissions
  }

  /** The owner's file is there, and as long as it has not asked for admission the id is free. */
  predicate OwnerOk(s: Shared, p: Proc, rid: Id) {
    Owns(p, rid) ==>
      && rid in s.files && s.files[rid] == p.ingestion.args.cipherHash
      && (p.ingestion.IWritten? ==> !Admitted(s, rid))
  }

  ghost predicate BlobOk(w: World, rid: Id) {
    && (Admitted(w.shared, rid) ==> HasBlob(w.shared, rid))
    && (forall id | id in w.procs :: OwnerOk(w.shared, w.procs[id], rid))
    && (forall a, b | a in w.procs && b in w.procs && Owns(w.procs[a], rid) && Owns(w.procs[b], rid) :: a == b)
  }

  /** The step is an upload that unlinks the file of an id that is already admitted. */
  predicate CleansUp(w: World, a: Action, rid: Id) {
    && a.Step? && a.id in w.procs && w.procs[a.id].PIngest? && w.procs[a.id].ingestion.IUnlink?
    && w.procs[a.id].ingestion.args.rid == rid && Admitted(w.shared, rid)
  }

  /** The step is an admission of `rid` that the store committed but whose reply the caller never got. */
  predicate LosesAdmission(env: Env, w: World, a: Action, rid: Id) {
    && a.Step? && a.id in w.procs && w.procs[a.id].PIngest? && w.procs[a.id].ingestion.IWritten?
    && w.procs[a.id].ingestion.args.rid == rid && a.input.replyLost
    && IngestTx(env.store, w.shared.db, w.procs[a.id].ingestion.args, a.input.now, a.input.created, a.input.ns).Ok?
  }

  /** The files are the same and so are the submissions, up to their progress. */
  ghost predicate SameDocuments(s: Shared, after: Shared) {
    && after.files == s.files
    && after.db.submissions.Keys == s.db.submissions.Keys
    && forall rid | rid in s.db.submissions :: after.db.submissions[rid].cipherHash == s.db.submissions[rid].cipherHash
  }

  lemma SqlKeepsDocuments(env: Env, s: Shared, op: Op)
    requires Good(env, s) && !op.OpIngest?
    ensures SameDocuments(s, s.(db := Apply(env.store, s.db, op)))
  {
    Fencing.ApplyProgress(env.store, s.db, op);
  }

  lemma WorkerKeepsDocuments(env: Env, s: Shared, p: Worker, i: Input)
    requires Good(env, s)
    ensures SameDocuments(s, WorkerStep(env, s, p, i).0)
  {
    match p
    case WStart(rid) => SqlKeepsDocuments(env, s, OpClaim(rid, i.now, i.ns));
    case WClaimed(rid, row) => SqlKeepsDocuments(env, s,
        OpPrepare(rid, row.version, Signed(env, rid, row, i.draft), i.ns));
    case WFailing(rid, version) => SqlKeepsDocuments(env, s, OpFail(rid, version, i.ns));
    case WEnded =>
  }

  lemma DeliveryKeepsDocuments(env: Env, s: Shared, p: Delivery, i: Input)
    requires Good(env, s)
    ensures SameDocuments(s, DeliverStep(env, s, p, i).0)
  {
    match p
    case DFinish(rid, out, ack) => SqlKeepsDocuments(env, s, OpFinish(rid, out.snapshot, ack.tx, ack.hash, i.ns));
    case _ =>
  }

  /** Nothing but an ingestion process touches the files or adds a submission. */
  lemma OnlyIngestionAdds(env: Env, w: World, a: Action)
    requires Good(env, w.shared)
    requires a.Step? && a.id in w.procs ==> !w.procs[a.id].PIngest?
    ensures SameDocuments(w.shared, Next(env, w, a).shared)
  {
    match a
    case Step(id, i) =>
      if id in w.procs {
        match w.procs[id] {
          case PWorker(x) => WorkerKeepsDocuments(env, w.shared, x, i);
          case PDeliver(x) => DeliveryKeepsDocuments(env, w.shared, x, i);
          case PReconcile(x) => if x.RRepair? { DeliveryKeepsDocuments(env, w.shared, x.inner, i); }
        }
      }
    case Sweep(now, order, stamps) => SqlKeepsDocuments(env, w.shared, OpRecover(now, order, stamps));
    case _ =>
  }

  // ---------------------------------------------------------------- one step

  /** Nothing about `rid` changed but, possibly, which stage its one owner is in. */
  ghost predicate SameFor(before: Shared, after: Shared, rid: Id) {
    && (rid in after.files <==> rid in before.files) && (rid in before.files ==> after.files[rid] == before.files[rid])
    && (Admitted(after, rid) <==> Admitted(before, rid))
    && (Admitted(before, rid) ==> after.db.submissions[rid].cipherHash == before.db.submissions[rid].cipherHash)
  }

  lemma OthersKeep(w: World, after: World, rid: Id)
    requires BlobOk(w, rid) && SameFor(w.shared, after.shared, rid)
    requires forall id | id in after.procs && Owns(after.procs[id], rid) ::
               id in w.procs && w.procs[id] == after.procs[id]
    ensures BlobOk(after, rid)
  {
    forall id | id in after.procs ensures OwnerOk(after.shared, after.procs[id], rid) {
      if Owns(after.procs[id], rid) { assert OwnerOk(w.shared, w.procs[id], rid); }
    }
  }

  /** An upload of another id. */
  lemma OtherUploadKeeps(env: Env, w: World, id: nat, i: Input, rid: Id)
    requires BlobOk(w, rid) && id in w.procs && w.procs[id].PIngest?
    requires w.procs[id].ingestion.IDone? || w.procs[id].ingestion.IRaised? || w.procs[id].ingestion.args.rid != rid
    ensures BlobOk(Next(env, w, Step(id, i)), rid)
  {
    OthersKeep(w, Next(env, w, Step(id, i)), rid);
  }

  /** Before the file is written the process owns nothing; writing it makes it the one owner. */
  lemma WritingKeeps(env: Env, w: World, id: nat, i: Input, rid: Id)
    requires BlobOk(w, rid) && id in w.procs && w.procs[id].PIngest?
    requires w.procs[id].ingestion.IStart? || w.procs[id].ingestion.IGated?
    requires w.procs[id].ingestion.args.rid == rid
    ensures BlobOk(Next(env, w, Step(id, i)), rid)
  {
    var after := Next(env, w, Step(id, i));
    if after.procs[id].ingestion.IWritten? {
      forall other | other in w.procs ensures !Owns(w.procs[other], rid) {
        assert OwnerOk(w.shared, w.procs[other], rid);
      }
    } else {
      OthersKeep(w, after, rid);
    }
  }

  /** The owner is admitted, or refused; either way the file is still its own. */
  lemma AdmittingKeeps(env: Env, w: World, id: nat, i: Input, rid: Id)
    requires BlobOk(w, rid) && id in w.procs && w.procs[id].PIngest? && w.procs[id].ingestion.IWritten?
    requires w.procs[id].ingestion.args.rid == rid
    ensures BlobOk(Next(env, w, Step(id, i)), rid)
  {
    assert OwnerOk(w.shared, w.procs[id], rid) && Owns(w.procs[id], rid);
    var after := Next(env, w, Step(id, i));
    forall other | other in after.procs ensures OwnerOk(after.shared, after.procs[other], rid) {
      if other != id { assert OwnerOk(w.shared, w.procs[other], rid); }
    }
  }

  /** The one owner of a file whose id is free takes the file away with it. */
  lemma UnlinkingKeeps(env: Env, w: World, id: nat, i: Input, rid: Id)
    requires BlobOk(w, rid) && id in w.procs && w.procs[id].PIngest? && w.procs[id].ingestion.IUnlink?
    requires w.procs[id].ingestion.args.rid == rid && !Admitted(w.shared, rid)
    ensures BlobOk(Next(env, w, Step(id, i)), rid)
  {
    assert Owns(w.procs[id], rid);
    var after := Next(env, w, Step(id, i));
    forall other | other in after.procs ensures !Owns(after.procs[other], rid) {}
  }

  lemma NextKeepsBlob(env: Env, w: World, a: Action, rid: Id)
    requires Safe(env, w) && BlobOk(w, rid) && !CleansUp(w, a, rid)
    ensures BlobOk(Next(env, w, a), rid)
  {
    if a.Step? && a.id in w.procs && w.procs[a.id].PIngest? {
      var p := w.procs[a.id].ingestion;
      if p.IDone? || p.IRaised? || p.args.rid != rid {
        OtherUploadKeeps(env, w, a.id, a.input, rid);
      } else if p.IWritten? {
        AdmittingKeeps(env, w, a.id, a.input, rid);
      } else if p.IUnlink? {
        UnlinkingKeeps(env, w, a.id, a.input, rid);
      } else {
        WritingKeeps(env, w, a.id, a.input, rid);
      }
    } else {
      OnlyIngestionAdds(env, w, a);
      OthersKeep(w, Next(env, w, a), rid);
    }
  }

  // ---------------------------------------------------------------- whole runs

  ghost predicate NeverCleansUp(env: Env, acts: seq<Action>, rid: Id) {
    forall k | 0 <= k < |acts| :: !CleansUp(Exec(env, INITIAL, acts[..k]), acts[k], rid)
  }

  ghost predicate HasBlobAt(env: Env, acts: seq<Action>, k: nat, rid: Id)
    requires k <= |acts|
  {
    var s := Exec(env, INITIAL, acts[..k]).shared;
    Admitted(s, rid) ==> HasBlob(s, rid)
  }

  ghost predicate AlwaysHasBlob(env: Env, acts: seq<Action>, rid: Id) {
    forall k | 0 <= k <= |acts| :: HasBlobAt(env, acts, k, rid)
  }

  ghost predicate BlobOkAfter(env: Env, acts: seq<Action>, rid: Id) {
    BlobOk(Exec(env, INITIAL, acts), rid)
  }

  lemma StepKeepsBlob(env: Env, acts: seq<Action>, k: nat, rid: Id)
    requires k < |acts| && BlobOkAfter(env, acts[..k], rid)
    requires !CleansUp(Exec(env, INITIAL, acts[..k]), acts[k], rid)
    ensures BlobOkAfter(env, acts[..k + 1], rid)
  {
    AlwaysSafe(env, acts[..k]);
    NextKeepsBlob(env, Exec(env, INITIAL, acts[..k]), acts[k], rid);
    OneStep(env, acts, k);
  }

  lemma OneStep(env: Env, acts: seq<Action>, k: nat)
    requires k < |acts|
    ensures Exec(env, INITIAL, acts[..k + 1]) == Next(env, Exec(env, INITIAL, acts[..k]), acts[k])
  {
    assert acts[..k + 1][..k] == acts[..k];
  }

  lemma {:induction false} RunKeepsBlob(env: Env, acts: seq<Action>, k: nat, rid: Id)
    requires NeverCleansUp(env, acts, rid) && k <= |acts|
    ensures BlobOkAfter(env, acts[..k], rid)
  {
    if k == 0 {
      assert acts[..0] == [];
    } else {
      RunKeepsBlob(env, acts, k - 1, rid);
      StepKeepsBlob(env, acts, k - 1, rid);
    }
  }

  lemma CleaningUpLoses(env: Env, acts: seq<Action>, k: nat, rid: Id)
    requires k < |acts| && CleansUp(Exec(env, INITIAL, acts[..k]), acts[k], rid)
    ensures !HasBlobAt(env, acts, k + 1, rid)
  {
    OneStep(env, acts, k);
  }

  /**
   Exactly: an id has its own ciphertext in every state of a run in which it is admitted, if and
   only if no upload of the run cleans it up after that. Other ids do not matter.
   */
  lemma BlobIsKeptUnlessCleanedUp(env: Env, acts: seq<Action>, rid: Id)
    ensures AlwaysHasBlob(env, acts, rid) <==> NeverCleansUp(env, acts, rid)
  {
    if NeverCleansUp(env, acts, rid) {
      forall k | 0 <= k <= |acts| ensures HasBlobAt(env, acts, k, rid) { RunKeepsBlob(env, acts, k, rid); }
    } else {
      var k :| 0 <= k < |acts| && CleansUp(Exec(env, INITIAL, acts[..k]), acts[k], rid);
      CleaningUpLoses(env, acts, k, rid);
    }
  }

  // ---------------------------------------------------------------- where a cleaning up comes from

  ghost predicate NeverLosesAdmission(env: Env, acts: seq<Action>, rid: Id) {
    forall k | 0 <= k < |acts| :: !LosesAdmission(env, Exec(env, INITIAL, acts[..k]), acts[k], rid)
  }

  /** Whoever owns the file of `rid` owns it for an id that is still free. */
  ghost predicate OwnersWait(w: World, rid: Id) {
    forall id | id in w.procs && Owns(w.procs[id], rid) :: !Admitted(w.shared, rid)
  }

  lemma OwnersWaitNext(env: Env, w: World, a: Action, rid: Id)
    requires Safe(env, w) && BlobOk(w, rid) && OwnersWait(w, rid) && !LosesAdmission(env, w, a, rid)
    ensures !CleansUp(w, a, rid) && OwnersWait(Next(env, w, a), rid)
  {
    var after := Next(env, w, a);
    if a.Step? && a.id in w.procs && w.procs[a.id].PIngest? {
      OwnersWaitUpload(env, w, a.id, a.input, rid);
    } else {
      OnlyIngestionAdds(env, w, a);
      forall id | id in after.procs && Owns(after.procs[id], rid) ensures !Admitted(after.shared, rid) {
        assert id in w.procs && Owns(w.procs[id], rid);
      }
    }
  }

  lemma OwnersWaitUpload(env: Env, w: World, id: nat, i: Input, rid: Id)
    requires BlobOk(w, rid) && OwnersWait(w, rid) && id in w.procs && w.procs[id].PIngest?
    requires !LosesAdmission(env, w, Step(id, i), rid)
    ensures OwnersWait(Next(env, w, Step(id, i)), rid)
  {
    var after := Next(env, w, Step(id, i));
    forall other | other in after.procs && Owns(after.procs[other], rid) ensures !Admitted(after.shared, rid) {
      if other != id {
        assert Owns(w.procs[other], rid) && OwnerOk(w.shared, w.procs[other], rid);
      } else {
        assert OwnerOk(w.shared, w.procs[id], rid);
      }
    }
  }

  ghost predicate WaitsAfter(env: Env, acts: seq<Action>, rid: Id) {
    BlobOkAfter(env, acts, rid) && OwnersWait(Exec(env, INITIAL, acts), rid)
  }

  lemma {:induction false} RunWaits(env: Env, acts: seq<Action>, k: nat, rid: Id)
    requires NeverLosesAdmission(env, acts, rid) && k <= |acts|
    ensures WaitsAfter(env, acts[..k], rid)
    ensures forall j | 0 <= j < k :: !CleansUp(Exec(env, INITIAL, acts[..j]), acts[j], rid)
  {
    if k == 0 {
      assert acts[..0] == [];
    } else {
      RunWaits(env, acts, k - 1, rid);
      AlwaysSafe(env, acts[..k - 1]);
      OwnersWaitNext(env, Exec(env, INITIAL, acts[..k - 1]), acts[k - 1], rid);
      StepKeepsBlob(env, acts, k - 1, rid);
      OneStep(env, acts, k - 1);
    }
  }

  /**
   Crashes and concurrent uploads of the same id included, and whatever happens to other ids: if no
   admission of `rid` loses its reply, `rid` has its own ciphertext from its admission on.
   */
  lemma EverySubmissionHasItsCiphertext(env: Env, acts: seq<Action>, rid: Id)
    requires NeverLosesAdmission(env, acts, rid)
    ensures NeverCleansUp(env, acts, rid) && AlwaysHasBlob(env, acts, rid)
  {
    RunWaits(env, acts, |acts|, rid);
    BlobIsKeptUnlessCleanedUp(env, acts, rid);
  }

  ghost predicate Pauses(acts: seq<Action>, id: nat, k: nat, m: nat)
    requires m <= |acts|
  {
    forall j | k < j < m :: (acts[j].Step? || acts[j].Crash?) ==> acts[j].id != id
  }

  ghost predicate OwesUnlink(w: World, id: nat, rid: Id) {
    && id in w.procs && w.procs[id].PIngest? && w.procs[id].ingestion.IUnlink?
    && w.procs[id].ingestion.args.rid == rid && Admitted(w.shared, rid)
  }

  lemma DebtNext(env: Env, w: World, a: Action, id: nat, rid: Id)
    requires Safe(env, w) && OwesUnlink(w, id, rid) && ((a.Step? || a.Crash?) ==> a.id != id)
    ensures OwesUnlink(Next(env, w, a), id, rid)
  {
    NextSafe(env, w, a);
  }

  lemma {:induction false} DebtStays(env: Env, acts: seq<Action>, id: nat, k: nat, m: nat, rid: Id)
    requires k < m <= |acts| && Pauses(acts, id, k, m) && OwesUnlink(Exec(env, INITIAL, acts[..k + 1]), id, rid)
    ensures OwesUnlink(Exec(env, INITIAL, acts[..m]), id, rid)
    decreases m
  {
    if k + 1 < m {
      DebtStays(env, acts, id, k, m - 1, rid);
      OneStep(env, acts, m - 1);
      AlwaysSafe(env, acts[..m - 1]);
      DebtNext(env, Exec(env, INITIAL, acts[..m - 1]), acts[m - 1], id, rid);
    }
  }

  /**
   The other way round: when the reply of an admission was lost and its process then takes its next
   step, the file of the admitted submission is gone.
   */
  lemma LostAdmissionLosesFile(env: Env, acts: seq<Action>, k: nat, m: nat, rid: Id)
    requires k < m < |acts| && LosesAdmission(env, Exec(env, INITIAL, acts[..k]), acts[k], rid)
    requires acts[m].Step? && acts[m].id == acts[k].id && Pauses(acts, acts[k].id, k, m)
    ensures CleansUp(Exec(env, INITIAL, acts[..m]), acts[m], rid)
    ensures var s := Exec(env, INITIAL, acts[..m + 1]).shared; Admitted(s, rid) && rid !in s.files
  {
    OneStep(env, acts, k);
    DebtStays(env, acts, acts[k].id, k, m, rid);
    OneStep(env, acts, m);
  }

  // ---------------------------------------------------------------- both directions joined

  /** Action `k` admitted `rid` without its reply, and process `id` has not gone on since, up to `m`. */
  ghost predicate LostBy(env: Env, acts: seq<Action>, k: nat, m: nat, id: nat, rid: Id) {
    && k < m <= |acts| && LosesAdmission(env, Exec(env, INITIAL, acts[..k]), acts[k], rid)
    && acts[k].id == id && Pauses(acts, id, k, m)
  }

  ghost predicate DebtsHaveOrigin(env: Env, acts: seq<Action>, m: nat, rid: Id)
    requires m <= |acts|
  {
    forall id | OwesUnlink(Exec(env, INITIAL, acts[..m]), id, rid) :: HasOrigin(env, acts, m, id, rid)
  }

  ghost predicate HasOrigin(env: Env, acts: seq<Action>, m: nat, id: nat, rid: Id) {
    exists k: nat :: LostBy(env, acts, k, m, id, rid)
  }

  /** A debt comes from the process's own lost admission, or was there before. */
  lemma DebtComesFromLoss(env: Env, w: World, a: Action, id: nat, rid: Id)
    requires Safe(env, w) && BlobOk(w, rid) && !CleansUp(w, a, rid) && OwesUnlink(Next(env, w, a), id, rid)
    ensures (a.Step? && a.id == id && LosesAdmission(env, w, a, rid))
            || (OwesUnlink(w, id, rid) && ((a.Step? || a.Crash?) ==> a.id != id))
  {
    if a.Step? && a.id in w.procs && w.procs[a.id].PIngest? {
      assert OwnerOk(w.shared, w.procs[a.id], rid);
      if a.id != id { assert Owns(w.procs[id], rid); }
    } else {
      OnlyIngestionAdds(env, w, a);
    }
  }

  lemma OriginStays(env: Env, acts: seq<Action>, m: nat, id: nat, rid: Id)
    requires m < |acts| && HasOrigin(env, acts, m, id, rid) && ((acts[m].Step? || acts[m].Crash?) ==> acts[m].id != id)
    ensures HasOrigin(env, acts, m + 1, id, rid)
  {
    var k: nat :| LostBy(env, acts, k, m, id, rid);
    assert LostBy(env, acts, k, m + 1, id, rid);
  }

  lemma OriginNext(env: Env, acts: seq<Action>, m: nat, rid: Id)
    requires m < |acts| && BlobOkAfter(env, acts[..m], rid) && DebtsHaveOrigin(env, acts, m, rid)
    requires !CleansUp(Exec(env, INITIAL, acts[..m]), acts[m], rid)
    ensures DebtsHaveOrigin(env, acts, m + 1, rid)
  {
    var w, n := Exec(env, INITIAL, acts[..m]), m + 1;
    OneStep(env, acts, m);
    AlwaysSafe(env, acts[..m]);
    forall id | OwesUnlink(Exec(env, INITIAL, acts[..n]), id, rid) ensures HasOrigin(env, acts, n, id, rid) {
      DebtComesFromLoss(env, w, acts[m], id, rid);
      if OwesUnlink(w, id, rid) && ((acts[m].Step? || acts[m].Crash?) ==> acts[m].id != id) {
        OriginStays(env, acts, m, id, rid);
      } else {
        assert LostBy(env, acts, m, n, id, rid);
      }
    }
  }

  /** Until the first clean-up of the id, every debt has an origin. */
  lemma {:induction false} RunHasOrigins(env: Env, acts: seq<Action>, m: nat, rid: Id)
    requires m <= |acts| && forall j | 0 <= j < m :: !CleansUp(Exec(env, INITIAL, acts[..j]), acts[j], rid)
    ensures BlobOkAfter(env, acts[..m], rid) && DebtsHaveOrigin(env, acts, m, rid)
  {
    if m == 0 {
      assert acts[..0] == [];
    } else {
      RunHasOrigins(env, acts, m - 1, rid);
      StepKeepsBlob(env, acts, m - 1, rid);
      OriginNext(env, acts, m - 1, rid);
    }
  }

  lemma {:induction false} FirstCleanUp(env: Env, acts: seq<Action>, n: nat, rid: Id) returns (m: nat)
    requires n < |acts| && CleansUp(Exec(env, INITIAL, acts[..n]), acts[n], rid)
    ensures m <= n && CleansUp(Exec(env, INITIAL, acts[..m]), acts[m], rid)
    ensures forall j | 0 <= j < m :: !CleansUp(Exec(env, INITIAL, acts[..j]), acts[j], rid)
  {
    if j :| 0 <= j < n && CleansUp(Exec(env, INITIAL, acts[..j]), acts[j], rid) {
      m := FirstCleanUp(env, acts, j, rid);
    } else {
      m := n;
    }
  }

  /** Some admission of `rid` lost its reply at `k`, and its process took its next step at `m`. */
  ghost predicate LosesAndGoesOn(env: Env, acts: seq<Action>, k: nat, m: nat, rid: Id) {
    && k < m < |acts| && LosesAdmission(env, Exec(env, INITIAL, acts[..k]), acts[k], rid)
    && acts[m].Step? && acts[m].id == acts[k].id && Pauses(acts, acts[k].id, k, m)
  }

  /**
   Exactly: an id has its own ciphertext in every state of a run in which it is admitted, if and
   only if no process of the run both lost the reply of its admission and went on to its next step.
   A process that crashed after the lost reply does no harm, and other ids do not matter.
   */
  lemma BlobIsKeptUnlessReplyLost(env: Env, acts: seq<Action>, rid: Id)
    ensures AlwaysHasBlob(env, acts, rid) <==> !exists k: nat, m: nat :: LosesAndGoesOn(env, acts, k, m, rid)
  {
    BlobIsKeptUnlessCleanedUp(env, acts, rid);
    if k: nat, m: nat :| LosesAndGoesOn(env, acts, k, m, rid) {
      LostAdmissionLosesFile(env, acts, k, m, rid);
    }
    if !NeverCleansUp(env, acts, rid) {
      var n :| 0 <= n < |acts| && CleansUp(Exec(env, INITIAL, acts[..n]), acts[n], rid);
      var m := FirstCleanUp(env, acts, n, rid);
      RunHasOrigins(env, acts, m, rid);
      assert OwesUnlink(Exec(env, INITIAL, acts[..m]), acts[m].id, rid);
      var k: nat :| LostBy(env, acts, k, m, acts[m].id, rid);
      assert LosesAndGoesOn(env, acts, k, m, rid);
    }
  }

  /** Such a run exists: one upload whose admission commits without its reply. */
  lemma LostAdmissionHappens(env: Env, a: IngestArgs, i: Input)
    requires i.proceed && i.replyLost
    ensures var s := Exec(env, INITIAL, LostUpload(a, i)).shared; Admitted(s, a.rid) && a.rid !in s.files
  {
    var acts := LostUpload(a, i);
    assert acts[..0] == [];
    OneStep(env, acts, 0);
    OneStep(env, acts, 1);
    OneStep(env, acts, 2);
    OneStep(env, acts, 3);
    assert acts[..5] == acts;
    LostAdmissionLosesFile(env, acts, 3, 4, a.rid);
  }

  function LostUpload(a: IngestArgs, i: Input): seq<Action> {
    [Spawn(0, PIngest(IStart(a))), Step(0, i), Step(0, i), Step(0, i), Step(0, i)]
  }
}
