/** Safety of every run: agreement of the tables with the ledger and exactly-once commit. */
module ProtocolSafety {
  import opened Prelude
  import opened StoreModel
  import opened Protocol
  import EventLog
  import Fencing

  // ---------------------------------------------------------------- the invariant

  /** A committed submission is confirmed and the ledger holds its receipt under its transaction id. */
  predicate Agrees(s: Shared, rid: Id) {
    InStage(s.db, rid, Committed) ==>
      && rid in s.db.outbox && s.db.outbox[rid].status == Confirmed
      && rid in s.ledger
      && s.ledger[rid].hash == s.db.outbox[rid].payload.receiptHash
      && s.db.outbox[rid].txId == Some(s.ledger[rid].tx)
  }

  predicate OutboxBound(env: Env, db: Db, rid: Id) {
    rid in db.outbox ==> rid in db.submissions && Bound(env, rid, db.submissions[rid], db.outbox[rid].payload)
  }

  ghost predicate Good(env: Env, s: Shared) {
    && EventLog.Inv(env.store, s.db)
    && (forall rid :: OutboxBound(env, s.db, rid))
    && (forall rid :: Agrees(s, rid))
    && (forall rid | rid in s.ledger :: s.ledger[rid].tx != "")
  }

  /** What no step ever undoes. */
  ghost predicate Grows(before: Shared, after: Shared) {
    && Fencing.Progress(before.db, after.db)
    && (forall rid | rid in before.ledger :: rid in after.ledger && after.ledger[rid] == before.ledger[rid])
  }

  /** `out` was read from the outbox and only its confirmation may have happened since. */
  predicate ReadFrom(db: Db, rid: Id, out: OutRow) {
    && Fencing.Settled(db, rid)
    && db.outbox[rid].payload == out.payload && db.outbox[rid].snapshot == out.snapshot
    && (out.status == Confirmed ==> InStage(db, rid, Committed) && db.outbox[rid] == out)
  }

  predicate Recorded(ledger: Ledger, rid: Id, ack: Ack) {
    rid in ledger && ledger[rid] == LedgerRow(ack.hash, ack.tx)
  }

  predicate BothCommitted(s: Shared, rid: Id) {
    InStage(s.db, rid, Committed) && Agrees(s, rid)
  }

  predicate SameBinding(a: Submission, b: Submission) {
    a.vendor == b.vendor && a.documentHash == b.documentHash && a.cipherHash == b.cipherHash
  }

  predicate DeliveryOk(s: Shared, p: Delivery) {
    match p
    case DPending(rid, out) => ReadFrom(s.db, rid, out)
    case DLookup(rid, out, _, cached) => ReadFrom(s.db, rid, out) && (cached ==> out.status == Confirmed)
    case DSubmit(rid, out, _) => ReadFrom(s.db, rid, out)
    case DFinish(rid, out, ack) => ReadFrom(s.db, rid, out) && Recorded(s.ledger, rid, ack)
    case DReturned(rid, ack) => BothCommitted(s, rid) && Recorded(s.ledger, rid, ack)
    case _ => true
  }

  predicate RowOk(s: Shared, r: ReportRow) {
    r.verdict != Divergence && (r.verdict == Consistent ==> BothCommitted(s, r.rid))
  }

  ghost predicate ReportOk(s: Shared, todo: seq<(Id, OutRow)>, rows: seq<ReportRow>) {
    && (forall k | 0 <= k < |todo| :: ReadFrom(s.db, todo[k].0, todo[k].1))
    && (forall k | 0 <= k < |rows| :: RowOk(s, rows[k]))
  }

  ghost predicate ReconcilerOk(s: Shared, p: Reconciler) {
    match p
    case RStart(_) => true
    case RLookup(_, todo, rows) => ReportOk(s, todo, rows)
    case RCompare(_, todo, rows, ack) =>
      && ReportOk(s, todo, rows)
      && (todo != [] && todo[0].1.status == Confirmed ==>
            todo[0].1.txId.Some? && ack == Some(Ack(todo[0].1.txId.value, todo[0].1.payload.receiptHash)))
    case RRepair(todo, rows, inner) =>
      ReportOk(s, todo, rows) && DeliveryOk(s, inner) && (todo != [] ==> inner.rid == todo[0].0)
    case RDone(rows) => ReportOk(s, [], rows)
  }

  predicate WorkerOk(s: Shared, p: Worker) {
    p.WClaimed? ==> p.rid in s.db.submissions && SameBinding(p.row, s.db.submissions[p.rid])
  }

  ghost predicate ProcOk(s: Shared, p: Proc) {
    match p
    case PIngest(_) => true
    case PWorker(x) => WorkerOk(s, x)
    case PDeliver(x) => DeliveryOk(s, x)
    case PReconcile(x) => ReconcilerOk(s, x)
  }

  ghost predicate Safe(env: Env, w: World) {
    Good(env, w.shared) && forall id | id in w.procs :: ProcOk(w.shared, w.procs[id])
  }

  // ---------------------------------------------------------------- single transactions and calls

  lemma SqlKeepsGood(env: Env, s: Shared, op: Op)
    requires Good(env, s)
    requires op.OpFinish? ==> Recorded(s.ledger, op.rid, Ack(op.tx, op.receiptHash))
    requires op.OpPrepare? ==> op.rid in s.db.submissions && Bound(env, op.rid, s.db.submissions[op.rid], op.payload)
    ensures Good(env, s.(db := Apply(env.store, s.db, op)))
    ensures Grows(s, s.(db := Apply(env.store, s.db, op)))
  {
    EventLog.ApplyKeeps(env.store, s.db, op);
    Fencing.ApplyProgress(env.store, s.db, op);
    var db := Apply(env.store, s.db, op);
    forall rid ensures OutboxBound(env, db, rid) && Agrees(s.(db := db), rid) {
      assert OutboxBound(env, s.db, rid) && Agrees(s, rid);
      assert EventLog.OutboxFollows(db, rid) && EventLog.OutboxFollows(s.db, rid);
      if op.OpRecover? && Selects(s.db, op.now, op.order) {
        EventLog.RecoverRowsTables(env.store, s.db, op.order, op.stamps);
      }
    }
  }

  lemma SubmitKeepsGood(env: Env, s: Shared, p: Payload, accepted: bool, tx: Tx)
    requires Good(env, s)
    ensures var (ledger, ack) := Submit(s.ledger, p, accepted, tx);
            && Good(env, s.(ledger := ledger)) && Grows(s, s.(ledger := ledger))
            && (ack.Some? ==> Recorded(ledger, p.recordID, ack.value) && ack.value.hash == p.receiptHash)
  {
    var after := s.(ledger := Submit(s.ledger, p, accepted, tx).0);
    forall rid ensures Agrees(after, rid) { assert Agrees(s, rid); }
    forall rid ensures EventLog.OutboxFollows(s.db, rid) {}
  }

  // ---------------------------------------------------------------- other processes' facts survive

  lemma ReadFromStable(before: Shared, after: Shared, rid: Id, out: OutRow)
    requires Grows(before, after) && ReadFrom(before.db, rid, out)
    ensures ReadFrom(after.db, rid, out)
  {}

  lemma BothCommittedStable(env: Env, before: Shared, after: Shared, rid: Id)
    requires Grows(before, after) && Good(env, after) && BothCommitted(before, rid)
    ensures BothCommitted(after, rid)
  {
    assert Agrees(after, rid);
  }

  lemma DeliveryStable(env: Env, before: Shared, after: Shared, p: Delivery)
    requires Grows(before, after) && Good(env, after) && DeliveryOk(before, p)
    ensures DeliveryOk(after, p)
  {
    if p.DReturned? { BothCommittedStable(env, before, after, p.rid); }
  }

  lemma ReportStable(env: Env, before: Shared, after: Shared, todo: seq<(Id, OutRow)>, rows: seq<ReportRow>)
    requires Grows(before, after) && Good(env, after) && ReportOk(before, todo, rows)
    ensures ReportOk(after, todo, rows)
  {
    forall k | 0 <= k < |todo| ensures ReadFrom(after.db, todo[k].0, todo[k].1) {
      ReadFromStable(before, after, todo[k].0, todo[k].1);
    }
    forall k | 0 <= k < |rows| ensures RowOk(after, rows[k]) {
      assert RowOk(before, rows[k]);
      if rows[k].verdict == Consistent { BothCommittedStable(env, before, after, rows[k].rid); }
    }
  }

  lemma ProcStable(env: Env, before: Shared, after: Shared, p: Proc)
    requires Grows(before, after) && Good(env, after) && ProcOk(before, p)
    ensures ProcOk(after, p)
  {
    match p
    case PIngest(_) =>
    case PWorker(_) =>
    case PDeliver(x) => DeliveryStable(env, before, after, x);
    case PReconcile(x) =>
      match x
      case RStart(_) =>
      case RLookup(_, todo, rows) => ReportStable(env, before, after, todo, rows);
      case RCompare(_, todo, rows, _) => ReportStable(env, before, after, todo, rows);
      case RRepair(todo, rows, inner) =>
        ReportStable(env, before, after, todo, rows);
        DeliveryStable(env, before, after, inner);
      case RDone(rows) => ReportStable(env, before, after, [], rows);
  }

  // ---------------------------------------------------------------- one step of each process

  lemma GrowsRefl(s: Shared)
    ensures Grows(s, s)
  {}

  lemma IngestStepSafe(env: Env, s: Shared, p: Ingestion, i: Input)
    requires Good(env, s)
    ensures var r := IngestStep(env, s, p, i); Good(env, r.0) && Grows(s, r.0)
  {
    if p.IWritten? { SqlKeepsGood(env, s, OpIngest(p.args, i.now, i.created, i.ns)); }
    var after := IngestStep(env, s, p, i).0;
    if after.db == s.db {
      forall rid ensures Agrees(after, rid) { assert Agrees(s, rid); }
    } else {
      var mid := s.(db := after.db);
      assert Good(env, mid);
      forall rid ensures Agrees(after, rid) { assert Agrees(mid, rid); }
    }
  }

  lemma WorkerStepSafe(env: Env, s: Shared, p: Worker, i: Input)
    requires Good(env, s) && WorkerOk(s, p)
    ensures var r := WorkerStep(env, s, p, i); Good(env, r.0) && Grows(s, r.0) && WorkerOk(r.0, r.1)
  {
    GrowsRefl(s);
    match p
    case WStart(rid) => SqlKeepsGood(env, s, OpClaim(rid, i.now, i.ns));
    case WClaimed(rid, row) =>
      SqlKeepsGood(env, s, OpPrepare(rid, row.version, Signed(env, rid, row, i.draft), i.ns));
    case WFailing(rid, version) => SqlKeepsGood(env, s, OpFail(rid, version, i.ns));
    case WEnded =>
  }

  lemma DeliverStepSafe(env: Env, s: Shared, p: Delivery, i: Input)
    requires Good(env, s) && DeliveryOk(s, p)
    ensures var r := DeliverStep(env, s, p, i);
            Good(env, r.0) && Grows(s, r.0) && DeliveryOk(r.0, r.1) && r.1.rid == p.rid
  {
    match p
    case DSubmit(_, _, _) => SubmitSafe(env, s, p, i);
    case DFinish(rid, out, ack) =>
      FinishSafe(env, s, rid, out, ack, i.ns);
    case _ => ReadSafe(env, s, p, i);
  }

  /** The steps that only read. */
  lemma ReadSafe(env: Env, s: Shared, p: Delivery, i: Input)
    requires Good(env, s) && DeliveryOk(s, p) && !p.DSubmit? && !p.DFinish?
    ensures var r := DeliverStep(env, s, p, i);
            r.0 == s && Grows(s, s) && DeliveryOk(s, r.1) && r.1.rid == p.rid
  {
    GrowsRefl(s);
    if p.DLookup? { LookupSafe(env, s, p, i); }
    assert EventLog.OutboxFollows(s.db, p.rid);
  }

  lemma SubmitSafe(env: Env, s: Shared, p: Delivery, i: Input)
    requires Good(env, s) && p.DSubmit? && DeliveryOk(s, p)
    ensures var r := DeliverStep(env, s, p, i);
            Good(env, r.0) && Grows(s, r.0) && DeliveryOk(r.0, r.1) && r.1.rid == p.rid
  {
    assert OutboxBound(env, s.db, p.rid);
    SubmitKeepsGood(env, s, p.out.payload, i.accepted, i.tx);
  }

  lemma LookupSafe(env: Env, s: Shared, p: Delivery, i: Input)
    requires Good(env, s) && p.DLookup? && DeliveryOk(s, p)
    ensures DeliveryOk(s, DeliverStep(env, s, p, i).1)
  {
    assert OutboxBound(env, s.db, p.rid) && Agrees(s, p.rid);
  }

  lemma FinishSafe(env: Env, s: Shared, rid: Id, out: OutRow, ack: Ack, ns: int)
    requires Good(env, s) && ReadFrom(s.db, rid, out) && Recorded(s.ledger, rid, ack)
    ensures var r := FinishTx(env.store, s.db, rid, out.snapshot, ack.tx, ack.hash, ns);
            var after := s.(db := Kept(s.db, r));
            Good(env, after) && Grows(s, after) && (r.Ok? ==> BothCommitted(after, rid))
  {
    var op := OpFinish(rid, out.snapshot, ack.tx, ack.hash, ns);
    SqlKeepsGood(env, s, op);
    assert Agrees(s.(db := Apply(env.store, s.db, op)), rid);
  }

  lemma Reported(s: Shared, todo: seq<(Id, OutRow)>, rows: seq<ReportRow>, row: ReportRow)
    requires todo != [] && ReportOk(s, todo, rows) && RowOk(s, row)
    ensures ReportOk(s, todo[1..], rows + [row])
  {}

  lemma EntriesRead(env: Env, s: Shared, entries: seq<(Id, OutRow)>)
    requires Good(env, s) && Enumerates(s.db.outbox, entries)
    ensures ReportOk(s, entries, [])
  {
    forall k | 0 <= k < |entries| ensures ReadFrom(s.db, entries[k].0, entries[k].1) {
      assert EventLog.OutboxFollows(s.db, entries[k].0);
    }
  }

  lemma CompareSafe(s: Shared, e: (Id, OutRow), ack: Option<Ack>)
    requires ReadFrom(s.db, e.0, e.1) && Agrees(s, e.0)
    requires e.1.status == Confirmed ==> e.1.txId.Some? && ack == Some(Ack(e.1.txId.value, e.1.payload.receiptHash))
    ensures RowOk(s, ReportRow(e.0, e.1.status, Compare(s.db, e, ack), false))
  {}

  lemma ReconcileStepSafe(env: Env, s: Shared, p: Reconciler, i: Input)
    requires Good(env, s) && ReconcilerOk(s, p)
    ensures var r := ReconcileStep(env, s, p, i); Good(env, r.0) && Grows(s, r.0) && ReconcilerOk(r.0, r.1)
  {
    if !p.RRepair? { GrowsRefl(s); }
    match p
    case RStart(_) => if Enumerates(s.db.outbox, i.entries) { EntriesRead(env, s, i.entries); }
    case RLookup(_, todo, rows) =>
      if todo != [] {
        LookupEntry(env, s, todo[0]);
        Reported(s, todo, rows, ReportRow(todo[0].0, todo[0].1.status, CheckFailed, false));
      }
    case RCompare(_, todo, rows, ack) =>
      if todo != [] {
        Reported(s, todo, rows, ReportRow(todo[0].0, todo[0].1.status, CheckFailed, false));
        CompareSafe(s, todo[0], ack);
        Reported(s, todo, rows, ReportRow(todo[0].0, todo[0].1.status, Compare(s.db, todo[0], ack), false));
      }
    case RRepair(todo, rows, inner) => RepairSafe(env, s, todo, rows, inner, i);
    case RDone(_) =>
  }

  lemma RepairSafe(env: Env, s: Shared, todo: seq<(Id, OutRow)>, rows: seq<ReportRow>, inner: Delivery, i: Input)
    requires Good(env, s) && ReconcilerOk(s, RRepair(todo, rows, inner))
    ensures var r := ReconcileStep(env, s, RRepair(todo, rows, inner), i);
            Good(env, r.0) && Grows(s, r.0) && ReconcilerOk(r.0, r.1)
  {
    GrowsRefl(s);
    if todo != [] {
      if inner.DReturned? {
        Reported(s, todo, rows, ReportRow(todo[0].0, todo[0].1.status, Consistent, true));
      } else if inner.DRaised? {
        Reported(s, todo, rows, ReportRow(todo[0].0, todo[0].1.status, CheckFailed, false));
      } else {
        DeliverStepSafe(env, s, inner, i);
        ReportStable(env, s, DeliverStep(env, s, inner, i).0, todo, rows);
      }
    }
  }

  /** The lookup of a confirmed entry always finds its own receipt and transaction. */
  lemma LookupEntry(env: Env, s: Shared, e: (Id, OutRow))
    requires Good(env, s) && ReadFrom(s.db, e.0, e.1)
    ensures e.1.status == Confirmed ==>
              e.1.txId.Some? && Lookup(s.ledger, e.1.payload) == Ok(Some(Ack(e.1.txId.value, e.1.payload.receiptHash)))
  {
    assert OutboxBound(env, s.db, e.0) && Agrees(s, e.0);
  }

  lemma NextSafe(env: Env, w: World, a: Action)
    requires Safe(env, w)
    ensures Safe(env, Next(env, w, a)) && Grows(w.shared, Next(env, w, a).shared)
  {
    GrowsRefl(w.shared);
    match a
    case Spawn(_, _) =>
    case Crash(_) =>
    case Step(id, i) =>
      if id in w.procs {
        var p := w.procs[id];
        match p {
          case PIngest(x) => IngestStepSafe(env, w.shared, x, i);
          case PWorker(x) => WorkerStepSafe(env, w.shared, x, i);
          case PDeliver(x) => DeliverStepSafe(env, w.shared, x, i);
          case PReconcile(x) => ReconcileStepSafe(env, w.shared, x, i);
        }
        OthersSafe(env, w, Next(env, w, a), id);
      }
    case Sweep(now, order, stamps) =>
      SqlKeepsGood(env, w.shared, OpRecover(now, order, stamps));
      OthersStable(env, w, Next(env, w, a));
    case Foreign(p, accepted, tx) =>
      SubmitKeepsGood(env, w.shared, p, accepted, tx);
      OthersStable(env, w, Next(env, w, a));
  }

  lemma OthersSafe(env: Env, w: World, after: World, id: nat)
    requires Safe(env, w) && id in after.procs
    requires Good(env, after.shared) && Grows(w.shared, after.shared) && ProcOk(after.shared, after.procs[id])
    requires forall other | other in after.procs && other != id ::
               other in w.procs && after.procs[other] == w.procs[other]
    ensures Safe(env, after)
  {
    forall other | other in after.procs ensures ProcOk(after.shared, after.procs[other]) {
      if other != id { ProcStable(env, w.shared, after.shared, w.procs[other]); }
    }
  }

  lemma OthersStable(env: Env, w: World, after: World)
    requires Safe(env, w) && after.procs == w.procs
    requires Good(env, after.shared) && Grows(w.shared, after.shared)
    ensures Safe(env, after)
  {
    forall other | other in w.procs ensures ProcOk(after.shared, w.procs[other]) {
      ProcStable(env, w.shared, after.shared, w.procs[other]);
    }
  }

  // ---------------------------------------------------------------- whole runs

  lemma {:induction false} RunSafe(env: Env, w: World, acts: seq<Action>)
    requires Safe(env, w)
    ensures Safe(env, Exec(env, w, acts))
    ensures forall rid | rid in w.shared.ledger ::
              rid in Exec(env, w, acts).shared.ledger && Exec(env, w, acts).shared.ledger[rid] == w.shared.ledger[rid]
  {
    if acts != [] {
      var k := |acts| - 1;
      RunSafe(env, w, acts[..k]);
      NextSafe(env, Exec(env, w, acts[..k]), acts[k]);
    }
  }

  lemma AlwaysSafe(env: Env, acts: seq<Action>)
    ensures Safe(env, Exec(env, INITIAL, acts))
  {
    assert EventLog.Inv(env.store, EMPTY) by { EventLog.LogRefinesTables(env.store, []); }
    RunSafe(env, INITIAL, acts);
  }

  /**
   In every state of every run, a committed submission has a confirmed outbox row, and the
   ledger holds a record of that id with the same receipt hash and the same transaction id.
   */
  lemma CommittedMeansOnLedger(env: Env, acts: seq<Action>, rid: Id)
    ensures Agrees(Exec(env, INITIAL, acts).shared, rid)
  {
    AlwaysSafe(env, acts);
  }

  /** A ledger record, once written, is in every later state exactly as it was. */
  lemma LedgerIsWriteOnce(env: Env, acts: seq<Action>, more: seq<Action>, rid: Id)
    requires rid in Exec(env, INITIAL, acts).shared.ledger
    ensures var later := Exec(env, INITIAL, acts + more).shared.ledger;
            rid in later && later[rid] == Exec(env, INITIAL, acts).shared.ledger[rid]
  {
    AlwaysSafe(env, acts);
    ExecAppend(env, INITIAL, acts, more);
    RunSafe(env, Exec(env, INITIAL, acts), more);
  }

  /**
   Two deliveries of one id that return, at any two moments of a run, return the same
   acknowledgement, and the ledger holds it from then on.
   */
  lemma EveryDeliveryReturnsTheSame(env: Env, acts: seq<Action>, more: seq<Action>, rid: Id, a: nat, first: Ack,
                                    b: nat, second: Ack)
    requires var w := Exec(env, INITIAL, acts); a in w.procs && w.procs[a] == PDeliver(DReturned(rid, first))
    requires var w := Exec(env, INITIAL, acts + more); b in w.procs && w.procs[b] == PDeliver(DReturned(rid, second))
    ensures first == second
    ensures Recorded(Exec(env, INITIAL, acts + more).shared.ledger, rid, first)
  {
    AlwaysSafe(env, acts);
    AlwaysSafe(env, acts + more);
    ReturnedIsRecorded(env, Exec(env, INITIAL, acts), rid, a, first);
    ReturnedIsRecorded(env, Exec(env, INITIAL, acts + more), rid, b, second);
    LedgerIsWriteOnce(env, acts, more, rid);
  }

  lemma ReturnedIsRecorded(env: Env, w: World, rid: Id, id: nat, ack: Ack)
    requires Safe(env, w) && id in w.procs && w.procs[id] == PDeliver(DReturned(rid, ack))
    ensures Recorded(w.shared.ledger, rid, ack)
  {
    assert ProcOk(w.shared, w.procs[id]);
  }

  /** A finished reconciliation never reports a divergence, and what it calls consistent is committed on both sides. */
  lemma ReconciliationIsSound(env: Env, acts: seq<Action>, id: nat, rows: seq<ReportRow>, k: nat)
    requires var w := Exec(env, INITIAL, acts); id in w.procs && w.procs[id] == PReconcile(RDone(rows))
    requires k < |rows|
    ensures rows[k].verdict != Divergence
    ensures rows[k].verdict == Consistent ==> BothCommitted(Exec(env, INITIAL, acts).shared, rows[k].rid)
  {
    AlwaysSafe(env, acts);
    assert RowOk(Exec(env, INITIAL, acts).shared, rows[k]);
  }
}
