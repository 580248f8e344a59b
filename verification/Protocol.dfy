/**
 Ingestion, workers, deliverers and reconcilers as concurrent processes. Every step of a
 process is one SQL transaction, one ledger call or one file operation; between two steps
 any other process may run, the process may crash, and a reply may get lost.
 */
module Protocol {
  import opened Prelude
  import opened StoreModel

  // ---------------------------------------------------------------- the external ledger

  datatype LedgerRow = LedgerRow(hash: Digest, tx: Tx)

  type Ledger = map<Id, LedgerRow>

  datatype Ack = Ack(tx: Tx, hash: Digest)

  /**
   The configured store, the receipt digest, and whether a payload's receipt verifies at a given
   time. Nothing is assumed of `verifies`: expiry and revocation may end it at any moment.
   */
  datatype Env = Env(store: Config, digest: Receipt -> Digest, verifies: (Payload, int) -> bool)

  /** Raises when the stored hash is another one; None when there is no record. */
  function Lookup(ledger: Ledger, p: Payload): Result<Option<Ack>, ()> {
    if p.recordID !in ledger then Ok(None)
    else if ledger[p.recordID].hash != p.receiptHash then Err(())
    else Ok(Some(Ack(ledger[p.recordID].tx, ledger[p.recordID].hash)))
  }

  /**
   `accepted` is the ledger's own verification of the payload at the time of the call, `tx` the
   transaction id it assigns to a new record; ids are never empty.
   */
  function Submit(ledger: Ledger, p: Payload, accepted: bool, tx: Tx): (Ledger, Option<Ack>) {
    if !accepted || tx == "" then (ledger, None)
    else
      var after := if p.recordID in ledger then ledger else ledger[p.recordID := LedgerRow(p.receiptHash, tx)];
      var row := after[p.recordID];
      (after, if row.hash == p.receiptHash then Some(Ack(row.tx, row.hash)) else None)
  }

  // ---------------------------------------------------------------- what the processes share

  /** `files` maps a record id to the digest of the ciphertext file written for it. */
  datatype Shared = Shared(db: Db, ledger: Ledger, files: map<Id, Digest>)

  /** The fields of a receipt that the worker computes itself. */
  datatype Draft = Draft(
    sbomHash: Digest, policyHash: Digest, decision: string, keyID: string,
    issuedAt: int, expiresAt: int, signature: string)

  /**
   Everything a step takes from outside: the clock readings of the store, whether the local
   work or checks of the step went through (`proceed`), the time of a receipt check (`clock`),
   whether the ledger accepts a submission and under which transaction id, whether the reply of
   the call is lost, the worker's results and the order in which rows come back.
   */
  datatype Input = Input(
    now: real, created: real, ns: int, clock: int, proceed: bool, accepted: bool, tx: Tx, replyLost: bool,
    draft: Draft, entries: seq<(Id, OutRow)>)

  // ---------------------------------------------------------------- ingestion

  datatype Ingestion =
    | IStart(args: IngestArgs)
    | IGated(args: IngestArgs)
    | IWritten(args: IngestArgs)
    | IUnlink(args: IngestArgs)
    | IDone(rid: Id)
    | IRaised

  function IngestStep(env: Env, s: Shared, p: Ingestion, i: Input): (Shared, Ingestion) {
    match p
    case IStart(a) =>
      if a.rid in s.db.submissions then
        var row := s.db.submissions[a.rid];
        (s, if row.documentHash != a.documentHash || row.vendor != a.vendor then IRaised else IDone(a.rid))
      else (s, if i.proceed then IGated(a) else IRaised)
    case IGated(a) =>
      // Exclusive create: an existing file is never overwritten.
      if !i.proceed || a.rid in s.files then (s, IRaised)
      else (s.(files := s.files[a.rid := a.cipherHash]), IWritten(a))
    case IWritten(a) =>
      (match IngestTx(env.store, s.db, a, i.now, i.created, i.ns)
       case Ok(db) => (s.(db := db), if i.replyLost then IUnlink(a) else IDone(a.rid))
       case Err(_) => (s, IUnlink(a)))
    case IUnlink(a) => (s.(files := s.files - {a.rid}), IRaised)
    case _ => (s, p)
  }

  // ---------------------------------------------------------------- workers

  datatype Worker =
    | WStart(rid: Id)
    | WClaimed(rid: Id, row: Submission)
    | WFailing(rid: Id, version: nat)
    | WEnded

  function Signed(env: Env, rid: Id, row: Submission, d: Draft): Payload {
    var receipt := Receipt(rid, rid, row.vendor, row.documentHash, row.cipherHash,
                           d.sbomHash, d.policyHash, d.decision, d.keyID, d.issuedAt, d.expiresAt);
    Payload(rid, receipt, env.digest(receipt), d.signature)
  }

  function WorkerStep(env: Env, s: Shared, p: Worker, i: Input): (Shared, Worker) {
    match p
    case WStart(rid) =>
      (match ClaimTx(env.store, s.db, rid, i.now, i.ns)
       case Ok(r) => (s.(db := r.0), if i.replyLost then WEnded else WClaimed(rid, r.1))
       case Err(_) => (s, WEnded))
    case WClaimed(rid, row) =>
      if !i.proceed then (s, WFailing(rid, row.version))
      else
        (match PrepareTx(env.store, s.db, rid, row.version, Signed(env, rid, row, i.draft), i.ns)
         case Ok(db) => (s.(db := db), if i.replyLost then WFailing(rid, row.version) else WEnded)
         case Err(_) => (s, WFailing(rid, row.version)))
    case WFailing(rid, version) => (s.(db := FailTx(env.store, s.db, rid, version, i.ns)), WEnded)
    case WEnded => (s, p)
  }

  // ---------------------------------------------------------------- delivery

  /** `checked` is the time at which the receipt was found to verify. */
  datatype Delivery =
    | DStart(rid: Id)
    | DPending(rid: Id, out: OutRow)
    | DLookup(rid: Id, out: OutRow, row: Submission, cached: bool)
    | DSubmit(rid: Id, out: OutRow, checked: int)
    | DFinish(rid: Id, out: OutRow, ack: Ack)
    | DReturned(rid: Id, ack: Ack)
    | DRaised(rid: Id)

  /** The binding checks made before an old commit is looked up. */
  predicate Bound(env: Env, rid: Id, row: Submission, p: Payload) {
    && p.recordID == rid && p.receipt.recordID == rid && p.receipt.nonce == rid
    && env.digest(p.receipt) == p.receiptHash
    && p.receipt.vendorID == row.vendor
    && p.receipt.documentHash == row.documentHash && p.receipt.ciphertextHash == row.cipherHash
  }

  function DeliverStep(env: Env, s: Shared, p: Delivery, i: Input): (Shared, Delivery) {
    match p
    case DStart(rid) =>
      (s, if rid in s.db.outbox then DPending(rid, s.db.outbox[rid]) else DRaised(rid))
    case DPending(rid, out) =>
      if rid !in s.db.submissions then (s, DRaised(rid))
      else
        var row := s.db.submissions[rid];
        if out.status == Confirmed then
          (s, if row.stage != Committed then DRaised(rid) else DLookup(rid, out, row, true))
        else if row.stage != Prepared || row.version != out.snapshot then (s, DRaised(rid))
        else if !env.verifies(out.payload, i.clock) then (s, DLookup(rid, out, row, false))
        else (s, if i.proceed then DSubmit(rid, out, i.clock) else DRaised(rid))
    case DLookup(rid, out, row, cached) =>
      if i.replyLost || !Bound(env, rid, row, out.payload) then (s, DRaised(rid))
      else
        (match Lookup(s.ledger, out.payload)
         case Ok(Some(ack)) =>
           if ack.tx == "" then (s, DRaised(rid))
           else if !cached then (s, DFinish(rid, out, ack))
           else (s, if out.txId == Some(ack.tx) then DReturned(rid, ack) else DRaised(rid))
         case _ => (s, DRaised(rid)))
    case DSubmit(rid, out, _) =>
      var (ledger, ack) := Submit(s.ledger, out.payload, i.accepted, i.tx);
      (s.(ledger := ledger), if i.replyLost || ack.None? then DRaised(rid) else DFinish(rid, out, ack.value))
    case DFinish(rid, out, ack) =>
      (match FinishTx(env.store, s.db, rid, out.snapshot, ack.tx, ack.hash, i.ns)
       case Ok(db) => (s.(db := db), if i.replyLost then DRaised(rid) else DReturned(rid, ack))
       case Err(_) => (s, DRaised(rid)))
    case _ => (s, p)
  }

  // ---------------------------------------------------------------- reconciliation

  datatype Verdict = Consistent | Divergence | LedgerAhead | NotCommitted | CheckFailed

  datatype ReportRow = ReportRow(rid: Id, sqlStatus: Status, verdict: Verdict, repaired: bool)

  datatype Reconciler =
    | RStart(repair: bool)
    | RLookup(repair: bool, todo: seq<(Id, OutRow)>, rows: seq<ReportRow>)
    | RCompare(repair: bool, todo: seq<(Id, OutRow)>, rows: seq<ReportRow>, ack: Option<Ack>)
    | RRepair(todo: seq<(Id, OutRow)>, rows: seq<ReportRow>, inner: Delivery)
    | RDone(rows: seq<ReportRow>)

  /** Every outbox row once. */
  ghost predicate Enumerates(outbox: map<Id, OutRow>, entries: seq<(Id, OutRow)>) {
    && (forall k | 0 <= k < |entries| :: entries[k].0 in outbox && outbox[entries[k].0] == entries[k].1)
    && (forall rid | rid in outbox :: (rid, outbox[rid]) in entries)
    && NoDup(entries)
  }

  /** What an entry that needs no repair is reported as. */
  function Compare(db: Db, e: (Id, OutRow), ack: Option<Ack>): Verdict {
    if e.1.status == Confirmed then
      if !InStage(db, e.0, Committed) || ack.None? || ack.value.hash != e.1.payload.receiptHash
         || e.1.txId != Some(ack.value.tx) then Divergence
      else Consistent
    else if ack.Some? then LedgerAhead else NotCommitted
  }

  ghost function ReconcileStep(env: Env, s: Shared, p: Reconciler, i: Input): (Shared, Reconciler) {
    match p
    case RStart(repair) => (s, if Enumerates(s.db.outbox, i.entries) then RLookup(repair, i.entries, []) else p)
    case RLookup(repair, todo, rows) =>
      if todo == [] then (s, RDone(rows))
      else
        var e := todo[0];
        (match Lookup(s.ledger, e.1.payload)
         case Ok(ack) =>
           if !i.replyLost then (s, RCompare(repair, todo, rows, ack))
           else (s, RLookup(repair, todo[1..], rows + [ReportRow(e.0, e.1.status, CheckFailed, false)]))
         case Err(_) => (s, RLookup(repair, todo[1..], rows + [ReportRow(e.0, e.1.status, CheckFailed, false)])))
    case RCompare(repair, todo, rows, ack) =>
      if todo == [] then (s, RDone(rows))
      else
        var e := todo[0];
        if i.replyLost then (s, RLookup(repair, todo[1..], rows + [ReportRow(e.0, e.1.status, CheckFailed, false)]))
        else if repair && e.1.status == Pending then (s, RRepair(todo, rows, DStart(e.0)))
        else (s, RLookup(repair, todo[1..], rows + [ReportRow(e.0, e.1.status, Compare(s.db, e, ack), false)]))
    case RRepair(todo, rows, inner) =>
      if todo == [] then (s, RDone(rows))
      else
        var e := todo[0];
        (match inner
         case DReturned(_, _) => (s, RLookup(true, todo[1..], rows + [ReportRow(e.0, e.1.status, Consistent, true)]))
         case DRaised(_) => (s, RLookup(true, todo[1..], rows + [ReportRow(e.0, e.1.status, CheckFailed, false)]))
         case _ => var (after, d) := DeliverStep(env, s, inner, i); (after, RRepair(todo, rows, d)))
    case RDone(_) => (s, p)
  }

  // ---------------------------------------------------------------- the whole system

  datatype Proc =
    | PIngest(ingestion: Ingestion)
    | PWorker(worker: Worker)
    | PDeliver(delivery: Delivery)
    | PReconcile(reconciler: Reconciler)

  predicate Fresh(p: Proc) {
    match p
    case PIngest(x) => x.IStart?
    case PWorker(x) => x.WStart?
    case PDeliver(x) => x.DStart?
    case PReconcile(x) => x.RStart?
  }

  ghost function ProcStep(env: Env, s: Shared, p: Proc, i: Input): (Shared, Proc) {
    match p
    case PIngest(x) => var (after, y) := IngestStep(env, s, x, i); (after, PIngest(y))
    case PWorker(x) => var (after, y) := WorkerStep(env, s, x, i); (after, PWorker(y))
    case PDeliver(x) => var (after, y) := DeliverStep(env, s, x, i); (after, PDeliver(y))
    case PReconcile(x) => var (after, y) := ReconcileStep(env, s, x, i); (after, PReconcile(y))
  }

  datatype World = World(shared: Shared, procs: map<nat, Proc>)

  /**
   A process starts, takes a step or crashes; expired claims are swept; or the ledger takes a
   payload from outside: another client's, or an earlier submission of one of these processes
   that the ledger commits only now.
   */
  datatype Action =
    | Spawn(id: nat, proc: Proc)
    | Step(id: nat, input: Input)
    | Crash(id: nat)
    | Sweep(now: real, order: seq<Id>, stamps: nat -> int)
    | Foreign(payload: Payload, accepted: bool, tx: Tx)

  ghost function Next(env: Env, w: World, a: Action): World {
    match a
    case Spawn(id, p) => if id !in w.procs && Fresh(p) then w.(procs := w.procs[id := p]) else w
    case Step(id, i) =>
      if id !in w.procs then w
      else var (s, p) := ProcStep(env, w.shared, w.procs[id], i); World(s, w.procs[id := p])
    case Crash(id) => w.(procs := w.procs - {id})
    case Sweep(now, order, stamps) =>
      w.(shared := w.shared.(db := Apply(env.store, w.shared.db, OpRecover(now, order, stamps))))
    case Foreign(p, accepted, tx) =>
      w.(shared := w.shared.(ledger := Submit(w.shared.ledger, p, accepted, tx).0))
  }

  const INITIAL := World(Shared(EMPTY, map[], map[]), map[])

  /** The world after a run, from `w`. */
  ghost function Exec(env: Env, w: World, acts: seq<Action>): World {
    if acts == [] then w else Next(env, Exec(env, w, acts[..|acts| - 1]), acts[|acts| - 1])
  }

  lemma {:induction false} ExecAppend(env: Env, w: World, first: seq<Action>, second: seq<Action>)
    ensures Exec(env, w, first + second) == Exec(env, Exec(env, w, first), second)
  {
    if second == [] {
      assert first + second == first;
    } else {
      var k := |second| - 1;
      assert (first + second)[..|first + second| - 1] == first + second[..k];
      ExecAppend(env, w, first, second[..k]);
    }
  }
}
