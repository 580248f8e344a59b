/**
 The tables of the durable outbox and the transactions that update them, as functions
 from one database state to the next. The class in Store.dfy runs the same transactions
 in place and is proved against these functions.
 */
module StoreModel {
  import opened Prelude

  type Id = string
  type Digest = string
  type Tx = string

  /** A signed receipt. Its canonical JSON text is represented by the value it encodes. */
  datatype Receipt = Receipt(
    recordID: Id, nonce: Id, vendorID: string, documentHash: Digest, ciphertextHash: Digest,
    sbomHash: Digest, policyHash: Digest, decision: string, keyID: string, issuedAt: int, expiresAt: int)

  datatype Payload = Payload(recordID: Id, receipt: Receipt, receiptHash: Digest, signature: string)

  datatype Stage = Ingested | Processing | Prepared | Committed | Failed

  datatype Submission = Submission(
    vendor: string, documentHash: Digest, cipherHash: Digest, envelope: string, context: string,
    blobPath: string, stage: Stage, version: nat, leaseUntil: real, created: real)

  datatype Status = Pending | Confirmed

  datatype OutRow = OutRow(payload: Payload, snapshot: nat, status: Status, txId: Option<Tx>)

  datatype Kind = KIngested | KProcessing | KPrepared | KCommitted | KFailed | KLeaseRecovered

  /** The canonical event text, again as the value it encodes. */
  datatype EventBody = EventBody(recordID: Id, kind: Kind, atNs: int, detail: seq<string>)

  /** `recordID` is the separate column; the hash covers only `body`. */
  datatype EventRow = EventRow(recordID: Id, body: EventBody, prevHash: Digest, eventHash: Digest)

  datatype Replay = Replay(recordID: Id, received: real)

  datatype Db = Db(
    submissions: map<Id, Submission>, outbox: map<Id, OutRow>,
    events: seq<EventRow>, replays: map<Digest, Replay>)

  const EMPTY := Db(map[], map[], [], map[])

  /** SHA-256 of a previous hash followed by an event text. */
  type ChainHash = (Digest, EventBody) -> Digest

  /** What the store is configured with: the hash and the optional replay retention. */
  datatype Config = Config(hash: ChainHash, retention: Option<real>)

  datatype Failure =
    | AlreadyExists | ContentReplay | NotClaimable | StaleWorker | IntegrityError
    | MissingTx | MissingRow | StaleSnapshot | ReceiptChanged

  const GENESIS: Digest := "0000000000000000000000000000000000000000000000000000000000000000"

  const LEASE := 300.0

  // ---------------------------------------------------------------- audit events

  function LastHash(events: seq<EventRow>): Digest {
    if events == [] then GENESIS else events[|events| - 1].eventHash
  }

  function Append(c: Config, events: seq<EventRow>, rid: Id, kind: Kind, ns: int, detail: seq<string>): seq<EventRow> {
    var body := EventBody(rid, kind, ns, detail);
    var prev := LastHash(events);
    events + [EventRow(rid, body, prev, c.hash(prev, body))]
  }

  // ---------------------------------------------------------------- transactions

  datatype IngestArgs = IngestArgs(
    rid: Id, vendor: string, documentHash: Digest, cipherHash: Digest,
    envelope: string, context: string, path: string)

  function Purge(replays: map<Digest, Replay>, cutoff: real): map<Digest, Replay> {
    map d | d in replays && replays[d].received > cutoff :: replays[d]
  }

  /** `now` and `created` are the two separate clock readings of the transaction. */
  function IngestTx(c: Config, db: Db, a: IngestArgs, now: real, created: real, ns: int): Result<Db, Failure> {
    if a.rid in db.submissions then Err(AlreadyExists)
    else
      var purged := if c.retention.Some? then Purge(db.replays, now - c.retention.value) else db.replays;
      if c.retention.Some? && a.documentHash in purged then Err(ContentReplay)
      else
        var replays := if c.retention.Some? then purged[a.documentHash := Replay(a.rid, now)] else purged;
        var row := Submission(a.vendor, a.documentHash, a.cipherHash, a.envelope, a.context, a.path, Ingested, 1, 0.0,
            created);
        Ok(Db(db.submissions[a.rid := row], db.outbox,
              Append(c, db.events, a.rid, KIngested, ns, [a.documentHash, a.cipherHash]), replays))
  }

  function Move(s: Submission, stage: Stage, lease: real): Submission {
    s.(stage := stage, version := s.version + 1, leaseUntil := lease)
  }

  predicate InStage(db: Db, rid: Id, stage: Stage) {
    rid in db.submissions && db.submissions[rid].stage == stage
  }

  function ClaimTx(c: Config, db: Db, rid: Id, now: real, ns: int): Result<(Db, Submission), Failure> {
    if !InStage(db, rid, Ingested) then Err(NotClaimable)
    else
      var row := Move(db.submissions[rid], Processing, now + LEASE);
      Ok((db.(submissions := db.submissions[rid := row],
              events := Append(c, db.events, rid, KProcessing, ns, [])), row))
  }

  predicate Holds(db: Db, rid: Id, version: nat) {
    InStage(db, rid, Processing) && db.submissions[rid].version == version
  }

  function PrepareTx(c: Config, db: Db, rid: Id, version: nat, payload: Payload, ns: int): Result<Db, Failure> {
    if !Holds(db, rid, version) then Err(StaleWorker)
    else if rid in db.outbox then Err(IntegrityError)
    else
      Ok(db.(submissions := db.submissions[rid := Move(db.submissions[rid], Prepared, 0.0)],
             outbox := db.outbox[rid := OutRow(payload, version + 1, Pending, None)],
             events := Append(c, db.events, rid, KPrepared, ns, [payload.receiptHash])))
  }

  function FinishTx(c: Config, db: Db, rid: Id, snapshot: nat, tx: Tx, receiptHash: Digest,
                    ns: int): Result<Db, Failure> {
    if tx == "" then Err(MissingTx)
    else if rid !in db.submissions then Err(MissingRow)
    else
      var row := db.submissions[rid];
      if row.stage == Committed && rid !in db.outbox then Err(MissingRow)
      else if row.stage == Committed && db.outbox[rid].txId == Some(tx) then Ok(db)
      else if row.stage != Prepared || row.version != snapshot then Err(StaleSnapshot)
      else if rid !in db.outbox then Err(MissingRow)
      else if db.outbox[rid].payload.receiptHash != receiptHash then Err(ReceiptChanged)
      else
        Ok(db.(submissions := db.submissions[rid := row.(stage := Committed, version := row.version + 1)],
               outbox := db.outbox[rid := db.outbox[rid].(status := Confirmed, txId := Some(tx))],
               events := Append(c, db.events, rid, KCommitted, ns, [tx, receiptHash])))
  }

  function FailTx(c: Config, db: Db, rid: Id, version: nat, ns: int): Db {
    if !Holds(db, rid, version) then db
    else
      db.(submissions := db.submissions[rid := Move(db.submissions[rid], Failed, 0.0)],
          events := Append(c, db.events, rid, KFailed, ns, []))
  }

  predicate Expired(db: Db, rid: Id, now: real) {
    InStage(db, rid, Processing) && db.submissions[rid].leaseUntil < now
  }

  function ExpiredIds(db: Db, now: real): set<Id> {
    set rid | rid in db.submissions && Expired(db, rid, now)
  }

  function RecoverOne(c: Config, db: Db, rid: Id, ns: int): Db
    requires rid in db.submissions
  {
    db.(submissions := db.submissions[rid := Move(db.submissions[rid], Ingested, 0.0)],
        events := Append(c, db.events, rid, KLeaseRecovered, ns, []))
  }

  /** The update loop over the selected rows; `ns(k)` is the clock reading of the k-th event. */
  function RecoverRows(c: Config, db: Db, order: seq<Id>, ns: nat -> int): (r: Db)
    requires forall rid | rid in order :: rid in db.submissions
    ensures r.submissions.Keys == db.submissions.Keys
  {
    if order == [] then db
    else
      var k := |order| - 1;
      RecoverOne(c, RecoverRows(c, db, order[..k], ns), order[k], ns(k))
  }

  ghost predicate NoDup<T>(s: seq<T>) {
    forall i, j | 0 <= i < j < |s| :: s[i] != s[j]
  }

  /** The rows a SELECT without ORDER BY returns: every expired id once, in any order. */
  ghost predicate Selects(db: Db, now: real, order: seq<Id>) {
    && NoDup(order)
    && (forall rid | rid in order :: rid in ExpiredIds(db, now))
    && (forall rid | rid in ExpiredIds(db, now) :: rid in order)
  }

  // ---------------------------------------------------------------- runs of transactions

  /** One store call with arbitrary arguments, by any caller. */
  datatype Op =
    | OpIngest(a: IngestArgs, now: real, created: real, ns: int)
    | OpClaim(rid: Id, now: real, ns: int)
    | OpPrepare(rid: Id, version: nat, payload: Payload, ns: int)
    | OpFinish(rid: Id, snapshot: nat, tx: Tx, receiptHash: Digest, ns: int)
    | OpFail(rid: Id, version: nat, ns: int)
    | OpRecover(now: real, order: seq<Id>, stamps: nat -> int)

  /** A transaction that raises is rolled back. */
  function Kept(db: Db, r: Result<Db, Failure>): Db {
    if r.Ok? then r.value else db
  }

  ghost function Apply(c: Config, db: Db, op: Op): Db {
    match op
    case OpIngest(a, now, created, ns) => Kept(db, IngestTx(c, db, a, now, created, ns))
    case OpClaim(rid, now, ns) => (match ClaimTx(c, db, rid, now, ns) case Ok(p) => p.0 case Err(_) => db)
    case OpPrepare(rid, version, payload, ns) => Kept(db, PrepareTx(c, db, rid, version, payload, ns))
    case OpFinish(rid, snapshot, tx, hash, ns) => Kept(db, FinishTx(c, db, rid, snapshot, tx, hash, ns))
    case OpFail(rid, version, ns) => FailTx(c, db, rid, version, ns)
    case OpRecover(now, order, stamps) => if Selects(db, now, order) then RecoverRows(c, db, order, stamps) else db
  }

  /** The state after a run of calls. */
  ghost function Run(c: Config, db: Db, ops: seq<Op>): Db {
    if ops == [] then db else Apply(c, Run(c, db, ops[..|ops| - 1]), ops[|ops| - 1])
  }

  lemma {:induction false} RunAppend(c: Config, db: Db, first: seq<Op>, second: seq<Op>)
    ensures Run(c, db, first + second) == Run(c, Run(c, db, first), second)
  {
    if second == [] {
      assert first + second == first;
    } else {
      var k := |second| - 1;
      assert (first + second)[..|first + second| - 1] == first + second[..k];
      RunAppend(c, db, first, second[..k]);
    }
  }
}
