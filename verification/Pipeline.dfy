/**
 The sequential code: a write-once ledger, exclusive files, the pipeline over them and the
 reconciliation. Each method is proved to be an uninterrupted run of the matching process.
 */
module Pipeline {
  import opened Prelude
  import opened StoreModel
  import opened Protocol
  import opened ProtocolSafety
  import opened Solo
  import Store

  /** The reference ledger: one record per id, never replaced, under an id made from the payload's digest. */
  class LocalLedger {
    const payloadHash: Payload -> Digest
    var records: Ledger

    constructor (payloadHash: Payload -> Digest)
      ensures this.payloadHash == payloadHash && records == map[]
    {
      this.payloadHash := payloadHash;
      records := map[];
    }

    function TxOf(p: Payload): (tx: Tx)
      ensures tx != ""
    {
      "local-" + payloadHash(p)
    }

    method Lookup(p: Payload) returns (r: Result<Option<Ack>, ()>)
      ensures r == Protocol.Lookup(records, p)
    {
      if p.recordID !in records { return Ok(None); }
      var row := records[p.recordID];
      if row.hash != p.receiptHash { return Err(()); }
      r := Ok(Some(Ack(row.tx, row.hash)));
    }

    method Submit(p: Payload, accepted: bool) returns (ack: Option<Ack>)
      modifies this
      ensures (records, ack) == Protocol.Submit(old(records), p, accepted, TxOf(p))
    {
      if !accepted { return None; }
      if p.recordID !in records {
        records := records[p.recordID := LedgerRow(p.receiptHash, "local-" + payloadHash(p))];
      }
      var row := records[p.recordID];
      if row.hash != p.receiptHash { return None; }
      ack := Some(Ack(row.tx, row.hash));
    }
  }

  /** The ciphertext files, by record id. */
  class Blobs {
    var digests: map<Id, Digest>

    constructor ()
      ensures digests == map[]
    {
      digests := map[];
    }

    /** Exclusive create. */
    method DurableWrite(rid: Id, digest: Digest) returns (ok: bool)
      modifies this
      ensures ok <==> rid !in old(digests)
      ensures digests == if ok then old(digests)[rid := digest] else old(digests)
    {
      ok := rid !in digests;
      if ok { digests := digests[rid := digest]; }
    }

    method Unlink(rid: Id)
      modifies this
      ensures digests == old(digests) - {rid}
    {
      digests := digests - {rid};
    }
  }

  class Pipeline {
    const env: Env
    const store: Store.Tables
    const ledger: LocalLedger
    const blobs: Blobs

    constructor (env: Env, store: Store.Tables, ledger: LocalLedger, blobs: Blobs)
      requires store.config == env.store
      ensures this.env == env && this.store == store && this.ledger == ledger && this.blobs == blobs && Wired()
    {
      this.env, this.store, this.ledger, this.blobs := env, store, ledger, blobs;
    }

    ghost predicate Wired() {
      store.config == env.store
    }

    ghost function State(): Shared
      reads store, ledger, blobs
    {
      Shared(store.Contents(), ledger.records, blobs.digests)
    }

    method Ingest(a: IngestArgs, i: Inputs) returns (r: Option<Id>)
      requires Wired()
      modifies store, blobs
      ensures var (after, end) := Solo.Ingest(env, old(State()), IStart(a), i);
              State() == after && r == if end.IDone? then Some(end.rid) else None
      ensures a.rid in old(store.submissions) ==>
                && State() == old(State())
                && (r == Some(a.rid) <==> old(store.submissions)[a.rid].documentHash == a.documentHash
                                          && old(store.submissions)[a.rid].vendor == a.vendor)
      ensures a.rid !in old(store.submissions) && (!i(LOOK).proceed || !i(WRITE).proceed) ==>
                r == None && State() == old(State())
    {
      ghost var start := State();
      if a.rid in start.db.submissions {
        KnownUploadIsAnswered(env, start, a, i);
      } else if !i(LOOK).proceed || !i(WRITE).proceed {
        GatedUploadAdmitsNothing(env, start, a, i);
      }
      if a.rid in store.submissions {
        var row := store.submissions[a.rid];
        if row.documentHash != a.documentHash || row.vendor != a.vendor { return None; }
        return Some(a.rid);
      }
      if !i(LOOK).proceed { return None; }
      ghost var s := State();
      ThenIngest(env, s, IStart(a), i, s, IGated(a));
      if !i(WRITE).proceed { return None; }
      var written := blobs.DurableWrite(a.rid, a.cipherHash);
      if !written { return None; }
      ghost var mid := State();
      ThenIngest(env, s, IGated(a), i, mid, IWritten(a));
      r := Admit(a, i);
    }

    /** Asks the store to admit what has been written; whatever the store raises, the file goes again. */
    method Admit(a: IngestArgs, i: Inputs) returns (r: Option<Id>)
      requires Wired()
      modifies store, blobs
      ensures var (after, end) := Solo.Ingest(env, old(State()), IWritten(a), i);
              State() == after && r == if end.IDone? then Some(end.rid) else None
    {
      ghost var s := State();
      var t := store.Ingest(a, i(ADMIT).now, i(ADMIT).created, i(ADMIT).ns);
      if t.Err? || i(ADMIT).replyLost {
        ThenIngest(env, s, IWritten(a), i, State(), IUnlink(a));
        blobs.Unlink(a.rid);
        return None;
      }
      r := Some(a.rid);
    }

    method Process(rid: Id, i: Inputs)
      requires Wired()
      modifies store
      ensures State() == Solo.Work(env, old(State()), WStart(rid), i)
      ensures !i(PREPARE).proceed ==> store.outbox == old(store.outbox)
      ensures !i(PREPARE).proceed && !i(CLAIM).replyLost && InStage(old(store.Contents()), rid, Ingested) ==>
                InStage(store.Contents(), rid, Failed)
    {
      if !i(PREPARE).proceed { FailedWorkPreparesNothing(env, State(), rid, i); }
      ghost var s := State();
      var claim := store.Claim(rid, i(CLAIM).now, i(CLAIM).ns);
      if claim.Err? || i(CLAIM).replyLost { return; }
      var row := claim.value;
      ghost var s1 := State();
      ThenWork(env, s, WStart(rid), i, s1, WClaimed(rid, row));
      var prepared := Prepare(rid, row, i(PREPARE));
      if prepared {
        ThenWork(env, s1, WClaimed(rid, row), i, State(), WEnded);
        return;
      }
      ThenWork(env, s1, WClaimed(rid, row), i, State(), WFailing(rid, row.version));
      store.FailProcessing(rid, row.version, i(FAIL).ns);
    }

    /** The worker's own results, signed and put into the outbox; false when any of it did not go through. */
    method Prepare(rid: Id, row: Submission, i: Input) returns (prepared: bool)
      requires Wired()
      modifies store
      ensures WorkerStep(env, old(State()), WClaimed(rid, row), i)
              == (State(), if prepared then WEnded else WFailing(rid, row.version))
    {
      if !i.proceed { return false; }
      var receipt := Receipt(rid, rid, row.vendor, row.documentHash, row.cipherHash, i.draft.sbomHash,
                             i.draft.policyHash, i.draft.decision, i.draft.keyID, i.draft.issuedAt, i.draft.expiresAt);
      var payload := Payload(rid, receipt, env.digest(receipt), i.draft.signature);
      var t := store.Prepare(rid, row.version, payload, i.ns);
      prepared := t.Ok? && !i.replyLost;
    }

    /** Looks an old commit up after checking what it is bound to. */
    method HistoricalCommit(rid: Id, row: Submission, p: Payload, i: Input) returns (ack: Option<Ack>)
      ensures ack ==
                if i.replyLost || !Bound(env, rid, row, p) then None
                else match Protocol.Lookup(ledger.records, p)
                     case Ok(Some(a)) => if a.tx == "" then None else Some(a)
                     case _ => None
      ensures ack.Some? ==>
                && p.recordID == p.receipt.recordID == p.receipt.nonce == rid
                && p.receipt.vendorID == row.vendor && p.receipt.documentHash == row.documentHash
                && p.receipt.ciphertextHash == row.cipherHash && env.digest(p.receipt) == p.receiptHash
                && rid in ledger.records && ledger.records[rid] == LedgerRow(p.receiptHash, ack.value.tx)
                && ack.value.hash == p.receiptHash && ack.value.tx != ""
    {
      if p.recordID != rid || p.receipt.recordID != rid || p.receipt.nonce != rid
         || env.digest(p.receipt) != p.receiptHash || p.receipt.vendorID != row.vendor
         || p.receipt.documentHash != row.documentHash || p.receipt.ciphertextHash != row.cipherHash {
        return None;
      }
      if i.replyLost { return None; }
      var found := ledger.Lookup(p);
      if found.Err? || found.value.None? || found.value.value.tx == "" { return None; }
      ack := found.value;
    }

    /** The inputs of a delivery over this ledger, which makes the transaction id itself. */
    ghost function Local(rid: Id, i: Inputs): Inputs
      reads store
    {
      var outbox := store.outbox;
      (n: nat) => if rid in outbox then i(n).(tx := ledger.TxOf(outbox[rid].payload)) else i(n)
    }

    method Deliver(rid: Id, i: Inputs) returns (r: Option<Ack>)
      requires Wired()
      modifies store, ledger
      ensures var (after, end) := Solo.Deliver(env, old(State()), DStart(rid), old(Local(rid, i)));
              State() == after && r == if end.DReturned? then Some(end.ack) else None
      ensures rid in old(store.outbox) && old(store.outbox)[rid].status == Pending && !i(CHECK).proceed
              && env.verifies(old(store.outbox)[rid].payload, i(CHECK).clock) ==>
                r == None && State() == old(State())
    {
      ghost var s, j := State(), Local(rid, i);
      if rid !in store.outbox { return None; }
      var pending := store.outbox[rid];
      var payload := pending.payload;
      if pending.status == Pending && env.verifies(payload, i(CHECK).clock) && !i(CHECK).proceed {
        FailedCheckSubmitsNothing(env, s, rid, j);
      }
      Then(env, s, DStart(rid), j, s, DPending(rid, pending));
      if rid !in store.submissions { return None; }
      var row := store.submissions[rid];
      if pending.status == Confirmed {
        if row.stage != Committed { return None; }
        Then(env, s, DPending(rid, pending), j, s, DLookup(rid, pending, row, true));
        var ack := HistoricalCommit(rid, row, payload, i(CALL));
        if ack.None? || pending.txId != Some(ack.value.tx) { return None; }
        return ack;
      }
      if row.stage != Prepared || row.version != pending.snapshot { return None; }
      var clock := i(CHECK).clock;
      if !env.verifies(payload, clock) {
        // Expiry or revocation blocks new writes, not the recovery of a past commit.
        Then(env, s, DPending(rid, pending), j, s, DLookup(rid, pending, row, false));
        var ack := HistoricalCommit(rid, row, payload, i(CALL));
        if ack.None? { return None; }
        Then(env, s, DLookup(rid, pending, row, false), j, s, DFinish(rid, pending, ack.value));
        r := Finalize(rid, pending, ack.value, i(FINISH), j);
        return;
      }
      if !i(CHECK).proceed { return None; }
      Then(env, s, DPending(rid, pending), j, s, DSubmit(rid, pending, clock));
      var ack := ledger.Submit(payload, i(CALL).accepted);
      if i(CALL).replyLost || ack.None? { return None; }
      Then(env, s, DSubmit(rid, pending, clock), j, State(), DFinish(rid, pending, ack.value));
      r := Finalize(rid, pending, ack.value, i(FINISH), j);
    }

    method Finalize(rid: Id, pending: OutRow, ack: Ack, last: Input, ghost j: Inputs) returns (r: Option<Ack>)
      requires Wired() && j(FINISH).ns == last.ns && j(FINISH).replyLost == last.replyLost
      modifies store
      ensures var (after, end) := Solo.Deliver(env, old(State()), DFinish(rid, pending, ack), j);
              State() == after && r == if end.DReturned? then Some(end.ack) else None
    {
      var t := store.Finish(rid, pending.snapshot, ack.tx, ack.hash, last.ns);
      r := if t.Ok? && !last.replyLost then Some(ack) else None;
    }

    // ---------------------------------------------------------------- reconciliation

    method OutboxEntries() returns (entries: seq<(Id, OutRow)>)
      ensures Enumerates(store.outbox, entries) && |entries| == |store.outbox|
    {
      entries := [];
      var left := store.outbox.Keys;
      while left != {}
        invariant left <= store.outbox.Keys
        invariant forall k | 0 <= k < |entries| ::
          entries[k].0 in store.outbox && entries[k].0 !in left && store.outbox[entries[k].0] == entries[k].1
        invariant forall rid | rid in store.outbox :: rid in left || (rid, store.outbox[rid]) in entries
        invariant NoDup(entries) && |entries| + |left| == |store.outbox.Keys|
        decreases left
      {
        var rid :| rid in left;
        left := left - {rid};
        entries := entries + [(rid, store.outbox[rid])];
      }
    }

    /** One row of the report: one lookup, then a delivery of its own. */
    method ReconcileEntry(e: (Id, OutRow), repair: bool, lost: bool, i: Inputs) returns (row: ReportRow)
      requires Wired() && Good(env, State()) && ReadFrom(store.Contents(), e.0, e.1)
      modifies store, ledger
      ensures Good(env, State()) && Grows(old(State()), State())
      ensures row.rid == e.0 && row.sqlStatus == e.1.status && RowOk(State(), row)
      ensures row.repaired <==> repair && e.1.status == Pending && row.verdict == Consistent
      ensures lost ==> row.verdict == CheckFailed && State() == old(State())
      ensures repair && e.1.status == Pending ==> row.verdict == Consistent || row.verdict == CheckFailed
      ensures !lost && !repair && e.1.status == Pending ==>
                row.verdict == if e.1.payload.recordID !in old(ledger.records) then NotCommitted
                               else if old(ledger.records)[e.1.payload.recordID].hash == e.1.payload.receiptHash
                               then LedgerAhead else CheckFailed
      ensures !repair ==> State() == old(State())
      ensures e.1.status == Confirmed && !lost ==> row.verdict == Consistent
      ensures forall other | other != e.0 :: Waits(old(State()), other) ==> Waits(State(), other)
      ensures repair && !lost && Works(env, i, e.1.payload) && Waits(old(State()), e.0) ==> row.verdict == Consistent
    {
      ghost var s := State();
      GrowsRefl(s);
      LookupEntry(env, s, e);
      if Waits(s, e.0) { WaitingIsFound(env, s, e); }
      row := ReportRow(e.0, e.1.status, CheckFailed, false);
      var found := ledger.Lookup(e.1.payload);
      if found.Err? || lost { return; }
      var ack := found.value;
      if e.1.status == Confirmed {
        CompareSafe(s, e, ack);
        if e.0 !in store.submissions || store.submissions[e.0].stage != Committed || ack.None?
           || ack.value.hash != e.1.payload.receiptHash || e.1.txId != Some(ack.value.tx) {
          row := row.(verdict := Divergence);
        } else {
          row := row.(verdict := Consistent);
        }
        assert row.verdict == Compare(s.db, e, ack);
        return;
      }
      if !repair {
        row := row.(verdict := if ack.Some? then LedgerAhead else NotCommitted);
        return;
      }
      ghost var j := Local(e.0, i);
      var delivered := Deliver(e.0, i);
      DeliverKeeps(env, s, DStart(e.0), j);
      DeliverGrows(env, s, DStart(e.0), j);
      WaitsSurvives(env, s, e.0, j);
      if delivered.Some? { row := row.(verdict := Consistent, repaired := true); }
      if Works(env, i, e.1.payload) && Waits(s, e.0) {
        assert forall n :: StepWorks(i(n)) ==> StepWorks(j(n));
        WaitingIsRepaired(env, s, e.0, j);
      }
    }

    /** Adds the row of the next entry. */
    method ReconcileNext(entries: seq<(Id, OutRow)>, rows: seq<ReportRow>, repair: bool, lost: bool, i: Inputs,
                         ghost outbox: map<Id, OutRow>, ghost allWork: bool) returns (row: ReportRow)
      requires Wired() && Good(env, State()) && |rows| < |entries|
      requires Enumerates(outbox, entries) && Progress(State(), entries, rows, allWork)
      requires allWork ==> repair && !lost && Works(env, i, entries[|rows|].1.payload)
      modifies store, ledger
      ensures Good(env, State()) && Progress(State(), entries, rows + [row], allWork)
    {
      ghost var s := State();
      var e := entries[|rows|];
      assert entries[|rows|..][0] == e;
      row := ReconcileEntry(e, repair, lost, i);
      RowAdvances(env, s, State(), outbox, entries, rows, row, allWork);
    }

    /** Compares the entries one after the other; `lost(k)` says whether the lookup of the k-th failed. */
    method ReconcileAll(entries: seq<(Id, OutRow)>, repair: bool, lost: nat -> bool, inputs: nat -> Inputs)
      returns (rows: seq<ReportRow>)
      requires Wired() && Good(env, State()) && Enumerates(store.outbox, entries)
      modifies store, ledger
      ensures Good(env, State()) && ReportOk(State(), [], rows)
      ensures |rows| == |entries| && forall j | 0 <= j < |rows| :: rows[j].rid == entries[j].0
      ensures repair && NothingFails(old(State()), lost, inputs) ==>
                forall j | 0 <= j < |rows| :: rows[j].verdict == Consistent
    {
      ghost var outbox := store.outbox;
      ghost var allWork := repair && NothingFails(State(), lost, inputs);
      StartProgress(env, State(), entries, allWork);
      rows := [];
      while |rows| < |entries|
        invariant Good(env, State()) && Progress(State(), entries, rows, allWork)
        invariant allWork ==> forall j, k: nat | 0 <= j < |entries| ::
            !lost(k) && Works(env, inputs(k), entries[j].1.payload)
      {
        var row := ReconcileNext(entries, rows, repair, lost(|rows|), inputs(|rows|), outbox, allWork);
        rows := rows + [row];
      }
      assert entries[|rows|..] == [];
    }

    /** Every entry waits, no lookup fails and no delivery fails. */
    ghost predicate NothingFails(s: Shared, lost: nat -> bool, inputs: nat -> Inputs) {
      AllWork(env, s, inputs) && forall k: nat :: !lost(k)
    }

    /**
     The whole pass. Nothing is ever reported as divergent; every row reported consistent is
     committed on both sides; and a repairing pass in which nothing fails reports every entry
     consistent.
     */
    method Reconcile(repair: bool, lost: nat -> bool, inputs: nat -> Inputs)
      returns (rows: seq<ReportRow>, divergences: nat, repaired: nat)
      requires Wired() && Good(env, State())
      modifies store, ledger
      ensures Good(env, State()) && ReportOk(State(), [], rows)
      ensures |rows| == |old(store.outbox)|
      ensures forall rid | rid in old(store.outbox) :: exists k :: 0 <= k < |rows| && rows[k].rid == rid
      ensures divergences == |set k | 0 <= k < |rows| && rows[k].verdict in {Divergence, LedgerAhead, CheckFailed}|
      ensures repaired == |set k | 0 <= k < |rows| && rows[k].repaired|
      ensures repair && NothingFails(old(State()), lost, inputs) ==> divergences == 0
    {
      var entries := OutboxEntries();
      rows := ReconcileAll(entries, repair, lost, inputs);
      divergences, repaired := Totals(rows);
      TotalsCount(rows);
      AllReported(old(store.outbox), entries, rows);
      if repair && NothingFails(old(State()), lost, inputs) { NothingSuspicious(rows); }
    }

    method Totals(rows: seq<ReportRow>) returns (divergences: nat, repaired: nat)
      ensures divergences == Suspicious(rows) && repaired == Repaired(rows)
    {
      divergences, repaired := 0, 0;
      for k := 0 to |rows|
        invariant divergences == Suspicious(rows[..k]) && repaired == Repaired(rows[..k])
      {
        assert rows[..k + 1][..k] == rows[..k];
        if rows[k].verdict != Consistent && rows[k].verdict != NotCommitted { divergences := divergences + 1; }
        if rows[k].repaired { repaired := repaired + 1; }
      }
      assert rows[..|rows|] == rows;
    }
  }

  /** The number of report rows that are neither consistent nor simply not committed yet. */
  function Suspicious(rows: seq<ReportRow>): nat {
    if rows == [] then 0
    else
      var k := |rows| - 1;
      Suspicious(rows[..k]) + if rows[k].verdict == Consistent || rows[k].verdict == NotCommitted then 0 else 1
  }

  function Places(rows: seq<ReportRow>, yes: ReportRow -> bool): set<int> {
    set k | 0 <= k < |rows| && yes(rows[k])
  }

  lemma OneMorePlace(rows: seq<ReportRow>, row: ReportRow, yes: ReportRow -> bool)
    ensures |Places(rows + [row], yes)| == |Places(rows, yes)| + if yes(row) then 1 else 0
  {
    assert Places(rows + [row], yes) == Places(rows, yes) + if yes(row) then {|rows|} else {};
  }

  function IsSuspicious(row: ReportRow): bool {
    row.verdict in {Divergence, LedgerAhead, CheckFailed}
  }

  lemma {:induction false} TotalsArePlaces(rows: seq<ReportRow>)
    ensures Suspicious(rows) == |Places(rows, IsSuspicious)|
    ensures Repaired(rows) == |Places(rows, (row: ReportRow) => row.repaired)|
    decreases |rows|
  {
    if rows != [] {
      var k := |rows| - 1;
      TotalsArePlaces(rows[..k]);
      assert rows == rows[..k] + [rows[k]];
      OneMorePlace(rows[..k], rows[k], IsSuspicious);
      OneMorePlace(rows[..k], rows[k], (row: ReportRow) => row.repaired);
    }
  }

  /** The two totals are the numbers of rows that are suspicious and that were repaired. */
  lemma TotalsCount(rows: seq<ReportRow>)
    ensures Suspicious(rows) == |set k | 0 <= k < |rows| && rows[k].verdict in {Divergence, LedgerAhead, CheckFailed}|
    ensures Repaired(rows) == |set k | 0 <= k < |rows| && rows[k].repaired|
  {
    TotalsArePlaces(rows);
    assert Places(rows, IsSuspicious)
           == set k | 0 <= k < |rows| && rows[k].verdict in {Divergence, LedgerAhead, CheckFailed};
    assert Places(rows, (row: ReportRow) => row.repaired) == set k | 0 <= k < |rows| && rows[k].repaired;
  }

  ghost predicate StillWaiting(s: Shared, entries: seq<(Id, OutRow)>, k: nat) {
    forall j | k <= j < |entries| :: Waits(s, entries[j].0)
  }

  /**
   A pass part of the way: the rows are sound, and if everything works all are consistent and the rest
   still waits.
   */
  ghost predicate Progress(s: Shared, entries: seq<(Id, OutRow)>, rows: seq<ReportRow>, allWork: bool) {
    && |rows| <= |entries| && ReportOk(s, entries[|rows|..], rows)
    && (forall j | 0 <= j < |rows| :: rows[j].rid == entries[j].0)
    && (allWork ==> StillWaiting(s, entries, |rows|) && forall j | 0 <= j < |rows| :: rows[j].verdict == Consistent)
  }

  lemma StartProgress(env: Env, s: Shared, entries: seq<(Id, OutRow)>, allWork: bool)
    requires Good(env, s) && Enumerates(s.db.outbox, entries)
    requires allWork ==> forall rid | rid in s.db.outbox :: Waits(s, rid)
    ensures Progress(s, entries, [], allWork)
  {
    EntriesRead(env, s, entries);
    assert entries[0..] == entries;
  }

  lemma OneLessWaiting(before: Shared, after: Shared, outbox: map<Id, OutRow>, entries: seq<(Id, OutRow)>, k: nat)
    requires k < |entries| && Enumerates(outbox, entries) && StillWaiting(before, entries, k)
    requires forall other | other != entries[k].0 :: Waits(before, other) ==> Waits(after, other)
    ensures StillWaiting(after, entries, k + 1)
  {
    forall j | k + 1 <= j < |entries| ensures Waits(after, entries[j].0) {
      assert entries[j] != entries[k];
    }
  }

  lemma RowAdvances(env: Env, before: Shared, after: Shared, outbox: map<Id, OutRow>, entries: seq<(Id, OutRow)>,
                    rows: seq<ReportRow>, row: ReportRow, allWork: bool)
    requires |rows| < |entries| && Enumerates(outbox, entries) && Progress(before, entries, rows, allWork)
    requires Grows(before, after) && Good(env, after) && RowOk(after, row) && row.rid == entries[|rows|].0
    requires forall other | other != row.rid :: Waits(before, other) ==> Waits(after, other)
    requires allWork ==> row.verdict == Consistent
    ensures Progress(after, entries, rows + [row], allWork)
  {
    OneMoreRow(env, before, after, entries, rows, row);
    if allWork { OneLessWaiting(before, after, outbox, entries, |rows|); }
  }

  lemma AllReported(outbox: map<Id, OutRow>, entries: seq<(Id, OutRow)>, rows: seq<ReportRow>)
    requires Enumerates(outbox, entries) && |rows| == |entries|
    requires forall j | 0 <= j < |rows| :: rows[j].rid == entries[j].0
    ensures forall rid | rid in outbox :: exists j :: 0 <= j < |rows| && rows[j].rid == rid
  {
    forall rid | rid in outbox ensures exists j :: 0 <= j < |rows| && rows[j].rid == rid {
      var j :| 0 <= j < |entries| && entries[j] == (rid, outbox[rid]);
      assert rows[j].rid == rid;
    }
  }

  lemma OneMoreRow(env: Env, before: Shared, after: Shared, entries: seq<(Id, OutRow)>, rows: seq<ReportRow>,
                   row: ReportRow)
    requires |rows| < |entries| && Grows(before, after) && Good(env, after)
    requires ReportOk(before, entries[|rows|..], rows) && RowOk(after, row)
    ensures ReportOk(after, entries[|rows| + 1..], rows + [row])
  {
    ReportStable(env, before, after, entries[|rows|..], rows);
    Reported(after, entries[|rows|..], rows, row);
    assert entries[|rows|..][1..] == entries[|rows| + 1..];
  }

  lemma {:induction false} NothingSuspicious(rows: seq<ReportRow>)
    requires forall j | 0 <= j < |rows| :: rows[j].verdict == Consistent
    ensures Suspicious(rows) == 0
  {
    if rows != [] { NothingSuspicious(rows[..|rows| - 1]); }
  }

  function Repaired(rows: seq<ReportRow>): nat {
    if rows == [] then 0
    else Repaired(rows[..|rows| - 1]) + if rows[|rows| - 1].repaired then 1 else 0
  }
}
