/** The store itself: each method is one serialized transaction that updates the tables in place. */
module Store {
  import opened Prelude
  import opened StoreModel
  import EventLog

  class Tables {
    const config: Config
    var submissions: map<Id, Submission>
    var outbox: map<Id, OutRow>
    var events: seq<EventRow>
    var replays: map<Digest, Replay>

    ghost function Contents(): Db
      reads this
    {
      Db(submissions, outbox, events, replays)
    }

    constructor (hash: ChainHash, retention: Option<real>)
      requires retention.Some? ==> retention.value > 0.0
      ensures Contents() == EMPTY && config == Config(hash, retention)
    {
      config := Config(hash, retention);
      submissions, outbox, events, replays := map[], map[], [], map[];
    }

    /** Appends one event that carries the hash of the last one. */
    method Event(rid: Id, kind: Kind, ns: int, detail: seq<string>)
      modifies this`events
      ensures events == Append(config, old(events), rid, kind, ns, detail)
    {
      var prev := GENESIS;
      if events != [] { prev := events[|events| - 1].eventHash; }
      var body := EventBody(rid, kind, ns, detail);
      events := events + [EventRow(rid, body, prev, config.hash(prev, body))];
    }

    method Ingest(a: IngestArgs, now: real, created: real, ns: int) returns (r: Result<(), Failure>)
      modifies this
      ensures var t := IngestTx(config, old(Contents()), a, now, created, ns);
              && Contents() == Kept(old(Contents()), t)
              && r == if t.Ok? then Ok(()) else Err(t.error)
    {
      if a.rid in submissions { return Err(AlreadyExists); }
      if config.retention.Some? {
        var purged := map d | d in replays && replays[d].received > now - config.retention.value :: replays[d];
        // Raising here rolls the purge back.
        if a.documentHash in purged { return Err(ContentReplay); }
        replays := purged[a.documentHash := Replay(a.rid, now)];
      }
      submissions := submissions[a.rid :=
        Submission(a.vendor, a.documentHash, a.cipherHash, a.envelope, a.context, a.path, Ingested, 1, 0.0, created)];
      Event(a.rid, KIngested, ns, [a.documentHash, a.cipherHash]);
      r := Ok(());
    }

    method Claim(rid: Id, now: real, ns: int) returns (r: Result<Submission, Failure>)
      modifies this
      ensures match ClaimTx(config, old(Contents()), rid, now, ns)
              case Ok(p) => Contents() == p.0 && r == Ok(p.1)
              case Err(e) => Contents() == old(Contents()) && r == Err(e)
    {
      if rid !in submissions || submissions[rid].stage != Ingested { return Err(NotClaimable); }
      var row := submissions[rid];
      row := row.(stage := Processing, version := row.version + 1, leaseUntil := now + LEASE);
      submissions := submissions[rid := row];
      Event(rid, KProcessing, ns, []);
      r := Ok(row);
    }

    method Prepare(rid: Id, version: nat, payload: Payload, ns: int) returns (r: Result<(), Failure>)
      modifies this
      ensures var t := PrepareTx(config, old(Contents()), rid, version, payload, ns);
              && Contents() == Kept(old(Contents()), t)
              && r == if t.Ok? then Ok(()) else Err(t.error)
    {
      if rid !in submissions || submissions[rid].stage != Processing || submissions[rid].version != version {
        return Err(StaleWorker);
      }
      // The insert fails on an existing primary key and takes the update back with it.
      if rid in outbox { return Err(IntegrityError); }
      submissions := submissions[rid :=
          submissions[rid].(stage := Prepared, version := version + 1, leaseUntil := 0.0)];
      outbox := outbox[rid := OutRow(payload, version + 1, Pending, None)];
      Event(rid, KPrepared, ns, [payload.receiptHash]);
      r := Ok(());
    }

    method Finish(rid: Id, snapshot: nat, tx: Tx, receiptHash: Digest, ns: int) returns (r: Result<(), Failure>)
      modifies this
      ensures var t := FinishTx(config, old(Contents()), rid, snapshot, tx, receiptHash, ns);
              && Contents() == Kept(old(Contents()), t)
              && r == if t.Ok? then Ok(()) else Err(t.error)
    {
      if tx == "" { return Err(MissingTx); }
      if rid !in submissions { return Err(MissingRow); }
      var row := submissions[rid];
      if row.stage == Committed {
        if rid !in outbox { return Err(MissingRow); }
        if outbox[rid].txId == Some(tx) { return Ok(()); }
      }
      if row.stage != Prepared || row.version != snapshot { return Err(StaleSnapshot); }
      if rid !in outbox { return Err(MissingRow); }
      if outbox[rid].payload.receiptHash != receiptHash { return Err(ReceiptChanged); }
      outbox := outbox[rid := outbox[rid].(status := Confirmed, txId := Some(tx))];
      submissions := submissions[rid := row.(stage := Committed, version := row.version + 1)];
      Event(rid, KCommitted, ns, [tx, receiptHash]);
      r := Ok(());
    }

    method FailProcessing(rid: Id, version: nat, ns: int)
      modifies this
      ensures Contents() == FailTx(config, old(Contents()), rid, version, ns)
    {
      if rid in submissions && submissions[rid].stage == Processing && submissions[rid].version == version {
        submissions := submissions[rid :=
            submissions[rid].(stage := Failed, version := version + 1, leaseUntil := 0.0)];
        Event(rid, KFailed, ns, []);
      }
    }

    /** The expired rows, each once, in the order the engine happens to return them. */
    method SelectExpired(now: real) returns (rows: seq<Id>)
      ensures Selects(Contents(), now, rows)
    {
      rows := [];
      var left := set rid | rid in submissions && submissions[rid].stage == Processing
          && submissions[rid].leaseUntil < now;
      while left != {}
        invariant NoDup(rows)
        invariant forall rid | rid in rows :: rid !in left && rid in ExpiredIds(Contents(), now)
        invariant forall rid | rid in ExpiredIds(Contents(), now) :: rid in rows || rid in left
        invariant left <= ExpiredIds(Contents(), now)
        decreases left
      {
        var rid :| rid in left;
        left := left - {rid};
        rows := rows + [rid];
      }
    }

    method RecoverRow(rid: Id, ns: int)
      requires rid in submissions
      modifies this
      ensures Contents() == RecoverOne(config, old(Contents()), rid, ns)
    {
      var row := submissions[rid];
      submissions := submissions[rid := row.(stage := Ingested, version := row.version + 1, leaseUntil := 0.0)];
      Event(rid, KLeaseRecovered, ns, []);
    }

    /** Takes every expired claim back; returns how many there were. */
    method RecoverExpired(now: real, ns: nat -> int) returns (count: nat, ghost order: seq<Id>)
      modifies this
      ensures Selects(old(Contents()), now, order) && count == |order|
      ensures Contents() == RecoverRows(config, old(Contents()), order, ns)
    {
      var rows := SelectExpired(now);
      order := rows;
      count := |rows|;
      ghost var before := Contents();
      assert forall rid | rid in rows :: rid in before.submissions;
      for k := 0 to |rows|
        invariant Contents() == RecoverRows(config, before, rows[..k], ns)
      {
        assert rows[k] in rows;
        assert rows[..k + 1][..k] == rows[..k] && rows[..k + 1][k] == rows[k];
        RecoverRow(rows[k], ns(k));
      }
      assert rows[..|rows|] == rows;
    }

    /** Rehashes the whole log; true exactly when every row matches. */
    method VerifyAudit() returns (ok: bool)
      ensures ok <==> EventLog.Chained(config, events)
    {
      var prev := GENESIS;
      for i := 0 to |events|
        invariant prev == LastHash(events[..i])
        invariant forall j | 0 <= j < i :: EventLog.Linked(config, events, j)
      {
        var row := events[i];
        var expected := config.hash(prev, row.body);
        if row.prevHash != prev || row.eventHash != expected {
          assert !EventLog.Linked(config, events, i);
          return false;
        }
        assert events[..i + 1][i] == row;
        prev := expected;
      }
      ok := true;
    }
  }
}
