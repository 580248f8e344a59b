/** What the events say beside their kind: the digests and the transaction id that the tables hold. */
module EventDetails {
  import opened Prelude
  import opened StoreModel
  import EventLog
  import Fencing

  /** The event's detail is what the tables say about its record now. */
  predicate Tells(db: Db, e: EventBody) {
    match e.kind
    case KIngested =>
      && e.recordID in db.submissions
      && e.detail == [db.submissions[e.recordID].documentHash, db.submissions[e.recordID].cipherHash]
    case KPrepared =>
      e.recordID in db.outbox && e.detail == [db.outbox[e.recordID].payload.receiptHash]
    case KCommitted =>
      && e.recordID in db.outbox && db.outbox[e.recordID].txId.Some?
      && e.detail == [db.outbox[e.recordID].txId.value, db.outbox[e.recordID].payload.receiptHash]
    case _ => e.detail == []
  }

  ghost predicate AllTell(db: Db) {
    forall e | e in db.events :: Tells(db, e.body)
  }

  lemma StillTells(c: Config, before: Db, after: Db, e: EventBody)
    requires EventLog.Inv(c, before) && Fencing.Progress(before, after) && Tells(before, e)
    ensures Tells(after, e)
  {
    assert EventLog.OutboxFollows(before, e.recordID);
  }

  /** The old events still tell, and so do the new ones. */
  lemma MoreTell(c: Config, before: Db, after: Db, more: seq<EventRow>)
    requires EventLog.Inv(c, before) && Fencing.Progress(before, after) && AllTell(before)
    requires after.events == before.events + more && forall e | e in more :: Tells(after, e.body)
    ensures AllTell(after)
  {
    forall e | e in after.events ensures Tells(after, e.body) {
      if e in before.events { StillTells(c, before, after, e.body); }
    }
  }

  lemma {:induction false} SweepEvents(c: Config, db: Db, order: seq<Id>, ns: nat -> int) returns (more: seq<EventRow>)
    requires forall rid | rid in order :: rid in db.submissions
    ensures RecoverRows(c, db, order, ns).events == db.events + more
    ensures forall e | e in more :: e.body.kind == KLeaseRecovered && e.body.detail == []
  {
    if order == [] {
      more := [];
    } else {
      var k := |order| - 1;
      var front := SweepEvents(c, db, order[..k], ns);
      var before, after := RecoverRows(c, db, order[..k], ns), RecoverRows(c, db, order, ns);
      more := front + [after.events[|after.events| - 1]];
      assert after.events == before.events + [after.events[|after.events| - 1]];
    }
  }

  /** What a transaction appends tells what it did. */
  lemma NewEventsTell(c: Config, db: Db, op: Op) returns (more: seq<EventRow>)
    ensures var after := Apply(c, db, op);
            after.events == db.events + more && forall e | e in more :: Tells(after, e.body)
  {
    var after := Apply(c, db, op);
    if op.OpRecover? && Selects(db, op.now, op.order) {
      more := SweepEvents(c, db, op.order, op.stamps);
    } else if after.events == db.events {
      more := [];
    } else {
      more := [after.events[|after.events| - 1]];
    }
  }

  /**
   After any transactions every event still tells what the tables say: the digests the document was
   admitted with, the receipt it was prepared with, the transaction it was committed under.
   */
  lemma {:induction false} EventsTellTheTables(c: Config, ops: seq<Op>)
    ensures EventLog.Inv(c, Run(c, EMPTY, ops)) && AllTell(Run(c, EMPTY, ops))
  {
    EventLog.LogRefinesTables(c, ops);
    if ops != [] {
      var k := |ops| - 1;
      var before := Run(c, EMPTY, ops[..k]);
      EventsTellTheTables(c, ops[..k]);
      Fencing.ApplyProgress(c, before, ops[k]);
      var more := NewEventsTell(c, before, ops[k]);
      MoreTell(c, before, Apply(c, before, ops[k]), more);
    }
  }
}
