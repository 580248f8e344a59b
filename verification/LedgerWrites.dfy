/**
 Who writes to the ledger: over any run every record was submitted from outside or by a delivery
 whose own check had passed, on a prepared entry of the current version, with a receipt that verified
 and every recheck through. A delivery none of whose checks passes any more writes nothing.
 */
module LedgerWrites {
  import opened Prelude
  import opened StoreModel
  import opened Protocol
  import opened ProtocolSafety
  import EventLog

  /** The delivery a process is in, its own or the one that repairs an entry. */
  function DeliveryOf(p: Proc): Option<Delivery> {
    match p
    case PDeliver(d) => Some(d)
    case PReconcile(RRepair(todo, _, d)) => if todo == [] then None else Some(d)
    case _ => None
  }

  /** The process is about to submit `out` for `rid`, having checked its receipt at `t`. */
  predicate Submitting(w: World, id: nat, rid: Id, out: OutRow, t: int) {
    id in w.procs && DeliveryOf(w.procs[id]) == Some(DSubmit(rid, out, t))
  }

  predicate Checking(w: World, id: nat, rid: Id, out: OutRow) {
    id in w.procs && DeliveryOf(w.procs[id]) == Some(DPending(rid, out))
  }

  // ---------------------------------------------------------------- every submission was checked

  /** At this step the receipt verifies, and policy, ciphertext, inventory and evidence are found unchanged. */
  predicate Passes(env: Env, p: Payload, i: Input) {
    env.verifies(p, i.clock) && i.proceed
  }

  /** The row is the unconfirmed one of a submission that is still prepared at the same version. */
  predicate Ready(db: Db, rid: Id, out: OutRow) {
    InStage(db, rid, Prepared) && db.submissions[rid].version == out.snapshot && out.status == Pending
  }

  /** Action `m` of the run is the check, at time `t`, of the outbox row that process `id` had read, and passes. */
  ghost predicate CheckedAt(env: Env, acts: seq<Action>, m: nat, id: nat, rid: Id, out: OutRow, t: int) {
    && m < |acts| && acts[m].Step? && acts[m].id == id && acts[m].input.clock == t
    && Checking(Exec(env, INITIAL, acts[..m]), id, rid, out) && Passes(env, out.payload, acts[m].input)
    && Ready(Exec(env, INITIAL, acts[..m]).shared.db, rid, out)
  }

  ghost predicate WasChecked(env: Env, acts: seq<Action>, id: nat, rid: Id, out: OutRow, t: int) {
    exists m: nat :: CheckedAt(env, acts, m, id, rid, out, t)
  }

  ghost predicate SubmissionsChecked(env: Env, acts: seq<Action>) {
    forall id, rid, out, t | Submitting(Exec(env, INITIAL, acts), id, rid, out, t) ::
        WasChecked(env, acts, id, rid, out, t)
  }

  lemma CheckedLater(env: Env, acts: seq<Action>, a: Action, id: nat, rid: Id, out: OutRow, t: int)
    requires WasChecked(env, acts, id, rid, out, t)
    ensures WasChecked(env, acts + [a], id, rid, out, t)
  {
    var m: nat :| CheckedAt(env, acts, m, id, rid, out, t);
    assert (acts + [a])[..m] == acts[..m] && (acts + [a])[m] == acts[m];
    assert CheckedAt(env, acts + [a], m, id, rid, out, t);
  }

  /** A process comes to submit only by its own check. */
  lemma SubmittingComesFromCheck(env: Env, w: World, a: Action, id: nat, rid: Id, out: OutRow, t: int)
    requires Submitting(Next(env, w, a), id, rid, out, t)
    ensures Submitting(w, id, rid, out, t)
            || (a.Step? && a.id == id && a.input.clock == t && Checking(w, id, rid, out)
                && Passes(env, out.payload, a.input) && Ready(w.shared.db, rid, out))
  {
    if a.Step? && a.id == id && id in w.procs {
      var p := w.procs[id];
      if p.PDeliver? {
        CheckLeadsToSubmit(env, w.shared, p.delivery, a.input, rid, out, t);
      } else if p.PReconcile? && p.reconciler.RRepair? {
        CheckLeadsToSubmit(env, w.shared, p.reconciler.inner, a.input, rid, out, t);
      }
    }
  }

  lemma CheckLeadsToSubmit(env: Env, s: Shared, d: Delivery, i: Input, rid: Id, out: OutRow, t: int)
    ensures DeliverStep(env, s, d, i).1 == DSubmit(rid, out, t) ==>
              && d == DPending(rid, out) && i.clock == t
              && Passes(env, out.payload, i) && Ready(s.db, rid, out)
  {}

  lemma NextIsChecked(env: Env, acts: seq<Action>, a: Action)
    requires SubmissionsChecked(env, acts)
    ensures SubmissionsChecked(env, acts + [a])
  {
    var w := Exec(env, INITIAL, acts);
    assert (acts + [a])[..|acts|] == acts;
    forall id, rid, out, t | Submitting(Exec(env, INITIAL, acts + [a]), id, rid, out, t)
      ensures WasChecked(env, acts + [a], id, rid, out, t)
    {
      SubmittingComesFromCheck(env, w, a, id, rid, out, t);
      if Submitting(w, id, rid, out, t) {
        CheckedLater(env, acts, a, id, rid, out, t);
      } else {
        assert CheckedAt(env, acts + [a], |acts|, id, rid, out, t);
      }
    }
  }

  lemma {:induction false} RunIsChecked(env: Env, acts: seq<Action>)
    ensures SubmissionsChecked(env, acts)
    decreases |acts|
  {
    if acts != [] {
      var k := |acts| - 1;
      RunIsChecked(env, acts[..k]);
      NextIsChecked(env, acts[..k], acts[k]);
      assert acts[..k] + [acts[k]] == acts;
    }
  }

  // ---------------------------------------------------------------- who wrote a record

  /** A delivery's submission puts its own receipt under its own id; everything else leaves the ledger alone. */
  ghost predicate WritesOwn(before: Ledger, after: Ledger, rid: Id, out: OutRow) {
    exists tx :: after == before[rid := LedgerRow(out.payload.receiptHash, tx)]
  }

  ghost predicate Submitted(env: Env, w: World, a: Action, rid: Id, out: OutRow, t: int) {
    && a.Step? && Submitting(w, a.id, rid, out, t) && rid !in w.shared.ledger
    && WritesOwn(w.shared.ledger, Next(env, w, a).shared.ledger, rid, out)
  }

  lemma DeliveryWrites(env: Env, s: Shared, d: Delivery, i: Input)
    requires Good(env, s) && DeliveryOk(s, d)
    ensures var after := DeliverStep(env, s, d, i).0.ledger;
            after != s.ledger ==> d.DSubmit? && d.rid !in s.ledger && WritesOwn(s.ledger, after, d.rid, d.out)
  {
    if d.DSubmit? {
      assert OutboxBound(env, s.db, d.rid);
      assert d.out.payload.recordID == d.rid;
      if d.rid !in s.ledger && i.accepted && i.tx != "" {
        assert DeliverStep(env, s, d, i).0.ledger == s.ledger[d.rid := LedgerRow(d.out.payload.receiptHash, i.tx)];
      }
    }
  }

  /** Whatever changes the ledger is a payload from outside or a submitting delivery. */
  lemma OnlySubmissionsWrite(env: Env, w: World, a: Action)
    requires Safe(env, w)
    ensures Next(env, w, a).shared.ledger != w.shared.ledger && !a.Foreign? ==>
              exists rid, out, t :: Submitted(env, w, a, rid, out, t)
  {
    if Next(env, w, a).shared.ledger != w.shared.ledger && !a.Foreign? {
      assert a.Step? && a.id in w.procs && ProcOk(w.shared, w.procs[a.id]);
      var d := DeliveryOf(w.procs[a.id]);
      assert d.Some?;
      DeliveryWrites(env, w.shared, d.value, a.input);
      assert Submitted(env, w, a, d.value.rid, d.value.out, d.value.checked);
    }
  }

  /** Action `k` put the record of `rid` on the ledger, after a check that passed unless it came from outside. */
  ghost predicate WrittenAt(env: Env, acts: seq<Action>, k: nat, rid: Id) {
    && k < |acts| && rid !in Exec(env, INITIAL, acts[..k]).shared.ledger
    && (if acts[k].Foreign? then acts[k].payload.recordID == rid
        else exists out, t ::
               && Submitted(env, Exec(env, INITIAL, acts[..k]), acts[k], rid, out, t)
               && WasChecked(env, acts[..k], acts[k].id, rid, out, t))
  }

  lemma WrittenLater(env: Env, acts: seq<Action>, a: Action, k: nat, rid: Id)
    requires WrittenAt(env, acts, k, rid)
    ensures WrittenAt(env, acts + [a], k, rid)
  {
    assert (acts + [a])[..k] == acts[..k] && (acts + [a])[k] == acts[k];
  }

  lemma WrittenNow(env: Env, acts: seq<Action>, a: Action, rid: Id)
    requires rid !in Exec(env, INITIAL, acts).shared.ledger
               && rid in Next(env, Exec(env, INITIAL, acts), a).shared.ledger
    ensures WrittenAt(env, acts + [a], |acts|, rid)
  {
    var w := Exec(env, INITIAL, acts);
    assert (acts + [a])[..|acts|] == acts;
    if !a.Foreign? {
      AlwaysSafe(env, acts);
      RunIsChecked(env, acts);
      OnlySubmissionsWrite(env, w, a);
      var other, out, t :| Submitted(env, w, a, other, out, t);
      assert other == rid;
      assert WasChecked(env, acts, a.id, rid, out, t);
    }
  }

  /**
   Every record on the ledger came from outside, or was submitted by a delivery whose own earlier
   check passed: that very receipt verified at the time it read, its submission was prepared at the
   version it was prepared for, and every recheck went through.
   */
  lemma {:induction false} EveryWriteWasChecked(env: Env, acts: seq<Action>, rid: Id)
    requires rid in Exec(env, INITIAL, acts).shared.ledger
    ensures exists k: nat :: WrittenAt(env, acts, k, rid)
    decreases |acts|
  {
    var k := |acts| - 1;
    var before := acts[..k];
    assert before + [acts[k]] == acts;
    if rid in Exec(env, INITIAL, before).shared.ledger {
      EveryWriteWasChecked(env, before, rid);
      var m: nat :| WrittenAt(env, before, m, rid);
      WrittenLater(env, before, acts[k], m, rid);
    } else {
      WrittenNow(env, before, acts[k], rid);
    }
  }

  // ---------------------------------------------------------------- when checks no longer pass

  /** The outbox holds `p` for `rid`. */
  predicate Holds(s: Shared, rid: Id, p: Payload) {
    rid in s.db.outbox && s.db.outbox[rid].payload == p
  }

  /** The process is not past its check for `rid`. */
  predicate NotPast(w: World, id: nat, rid: Id) {
    id in w.procs && DeliveryOf(w.procs[id]).Some? && DeliveryOf(w.procs[id]).value.DSubmit? ==>
      DeliveryOf(w.procs[id]).value.rid != rid
  }

  /** Whatever process `id` finds at any of its steps, a check of `p` does not pass on it. */
  ghost predicate ChecksFail(env: Env, acts: seq<Action>, id: nat, p: Payload) {
    forall m | 0 <= m < |acts| && acts[m].Step? && acts[m].id == id :: !Passes(env, p, acts[m].input)
  }

  lemma PayloadStays(env: Env, w: World, a: Action, rid: Id, p: Payload)
    requires Safe(env, w) && Holds(w.shared, rid, p)
    ensures Holds(Next(env, w, a).shared, rid, p)
  {
    NextSafe(env, w, a);
    assert EventLog.OutboxFollows(w.shared.db, rid);
  }

  lemma StaysNotPast(env: Env, w: World, a: Action, id: nat, rid: Id, p: Payload)
    requires Safe(env, w) && Holds(w.shared, rid, p) && NotPast(w, id, rid)
    requires a.Step? && a.id == id ==> !Passes(env, p, a.input)
    ensures NotPast(Next(env, w, a), id, rid)
  {
    forall out, t ensures !Submitting(Next(env, w, a), id, rid, out, t) {
      if Submitting(Next(env, w, a), id, rid, out, t) {
        SubmittingComesFromCheck(env, w, a, id, rid, out, t);
        if Checking(w, id, rid, out) { CheckingReads(env, w, id, rid, out, p); }
      }
    }
    NotSubmittingIsNotPast(Next(env, w, a), id, rid);
  }

  lemma NotSubmittingIsNotPast(w: World, id: nat, rid: Id)
    requires forall out, t :: !Submitting(w, id, rid, out, t)
    ensures NotPast(w, id, rid)
  {
    if id in w.procs && DeliveryOf(w.procs[id]).Some? && DeliveryOf(w.procs[id]).value.DSubmit? {
      var d := DeliveryOf(w.procs[id]).value;
      assert !Submitting(w, id, rid, d.out, d.checked);
    }
  }

  lemma CheckingReads(env: Env, w: World, id: nat, rid: Id, out: OutRow, p: Payload)
    requires Safe(env, w) && Holds(w.shared, rid, p) && Checking(w, id, rid, out)
    ensures out.payload == p
  {
    assert ProcOk(w.shared, w.procs[id]);
  }

  lemma OneMore(env: Env, first: seq<Action>, more: seq<Action>)
    requires more != []
    ensures var k := |more| - 1;
            Exec(env, INITIAL, first + more) == Next(env, Exec(env, INITIAL, first + more[..k]), more[k])
  {
    assert (first + more)[..|first + more| - 1] == first + more[..|more| - 1];
  }

  lemma {:induction false} RunNotPast(env: Env, first: seq<Action>, more: seq<Action>, id: nat, rid: Id, p: Payload)
    requires Holds(Exec(env, INITIAL, first).shared, rid, p) && NotPast(Exec(env, INITIAL, first), id, rid)
    requires ChecksFail(env, more, id, p)
    ensures Holds(Exec(env, INITIAL, first + more).shared, rid, p) && NotPast(Exec(env, INITIAL, first + more), id, rid)
    decreases |more|
  {
    if more == [] {
      assert first + more == first;
    } else {
      var k := |more| - 1;
      RunNotPast(env, first, more[..k], id, rid, p);
      OneMore(env, first, more);
      AlwaysSafe(env, first + more[..k]);
      PayloadStays(env, Exec(env, INITIAL, first + more[..k]), more[k], rid, p);
      StaysNotPast(env, Exec(env, INITIAL, first + more[..k]), more[k], id, rid, p);
    }
  }

  /**
   Take any moment of any run, and any process that is not already past its check for `rid` then.
   If from then on the receipt in the outbox never verifies when this process looks, or its rechecks
   fail, no step it ever takes puts a record of `rid` on the ledger, whatever the other processes do.
   */
  lemma NoWriteUnlessChecked(env: Env, first: seq<Action>, more: seq<Action>, id: nat, i: Input, rid: Id, p: Payload)
    requires Holds(Exec(env, INITIAL, first).shared, rid, p) && NotPast(Exec(env, INITIAL, first), id, rid)
    requires ChecksFail(env, more, id, p)
    requires rid !in Exec(env, INITIAL, first + more).shared.ledger
    ensures rid !in Next(env, Exec(env, INITIAL, first + more), Step(id, i)).shared.ledger
  {
    RunNotPast(env, first, more, id, rid, p);
    AlwaysSafe(env, first + more);
    var w := Exec(env, INITIAL, first + more);
    OnlySubmissionsWrite(env, w, Step(id, i));
    forall other, out, t | Submitted(env, w, Step(id, i), other, out, t) ensures other != rid {}
  }

  /** No check passes any more, by expiry, revocation or change, and nobody outside submits for `rid`. */
  ghost predicate NoneChecked(env: Env, more: seq<Action>, rid: Id, p: Payload) {
    && (forall m | 0 <= m < |more| && more[m].Step? :: !Passes(env, p, more[m].input))
    && (forall m | 0 <= m < |more| && more[m].Foreign? :: more[m].payload.recordID != rid)
  }

  /**
   For all processes at once: after a moment at which none is past its check for `rid`, a receipt
   for which no later check passes never gets a record.
   */
  lemma {:induction false} NoRecordUnlessChecked(env: Env, first: seq<Action>, more: seq<Action>, rid: Id, p: Payload)
    requires Holds(Exec(env, INITIAL, first).shared, rid, p) && NoneChecked(env, more, rid, p)
    requires forall id :: NotPast(Exec(env, INITIAL, first), id, rid)
    requires rid !in Exec(env, INITIAL, first).shared.ledger
    ensures rid !in Exec(env, INITIAL, first + more).shared.ledger
    decreases |more|
  {
    if more == [] {
      assert first + more == first;
    } else {
      var k := |more| - 1;
      var a := more[k];
      NoRecordUnlessChecked(env, first, more[..k], rid, p);
      OneMore(env, first, more);
      if a.Step? {
        NoWriteUnlessChecked(env, first, more[..k], a.id, a.input, rid, p);
      } else {
        AlwaysSafe(env, first + more[..k]);
        OnlySubmissionsWrite(env, Exec(env, INITIAL, first + more[..k]), a);
      }
    }
  }
}
