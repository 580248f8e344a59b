/** The purged replay index decides like a scan of the whole admission history. */
module ReplayIndex {
  import opened Prelude
  import opened StoreModel

  datatype Admission = Admission(digest: Digest, received: real)

  /** Every admission of a run, oldest first; rejected attempts leave no entry. */
  ghost function History(c: Config, ops: seq<Op>): seq<Admission> {
    if ops == [] then []
    else
      var k := |ops| - 1;
      var op := ops[k];
      History(c, ops[..k]) +
      (if op.OpIngest? && IngestTx(c, Run(c, EMPTY, ops[..k]), op.a, op.now, op.created, op.ns).Ok?
       then [Admission(op.a.documentHash, op.now)] else [])
  }

  predicate Within(e: Admission, digest: Digest, window: real, now: real) {
    e.digest == digest && e.received > now - window
  }

  /** An earlier admission of the digest was received inside the retention window. */
  ghost predicate SeenWithin(history: seq<Admission>, digest: Digest, window: real, now: real) {
    exists i | 0 <= i < |history| :: Within(history[i], digest, window, now)
  }

  /** Admission `i` was overtaken: a later one was received at least a whole window after it. */
  ghost predicate Overtaken(history: seq<Admission>, i: nat, window: real)
    requires i < |history|
  {
    exists j | i < j < |history| :: history[j].received - window >= history[i].received
  }

  /** An admission of the digest inside the window that no later admission has overtaken. */
  ghost predicate RememberedWithin(history: seq<Admission>, digest: Digest, window: real, now: real) {
    exists i | 0 <= i < |history| :: !Overtaken(history, i, window) && Within(history[i], digest, window, now)
  }

  // ---------------------------------------------------------------- the index, whatever the clock does

  ghost predicate Indexed(replays: map<Digest, Replay>, e: Admission) {
    e.digest in replays && replays[e.digest].received == e.received
  }

  ghost predicate Remembered(history: seq<Admission>, window: real, digest: Digest) {
    exists i | 0 <= i < |history| :: !Overtaken(history, i, window) && history[i].digest == digest
  }

  /** The index holds exactly the admissions that were not overtaken. */
  ghost predicate HoldsKept(replays: map<Digest, Replay>, history: seq<Admission>, window: real) {
    && (forall i | 0 <= i < |history| && !Overtaken(history, i, window) :: Indexed(replays, history[i]))
    && (forall d | d in replays :: Remembered(history, window, d))
  }

  /** One more admission overtakes those a window or more before it, and nothing else. */
  lemma OvertakenNext(history: seq<Admission>, e: Admission, window: real, i: nat)
    requires i < |history|
    ensures Overtaken(history + [e], i, window) <==>
              Overtaken(history, i, window) || e.received - window >= history[i].received
  {
    var longer := history + [e];
    assert longer[|history|] == e;
    if Overtaken(history, i, window) {
      var j :| i < j < |history| && history[j].received - window >= history[i].received;
      assert longer[j] == history[j];
    }
  }

  lemma LastIsNotOvertaken(history: seq<Admission>, e: Admission, window: real)
    ensures !Overtaken(history + [e], |history|, window)
  {}

  lemma RememberedNext(history: seq<Admission>, e: Admission, window: real, replays: map<Digest, Replay>, d: Digest)
    requires HoldsKept(replays, history, window) && d in replays && replays[d].received > e.received - window
    ensures Remembered(history + [e], window, d)
  {
    var i :| 0 <= i < |history| && !Overtaken(history, i, window) && history[i].digest == d;
    assert Indexed(replays, history[i]);
    OvertakenNext(history, e, window, i);
    assert (history + [e])[i] == history[i];
  }

  /** Purging and inserting keeps exactly the admissions that are not overtaken. */
  lemma AdmissionHoldsKept(replays: map<Digest, Replay>, history: seq<Admission>, window: real, rid: Id, e: Admission)
    requires HoldsKept(replays, history, window) && e.digest !in Purge(replays, e.received - window)
    ensures HoldsKept(Purge(replays, e.received - window)[e.digest := Replay(rid, e.received)], history + [e], window)
  {
    var purged := Purge(replays, e.received - window);
    var after, longer := purged[e.digest := Replay(rid, e.received)], history + [e];
    forall i | 0 <= i < |longer| && !Overtaken(longer, i, window) ensures Indexed(after, longer[i]) {
      if i < |history| {
        OvertakenNext(history, e, window, i);
        assert longer[i] == history[i] && Indexed(replays, history[i]);
      }
    }
    forall d | d in after ensures Remembered(longer, window, d) {
      if d == e.digest {
        LastIsNotOvertaken(history, e, window);
        assert longer[|history|] == e;
      } else {
        RememberedNext(history, e, window, replays, d);
      }
    }
  }

  lemma AdmitHoldsKept(c: Config, db: Db, history: seq<Admission>, a: IngestArgs, now: real, created: real, ns: int)
    requires c.retention.Some? && HoldsKept(db.replays, history, c.retention.value)
    requires IngestTx(c, db, a, now, created, ns).Ok?
    ensures HoldsKept(IngestTx(c, db, a, now, created, ns).value.replays, history + [Admission(a.documentHash, now)],
              c.retention.value)
  {
    AdmissionHoldsKept(db.replays, history, c.retention.value, a.rid, Admission(a.documentHash, now));
  }

  ghost predicate RunHolds(c: Config, ops: seq<Op>)
    requires c.retention.Some?
  {
    HoldsKept(Run(c, EMPTY, ops).replays, History(c, ops), c.retention.value)
  }

  lemma OneMoreHolds(c: Config, ops: seq<Op>)
    requires c.retention.Some? && ops != [] && RunHolds(c, ops[..|ops| - 1])
    ensures RunHolds(c, ops)
  {
    var k := |ops| - 1;
    var op, db, before := ops[k], Run(c, EMPTY, ops[..k]), History(c, ops[..k]);
    if op.OpIngest? && IngestTx(c, db, op.a, op.now, op.created, op.ns).Ok? {
      AdmitHoldsKept(c, db, before, op.a, op.now, op.created, op.ns);
    } else {
      OthersLeaveIndex(c, db, op);
      assert before + [] == before;
    }
  }

  lemma {:induction false} RunHoldsKept(c: Config, ops: seq<Op>)
    requires c.retention.Some?
    ensures RunHolds(c, ops)
  {
    if ops != [] {
      RunHoldsKept(c, ops[..|ops| - 1]);
      OneMoreHolds(c, ops);
    }
  }

  /** Only successful admissions touch the replay index. */
  lemma OthersLeaveIndex(c: Config, db: Db, op: Op)
    requires op.OpIngest? ==> IngestTx(c, db, op.a, op.now, op.created, op.ns).Err?
    ensures Apply(c, db, op).replays == db.replays
  {
    match op
    case OpRecover(at, order, stamps) =>
      if Selects(db, at, order) { RecoverLeavesIndex(c, db, order, stamps); }
    case _ =>
  }

  lemma {:induction false} RecoverLeavesIndex(c: Config, db: Db, order: seq<Id>, ns: nat -> int)
    requires forall rid | rid in order :: rid in db.submissions
    ensures RecoverRows(c, db, order, ns).replays == db.replays
  {
    if order != [] { RecoverLeavesIndex(c, db, order[..|order| - 1], ns); }
  }

  /** A digest is found after the purge exactly when an admission of it inside the window was not overtaken. */
  lemma FoundMeansRemembered(replays: map<Digest, Replay>, history: seq<Admission>, window: real, digest: Digest,
                             now: real)
    requires HoldsKept(replays, history, window)
    ensures digest in Purge(replays, now - window) <==> RememberedWithin(history, digest, window, now)
  {
    if digest in Purge(replays, now - window) {
      var i :| 0 <= i < |history| && !Overtaken(history, i, window) && history[i].digest == digest;
      assert Indexed(replays, history[i]) && Within(history[i], digest, window, now);
    }
    if RememberedWithin(history, digest, window, now) {
      var i :| 0 <= i < |history| && !Overtaken(history, i, window) && Within(history[i], digest, window, now);
      assert Indexed(replays, history[i]);
    }
  }

  /** Whatever the clock does, a new id is refused exactly for a digest that is still remembered inside the window. */
  lemma IndexDecides(c: Config, ops: seq<Op>, a: IngestArgs, now: real, created: real, ns: int)
    requires c.retention.Some? && a.rid !in Run(c, EMPTY, ops).submissions
    ensures var r := IngestTx(c, Run(c, EMPTY, ops), a, now, created, ns);
            && (r.Ok? <==> !RememberedWithin(History(c, ops), a.documentHash, c.retention.value, now))
            && (r.Err? ==> r.error == ContentReplay)
  {
    RunHoldsKept(c, ops);
    FoundMeansRemembered(Run(c, EMPTY, ops).replays, History(c, ops), c.retention.value, a.documentHash, now);
  }

  // ---------------------------------------------------------------- against the full history

  /** Each digest that was seen inside the window has an admission there that was not overtaken. */
  ghost predicate NoneForgotten(history: seq<Admission>, window: real, now: real) {
    forall i | 0 <= i < |history| && history[i].received > now - window ::
      RememberedWithin(history, history[i].digest, window, now)
  }

  ghost predicate DecidesLikeHistory(c: Config, ops: seq<Op>, a: IngestArgs, now: real, created: real, ns: int)
    requires c.retention.Some?
  {
    IngestTx(c, Run(c, EMPTY, ops), a, now, created, ns).Ok? <==>
        !SeenWithin(History(c, ops), a.documentHash, c.retention.value, now)
  }

  lemma RememberedIsSeen(history: seq<Admission>, digest: Digest, window: real, now: real)
    requires RememberedWithin(history, digest, window, now)
    ensures SeenWithin(history, digest, window, now)
  {}

  /**
   The exact condition, for any clock: at `now` the index decides every admission of a new id
   like the full history exactly when each digest seen inside the window has an admission there
   that no later admission has overtaken.
   */
  lemma IndexIsExactUnlessForgotten(c: Config, ops: seq<Op>, rid: Id, now: real, created: real, ns: int)
    requires c.retention.Some? && rid !in Run(c, EMPTY, ops).submissions
    ensures NoneForgotten(History(c, ops), c.retention.value, now) <==>
            forall a: IngestArgs | a.rid == rid :: DecidesLikeHistory(c, ops, a, now, created, ns)
  {
    var history, window := History(c, ops), c.retention.value;
    forall a: IngestArgs | a.rid == rid
      ensures DecidesLikeHistory(c, ops, a, now, created, ns) <==>
              (SeenWithin(history, a.documentHash, window, now) ==>
                  RememberedWithin(history, a.documentHash, window, now))
    {
      IndexDecides(c, ops, a, now, created, ns);
      if RememberedWithin(history, a.documentHash, window, now) {
        RememberedIsSeen(history, a.documentHash, window, now);
      }
    }
    if forall a: IngestArgs | a.rid == rid :: DecidesLikeHistory(c, ops, a, now, created, ns) {
      forall i | 0 <= i < |history| && history[i].received > now - window
        ensures RememberedWithin(history, history[i].digest, window, now)
      {
        assert Within(history[i], history[i].digest, window, now);
        assert DecidesLikeHistory(c, ops, IngestArgs(rid, "", history[i].digest, "", "", "", ""), now, created, ns);
      }
    }
    if NoneForgotten(history, window, now) {
      forall a: IngestArgs | a.rid == rid ensures DecidesLikeHistory(c, ops, a, now, created, ns) {
        if SeenWithin(history, a.documentHash, window, now) {
          var i :| 0 <= i < |history| && Within(history[i], a.documentHash, window, now);
        }
      }
    }
  }

  /** No earlier admission carries a clock reading ahead of `now`. */
  ghost predicate NotBehind(history: seq<Admission>, now: real) {
    forall i | 0 <= i < |history| :: history[i].received <= now
  }

  lemma NotBehindForgetsNothing(history: seq<Admission>, window: real, now: real)
    requires NotBehind(history, now)
    ensures NoneForgotten(history, window, now)
  {
    forall i | 0 <= i < |history| && history[i].received > now - window
      ensures RememberedWithin(history, history[i].digest, window, now)
    {
      assert !Overtaken(history, i, window) && Within(history[i], history[i].digest, window, now);
    }
  }

  /**
   A caller whose clock is not behind any earlier admission gets the decision of the full
   history, even if the clock went back between those admissions.
   */
  lemma IndexDecidesLikeHistory(c: Config, ops: seq<Op>, a: IngestArgs, now: real, created: real, ns: int)
    requires c.retention.Some? && NotBehind(History(c, ops), now)
    requires a.rid !in Run(c, EMPTY, ops).submissions
    ensures var r := IngestTx(c, Run(c, EMPTY, ops), a, now, created, ns);
            && (r.Ok? <==> !SeenWithin(History(c, ops), a.documentHash, c.retention.value, now))
            && (r.Err? ==> r.error == ContentReplay)
  {
    NotBehindForgetsNothing(History(c, ops), c.retention.value, now);
    IndexIsExactUnlessForgotten(c, ops, a.rid, now, created, ns);
    IndexDecides(c, ops, a, now, created, ns);
    assert DecidesLikeHistory(c, ops, a, now, created, ns);
  }

  /** A clock that went back: the purge at 20 forgot the admission at 10, so 12 admits it again. */
  lemma ClockGoingBackBreaksIndex(c: Config, first: IngestArgs, second: IngestArgs, again: IngestArgs)
    requires c.retention == Some(5.0)
    requires first.rid != second.rid && first.rid != again.rid && second.rid != again.rid
    requires first.documentHash == again.documentHash != second.documentHash
    ensures var ops := [OpIngest(first, 10.0, 10.0, 10), OpIngest(second, 20.0, 20.0, 20)];
            && IngestTx(c, Run(c, EMPTY, ops), again, 12.0, 12.0, 12).Ok?
            && SeenWithin(History(c, ops), again.documentHash, 5.0, 12.0)
  {
    var one := [OpIngest(first, 10.0, 10.0, 10)];
    var ops := one + [OpIngest(second, 20.0, 20.0, 20)];
    assert ops == [OpIngest(first, 10.0, 10.0, 10), OpIngest(second, 20.0, 20.0, 20)];
    assert one[..0] == [] && ops[..1] == one;
    assert Run(c, EMPTY, []) == EMPTY;
    assert Run(c, EMPTY, one) == Apply(c, EMPTY, one[0]);
    assert Run(c, EMPTY, ops) == Apply(c, Run(c, EMPTY, one), ops[1]);
    assert History(c, one) == [Admission(first.documentHash, 10.0)];
    assert History(c, ops)[0] == Admission(first.documentHash, 10.0);
  }
}
