/** What the hash chain over the event texts detects, and what it does not cover. */
module AuditChain {
  import opened StoreModel
  import EventLog

  function Rehash(c: Config, e: EventRow): Digest {
    c.hash(e.prevHash, e.body)
  }

  predicate Apart(c: Config, e: EventRow, f: EventRow) {
    Rehash(c, e) == Rehash(c, f) ==> e.prevHash == f.prevHash && e.body == f.body
  }

  /** No two different messages hashed in the two tables share a digest, and none has the genesis value. */
  ghost predicate CollisionFree(c: Config, left: seq<EventRow>, right: seq<EventRow>) {
    && (forall i, j | 0 <= i < |left| && 0 <= j < |right| :: Apart(c, left[i], right[j]))
    && (forall i | 0 <= i < |left| :: Rehash(c, left[i]) != GENESIS)
    && (forall j | 0 <= j < |right| :: Rehash(c, right[j]) != GENESIS)
  }

  /** The first `n` texts of one table are the first `m` of the other. */
  ghost predicate SameTexts(left: seq<EventRow>, n: nat, right: seq<EventRow>, m: nat)
    requires n <= |left| && m <= |right|
  {
    n == m && forall i | 0 <= i < n :: left[i].body == right[i].body
  }

  lemma LastOfPrefix(c: Config, events: seq<EventRow>, n: nat)
    requires EventLog.Chained(c, events) && 0 < n <= |events|
    ensures LastHash(events[..n]) == Rehash(c, events[n - 1])
    ensures events[n - 1].prevHash == LastHash(events[..n - 1])
  {
    assert EventLog.Linked(c, events, n - 1);
    assert events[..n][n - 1] == events[n - 1];
  }

  /** Both tables verify and nothing in them collides. */
  ghost predicate Comparable(c: Config, left: seq<EventRow>, right: seq<EventRow>) {
    EventLog.Chained(c, left) && EventLog.Chained(c, right) && CollisionFree(c, left, right)
  }

  ghost predicate SameEnd(left: seq<EventRow>, n: nat, right: seq<EventRow>, m: nat) {
    n <= |left| && m <= |right| && LastHash(left[..n]) == LastHash(right[..m])
  }

  lemma EmptyIsAlone(c: Config, left: seq<EventRow>, n: nat, right: seq<EventRow>, m: nat)
    requires Comparable(c, left, right) && SameEnd(left, n, right, m)
    ensures n == 0 <==> m == 0
  {
    if n != 0 { LastOfPrefix(c, left, n); }
    if m != 0 { LastOfPrefix(c, right, m); }
  }

  lemma StepBack(c: Config, left: seq<EventRow>, n: nat, right: seq<EventRow>, m: nat)
    requires Comparable(c, left, right) && SameEnd(left, n, right, m) && 0 < n && 0 < m
    ensures SameEnd(left, n - 1, right, m - 1) && left[n - 1].body == right[m - 1].body
  {
    LastOfPrefix(c, left, n);
    LastOfPrefix(c, right, m);
    assert Apart(c, left[n - 1], right[m - 1]);
  }

  lemma {:induction false} SameEndSameTexts(c: Config, left: seq<EventRow>, n: nat, right: seq<EventRow>, m: nat)
    requires Comparable(c, left, right) && SameEnd(left, n, right, m)
    ensures SameTexts(left, n, right, m)
  {
    EmptyIsAlone(c, left, n, right, m);
    if n != 0 {
      StepBack(c, left, n, right, m);
      SameEndSameTexts(c, left, n - 1, right, m - 1);
    }
  }

  /** Two tables that verify and end in the same hash hold the same texts in the same order. */
  lemma SameLastHashSameLog(c: Config, left: seq<EventRow>, n: nat, right: seq<EventRow>, m: nat)
    requires EventLog.Chained(c, left) && EventLog.Chained(c, right) && CollisionFree(c, left, right)
    requires n <= |left| && m <= |right|
    requires LastHash(left[..n]) == LastHash(right[..m])
    ensures SameTexts(left, n, right, m)
  {
    SameEndSameTexts(c, left, n, right, m);
  }

  /**
   With an externally known hash of the first `n` events, a table that was edited, cut short
   or reordered anywhere before that point no longer both verifies and shows that hash.
   */
  lemma TamperingIsDetected(c: Config, ops: seq<Op>, n: nat, shown: seq<EventRow>, m: nat)
    requires n <= |Run(c, EMPTY, ops).events| && m <= |shown|
    requires CollisionFree(c, Run(c, EMPTY, ops).events, shown)
    requires !SameTexts(Run(c, EMPTY, ops).events, n, shown, m)
    ensures !(EventLog.Chained(c, shown) && LastHash(shown[..m]) == LastHash(Run(c, EMPTY, ops).events[..n]))
  {
    var events := Run(c, EMPTY, ops).events;
    EventLog.LogRefinesTables(c, ops);
    if EventLog.Chained(c, shown) && LastHash(shown[..m]) == LastHash(events[..n]) {
      SameLastHashSameLog(c, events, n, shown, m);
    }
  }

  /**
   The `record_id` column is outside the hash: whatever it is changed to, the table verifies
   exactly when it did before, so the chain protects the event texts only.
   */
  lemma RecordColumnIsNotCovered(c: Config, events: seq<EventRow>, k: nat, other: Id)
    requires k < |events|
    ensures var edited := events[k := events[k].(recordID := other)];
            && (EventLog.Chained(c, edited) <==> EventLog.Chained(c, events))
            && LastHash(edited) == LastHash(events)
  {
    var edited := events[k := events[k].(recordID := other)];
    forall i | 0 <= i <= |events| ensures LastHash(edited[..i]) == LastHash(events[..i]) {
      SameLastHash(events, k, other, i);
    }
    assert edited[..|events|] == edited && events[..|events|] == events;
    if EventLog.Chained(c, events) { SameChain(c, events, edited); }
    if EventLog.Chained(c, edited) { SameChain(c, edited, events); }
  }

  lemma SameLastHash(events: seq<EventRow>, k: nat, other: Id, i: nat)
    requires k < |events| && i <= |events|
    ensures LastHash(events[k := events[k].(recordID := other)][..i]) == LastHash(events[..i])
  {}

  lemma SameChain(c: Config, events: seq<EventRow>, edited: seq<EventRow>)
    requires EventLog.Chained(c, events) && |edited| == |events|
    requires forall i | 0 <= i <= |events| :: LastHash(edited[..i]) == LastHash(events[..i])
    requires forall i | 0 <= i < |events| ::
      edited[i].prevHash == events[i].prevHash && edited[i].eventHash == events[i].eventHash
          && edited[i].body == events[i].body
    ensures EventLog.Chained(c, edited)
  {
    forall i | 0 <= i < |edited| ensures EventLog.Linked(c, edited, i) { assert EventLog.Linked(c, events, i); }
  }
}
