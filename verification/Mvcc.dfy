/**
 Endorse, order, validate: a transaction is simulated against some committed state, waits,
 and is applied later only if the versions of everything it read are still the same.
 */
module Mvcc {
  import opened Prelude
  import opened Chaincode

  /** A stored value and the number of the transaction that wrote it. */
  type Versioned = map<Key, (Value, nat)>

  function Values(kv: Versioned): State {
    map k | k in kv :: kv[k].0
  }

  function VersionOf(kv: Versioned, k: Key): Option<nat> {
    if k in kv then Some(kv[k].1) else None
  }

  datatype Endorsed = Endorsed(call: Call, readSet: map<Key, Option<nat>>, writes: Writes)

  /** A successful simulation with the versions it saw; an error gives no endorsement. */
  function Endorse(c: Crypto, call: Call, kv: Versioned): Option<Endorsed> {
    var sim := Simulate(c, call, Values(kv));
    if sim.result.Err? then None
    else Some(Endorsed(call, map k | k in sim.readSet :: VersionOf(kv, k), sim.result.value))
  }

  predicate Valid(e: Endorsed, kv: Versioned) {
    forall k | k in e.readSet :: e.readSet[k] == VersionOf(kv, k)
  }

  function Written(kv: Versioned, writes: Writes, version: nat): Versioned {
    map k | k in kv.Keys + writes.Keys :: if k in writes then (writes[k], version) else kv[k]
  }

  /**
   Every committed state so far, the newest last; what each transaction number wrote; and the
   endorsed transactions, which may be ordered at any time, in any order, even repeatedly.
   */
  datatype Net = Net(states: seq<Versioned>, log: seq<Writes>, pool: seq<Endorsed>)

  const GENESIS_NET := Net([map[]], [], [])

  function Current(n: Net): Versioned
    requires n.states != []
  {
    n.states[|n.states| - 1]
  }

  /** Endorsement may happen on a peer that is behind by any number of blocks. */
  datatype Action =
    | AEndorse(peer: nat, call: Call)
    | ACommit(index: nat)

  function Next(c: Crypto, n: Net, a: Action): (r: Net)
    requires n.states != []
    ensures r.states != []
  {
    match a
    case AEndorse(peer, call) =>
      if peer >= |n.states| || Endorse(c, call, n.states[peer]).None? then n
      else n.(pool := n.pool + [Endorse(c, call, n.states[peer]).value])
    case ACommit(index) =>
      if index >= |n.pool| then n
      else
        var e, kv := n.pool[index], Current(n);
        var writes := if Valid(e, kv) then e.writes else map[];
        Net(n.states + [Written(kv, writes, |n.log|)], n.log + [writes], n.pool)
  }

  function Exec(c: Crypto, n: Net, acts: seq<Action>): (r: Net)
    requires n.states != []
    ensures r.states != []
  {
    if acts == [] then n else Next(c, Exec(c, n, acts[..|acts| - 1]), acts[|acts| - 1])
  }

  lemma {:induction false} ExecAppend(c: Crypto, n: Net, first: seq<Action>, second: seq<Action>)
    requires n.states != []
    ensures Exec(c, n, first + second) == Exec(c, Exec(c, n, first), second)
  {
    if second == [] {
      assert first + second == first;
    } else {
      var k := |second| - 1;
      assert (first + second)[..|first + second| - 1] == first + second[..k];
      ExecAppend(c, n, first, second[..k]);
    }
  }

  // ---------------------------------------------------------------- the invariant

  /** A stored version names the transaction that wrote exactly this value. */
  ghost predicate Logged(n: Net, kv: Versioned) {
    forall k | k in kv :: kv[k].1 < |n.log| && k in n.log[kv[k].1] && n.log[kv[k].1][k] == kv[k].0
  }

  ghost predicate Endorsable(c: Crypto, n: Net, e: Endorsed) {
    exists i | 0 <= i < |n.states| :: Endorse(c, e.call, n.states[i]) == Some(e)
  }

  ghost predicate Inv(c: Crypto, n: Net) {
    && n.states != []
    && (forall i | 0 <= i < |n.states| :: Logged(n, n.states[i]))
    && (forall j | 0 <= j < |n.pool| :: Endorsable(c, n, n.pool[j]))
  }

  lemma EndorseKeeps(c: Crypto, n: Net, peer: nat, call: Call)
    requires Inv(c, n)
    ensures Inv(c, Next(c, n, AEndorse(peer, call)))
  {
    var after := Next(c, n, AEndorse(peer, call));
    forall i | 0 <= i < |after.states| ensures Logged(after, after.states[i]) { assert Logged(n, n.states[i]); }
    forall j | 0 <= j < |after.pool| ensures Endorsable(c, after, after.pool[j]) {
      if j < |n.pool| {
        assert Endorsable(c, n, n.pool[j]);
        var i :| 0 <= i < |n.states| && Endorse(c, n.pool[j].call, n.states[i]) == Some(n.pool[j]);
        assert Endorse(c, after.pool[j].call, after.states[i]) == Some(after.pool[j]);
      } else {
        assert Endorse(c, call, after.states[peer]) == Some(after.pool[j]);
      }
    }
  }

  lemma CommitKeeps(c: Crypto, n: Net, index: nat)
    requires Inv(c, n)
    ensures Inv(c, Next(c, n, ACommit(index)))
  {
    var after := Next(c, n, ACommit(index));
    forall i | 0 <= i < |after.states| ensures Logged(after, after.states[i]) {
      if i < |n.states| { assert Logged(n, n.states[i]); } else { assert Logged(n, Current(n)); }
    }
    forall j | 0 <= j < |after.pool| ensures Endorsable(c, after, after.pool[j]) {
      assert Endorsable(c, n, n.pool[j]);
      var i :| 0 <= i < |n.states| && Endorse(c, n.pool[j].call, n.states[i]) == Some(n.pool[j]);
      assert Endorse(c, after.pool[j].call, after.states[i]) == Some(after.pool[j]);
    }
  }

  lemma {:induction false} RunKeeps(c: Crypto, n: Net, acts: seq<Action>)
    requires Inv(c, n)
    ensures Inv(c, Exec(c, n, acts))
  {
    if acts != [] {
      var k := |acts| - 1;
      RunKeeps(c, n, acts[..k]);
      match acts[k]
      case AEndorse(peer, call) => EndorseKeeps(c, Exec(c, n, acts[..k]), peer, call);
      case ACommit(index) => CommitKeeps(c, Exec(c, n, acts[..k]), index);
    }
  }

  lemma AlwaysInv(c: Crypto, acts: seq<Action>)
    ensures Inv(c, Exec(c, GENESIS_NET, acts))
  {
    RunKeeps(c, GENESIS_NET, acts);
  }

  // ---------------------------------------------------------------- serializability

  /** Equal versions in two committed states mean equal values. */
  lemma SameVersionsSameValues(c: Crypto, n: Net, i: nat, call: Call)
    requires Inv(c, n) && i < |n.states| && Endorse(c, call, n.states[i]).Some?
    requires Valid(Endorse(c, call, n.states[i]).value, Current(n))
    ensures AgreeOn(Values(n.states[i]), Values(Current(n)), Simulate(c, call, Values(n.states[i])).readSet)
  {
    var e := Endorse(c, call, n.states[i]).value;
    assert Logged(n, n.states[i]) && Logged(n, Current(n));
    forall k | k in Simulate(c, call, Values(n.states[i])).readSet
      ensures k in Values(n.states[i]) <==> k in Values(Current(n))
      ensures k in Values(n.states[i]) ==> Values(n.states[i])[k] == Values(Current(n))[k]
    {
      assert k in e.readSet && e.readSet[k] == VersionOf(Current(n), k);
    }
  }

  /**
   Whatever passes validation writes exactly what the same call would write if it were
   simulated afresh on the state it is committed to, however old its endorsement is.
   */
  lemma ValidatedIsSerial(c: Crypto, n: Net, index: nat)
    requires Inv(c, n) && index < |n.pool| && Valid(n.pool[index], Current(n))
    ensures Simulate(c, n.pool[index].call, Values(Current(n))).result == Ok(n.pool[index].writes)
  {
    var e := n.pool[index];
    assert Endorsable(c, n, e);
    var i :| 0 <= i < |n.states| && Endorse(c, e.call, n.states[i]) == Some(e);
    SameVersionsSameValues(c, n, i, e.call);
    ReadSetIsComplete(c, e.call, Values(n.states[i]), Values(Current(n)));
  }

  lemma WrittenValues(kv: Versioned, writes: Writes, version: nat)
    ensures Values(Written(kv, writes, version)) == Values(kv) + writes
  {}

  /** A call that would fail now cannot be committed now. */
  lemma FailingCannotCommit(c: Crypto, n: Net, index: nat)
    requires Inv(c, n) && index < |n.pool|
    requires Simulate(c, n.pool[index].call, Values(Current(n))).result.Err?
    ensures !Valid(n.pool[index], Current(n))
    ensures Values(Current(Next(c, n, ACommit(index)))) == Values(Current(n))
  {
    if Valid(n.pool[index], Current(n)) { ValidatedIsSerial(c, n, index); }
    WrittenValues(Current(n), map[], |n.log|);
  }

  /** Serializability over whole runs: every applied transaction equals its serial execution. */
  lemma CommitsAreSerial(c: Crypto, acts: seq<Action>, index: nat)
    requires index < |Exec(c, GENESIS_NET, acts).pool|
    ensures var n := Exec(c, GENESIS_NET, acts);
            var e := n.pool[index];
            var serial := Simulate(c, e.call, Values(Current(n)));
            Values(Current(Next(c, n, ACommit(index)))) ==
              if Valid(e, Current(n)) && serial.result.Ok? then
                  Values(Current(n)) + serial.result.value else Values(Current(n))
  {
    AlwaysInv(c, acts);
    var n := Exec(c, GENESIS_NET, acts);
    var e := n.pool[index];
    if Valid(e, Current(n)) { ValidatedIsSerial(c, n, index); }
    WrittenValues(Current(n), if Valid(e, Current(n)) then e.writes else map[], |n.log|);
  }

  // ---------------------------------------------------------------- what commits can change

  /** Records and vendors never change; a revoked key or policy stays revoked; evidence-only stays on. */
  predicate Kept(before: State, after: State, k: Key) {
    k in before ==>
      && k in after
      && (after[k] == before[k]
          || (Revocable(before[k]) && after[k] == Revoked(before[k]) && !k.RecordKeyOf? && !k.VendorKeyOf?)
          || (k == ConfigKey && after[k] == Enabled))
  }

  ghost predicate Evolves(before: State, after: State) {
    forall k :: Kept(before, after, k)
  }

  lemma NextEvolves(c: Crypto, n: Net, a: Action)
    requires Inv(c, n)
    ensures Evolves(Values(Current(n)), Values(Current(Next(c, n, a))))
  {
    if a.ACommit? && a.index < |n.pool| && Valid(n.pool[a.index], Current(n)) {
      ValidatedIsSerial(c, n, a.index);
      var e := n.pool[a.index];
      forall k ensures Kept(Values(Current(n)), Values(Current(Next(c, n, a))), k) {
        if k in e.writes { WritesAreLegal(c, e.call, Values(Current(n)), k); }
      }
    }
  }

  lemma EvolvesTrans(a: State, b: State, d: State)
    requires Evolves(a, b) && Evolves(b, d)
    ensures Evolves(a, d)
  {
    forall k ensures Kept(a, d, k) { assert Kept(a, b, k) && Kept(b, d, k); }
  }

  lemma {:induction false} RunEvolves(c: Crypto, n: Net, acts: seq<Action>)
    requires Inv(c, n)
    ensures Inv(c, Exec(c, n, acts)) && Evolves(Values(Current(n)), Values(Current(Exec(c, n, acts))))
  {
    RunKeeps(c, n, acts);
    if acts != [] {
      var k := |acts| - 1;
      RunEvolves(c, n, acts[..k]);
      NextEvolves(c, Exec(c, n, acts[..k]), acts[k]);
      EvolvesTrans(Values(Current(n)), Values(Current(Exec(c, n, acts[..k]))), Values(Current(Exec(c, n, acts))));
    }
  }

  lemma LaterStates(c: Crypto, acts: seq<Action>, more: seq<Action>, k: Key)
    ensures Inv(c, Exec(c, GENESIS_NET, acts + more))
    ensures Kept(Values(Current(Exec(c, GENESIS_NET, acts))), Values(Current(Exec(c, GENESIS_NET, acts + more))), k)
  {
    AlwaysInv(c, acts);
    ExecAppend(c, GENESIS_NET, acts, more);
    RunEvolves(c, Exec(c, GENESIS_NET, acts), more);
  }

  /** A committed record is in every later state exactly as it was committed. */
  lemma RecordsAreWriteOnce(c: Crypto, acts: seq<Action>, more: seq<Action>, rid: string)
    requires RecordKeyOf(rid) in Current(Exec(c, GENESIS_NET, acts))
    ensures var later := Values(Current(Exec(c, GENESIS_NET, acts + more)));
            RecordKeyOf(rid) in later
                && later[RecordKeyOf(rid)] == Values(Current(Exec(c, GENESIS_NET, acts)))[RecordKeyOf(rid)]
  {
    LaterStates(c, acts, more, RecordKeyOf(rid));
  }

  // ---------------------------------------------------------------- revocation and the switch

  predicate IsRevoked(s: State, k: Key) {
    k in s && Revocable(s[k]) && s[k].revoked
  }

  /** The keys whose revocation bars a record: the signing key, and for v2 also the policy. */
  function Bars(c: Crypto, op: Op): set<Key> {
    match op
    case OpRecordHardened(_, receipt, _) =>
      var raw := c.base64(receipt);
      if raw.Some? && c.parseV1(raw.value).Some? then {WorkerKeyOf(c.parseV1(raw.value).value.keyID)} else {}
    case OpRecordEvidence(_, receipt, _, _) =>
      var raw := c.base64(receipt);
      if raw.Some? && c.parseV2(raw.value).Some? then
        var r := c.parseV2(raw.value).value; {EvidenceKeyOf(r.keyID), PolicyKeyOf(r.policyHash)}
      else {}
    case _ => {}
  }

  lemma RevokedBars(c: Crypto, call: Call, s: State, k: Key)
    requires k in Bars(c, call.op) && IsRevoked(s, k)
    ensures Simulate(c, call, s).result.Err?
  {}

  lemma EnabledBars(c: Crypto, call: Call, s: State)
    requires call.op.OpRecordHardened? && ConfigKey in s && s[ConfigKey] == Enabled
    ensures Simulate(c, call, s).result.Err?
  {}

  /**
   Once the revocation of a key or policy is committed, no record that depends on it is ever
   committed again, not even one endorsed before the revocation.
   */
  lemma NoRecordAfterRevocation(c: Crypto, acts: seq<Action>, more: seq<Action>, k: Key, index: nat)
    requires IsRevoked(Values(Current(Exec(c, GENESIS_NET, acts))), k)
    requires index < |Exec(c, GENESIS_NET, acts + more).pool|
    requires k in Bars(c, Exec(c, GENESIS_NET, acts + more).pool[index].call.op)
    ensures var n := Exec(c, GENESIS_NET, acts + more);
            !Valid(n.pool[index], Current(n)) && Values(Current(Next(c, n, ACommit(index)))) == Values(Current(n))
  {
    LaterStates(c, acts, more, k);
    var n := Exec(c, GENESIS_NET, acts + more);
    RevokedBars(c, n.pool[index].call, Values(Current(n)), k);
    FailingCannotCommit(c, n, index);
  }

  /** Once evidence-only is committed, no v1 record is ever committed again, whenever it was endorsed. */
  lemma NoV1RecordAfterEvidenceOnly(c: Crypto, acts: seq<Action>, more: seq<Action>, index: nat)
    requires var s := Values(Current(Exec(c, GENESIS_NET, acts))); ConfigKey in s && s[ConfigKey] == Enabled
    requires index < |Exec(c, GENESIS_NET, acts + more).pool|
    requires Exec(c, GENESIS_NET, acts + more).pool[index].call.op.OpRecordHardened?
    ensures var n := Exec(c, GENESIS_NET, acts + more);
            !Valid(n.pool[index], Current(n)) && Values(Current(Next(c, n, ACommit(index)))) == Values(Current(n))
  {
    LaterStates(c, acts, more, ConfigKey);
    var n := Exec(c, GENESIS_NET, acts + more);
    EnabledBars(c, n.pool[index].call, Values(Current(n)));
    FailingCannotCommit(c, n, index);
  }
}
