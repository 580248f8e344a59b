/**
 The bridge's commit protocol: read first, submit, wait for the commit status, read back.
 Between any two calls the rest of the network takes any number of steps.
 */
module Gateway {
  import opened Prelude
  import opened Chaincode
  import opened Mvcc

  datatype Payload = Payload(recordID: string, receipt: string, receiptHash: string, signature: string,
                             snapshotSignature: string)

  datatype Ack = Ack(tx: string, hash: string, recovered: bool)

  datatype Refusal = Mismatch | Unsupported | QueryFailed | Conflicting | NotFound | SubmitFailed | NotCommitted

  /** The client's own decoding of a receipt, which is more lenient than the contract's. */
  datatype Client = Client(decode: string -> Bytes, version: Bytes -> string)

  datatype Query = Found(hash: string, tx: string) | Absent | Failed

  function QueryCompliance(s: State, rid: string): Query {
    if !IsId(rid) then Failed
    else if RecordKeyOf(rid) !in s then Absent
    else match s[RecordKeyOf(rid)]
         case ComplianceRecord(_, _, hash, _, _, tx, _) => Found(hash, tx)
         // A v2 record decodes as a v1 one with the fields that have the same names.
         case EvidenceRecord(_, _, _, _, _, _, _, _, _, _, hash, tx) => Found(hash, tx)
         case _ => Failed
  }

  function QueryEvidence(s: State, rid: string): Query {
    if !IsId(rid) then Failed
    else if RecordKeyOf(rid) !in s then Absent
    else match s[RecordKeyOf(rid)]
         case EvidenceRecord(_, _, root, _, _, _, _, _, _, _, hash, tx) => if root == "" then
             Failed else Found(hash, tx)
         case _ => Failed
  }

  /** The state holds a record of `rid` with this receipt hash and transaction id. */
  predicate HoldsRecord(s: State, rid: string, hash: string, tx: string) {
    QueryCompliance(s, rid) == Found(hash, tx)
  }

  /** A record of this id is there, of either kind, and it carries this receipt hash and transaction id. */
  lemma HoldsMeans(s: State, rid: string, hash: string, tx: string)
    ensures HoldsRecord(s, rid, hash, tx) <==>
            && IsId(rid) && RecordKeyOf(rid) in s
            && (s[RecordKeyOf(rid)].ComplianceRecord? || s[RecordKeyOf(rid)].EvidenceRecord?)
            && s[RecordKeyOf(rid)].receiptHash == hash && s[RecordKeyOf(rid)].transactionID == tx
  {}

  /** Every earlier committed state has evolved into the current one. */
  ghost predicate Monotone(n: Net)
    requires n.states != []
  {
    forall i | 0 <= i < |n.states| :: Evolves(Values(n.states[i]), Values(Current(n)))
  }

  lemma NextMonotone(c: Crypto, n: Net, a: Action)
    requires Mvcc.Inv(c, n) && Monotone(n)
    ensures Mvcc.Inv(c, Next(c, n, a)) && Monotone(Next(c, n, a))
    ensures |n.states| <= |Next(c, n, a).states|
    ensures Evolves(Values(Current(n)), Values(Current(Next(c, n, a))))
  {
    match a {
      case AEndorse(peer, call) => EndorseKeeps(c, n, peer, call);
      case ACommit(index) => CommitKeeps(c, n, index);
    }
    NextEvolves(c, n, a);
    var after := Next(c, n, a);
    forall i | 0 <= i < |after.states| ensures Evolves(Values(after.states[i]), Values(Current(after))) {
      if i < |n.states| { EvolvesTrans(Values(n.states[i]), Values(Current(n)), Values(Current(after))); }
    }
  }

  lemma {:induction false} RunMonotone(c: Crypto, n: Net, acts: seq<Action>)
    requires Mvcc.Inv(c, n) && Monotone(n)
    ensures Mvcc.Inv(c, Exec(c, n, acts)) && Monotone(Exec(c, n, acts))
    ensures Evolves(Values(Current(n)), Values(Current(Exec(c, n, acts))))
  {
    if acts != [] {
      var k := |acts| - 1;
      RunMonotone(c, n, acts[..k]);
      NextMonotone(c, Exec(c, n, acts[..k]), acts[k]);
      EvolvesTrans(Values(Current(n)), Values(Current(Exec(c, n, acts[..k]))), Values(Current(Exec(c, n, acts))));
    }
  }

  lemma ReachableIsMonotone(c: Crypto, acts: seq<Action>)
    ensures Mvcc.Inv(c, Exec(c, GENESIS_NET, acts)) && Monotone(Exec(c, GENESIS_NET, acts))
  {
    RunMonotone(c, GENESIS_NET, acts);
  }

  lemma RecordStays(before: State, after: State, rid: string, hash: string, tx: string)
    requires Evolves(before, after) && HoldsRecord(before, rid, hash, tx)
    ensures HoldsRecord(after, rid, hash, tx)
  {
    assert Kept(before, after, RecordKeyOf(rid));
  }

  /** A record that is there now and a record of the same id after any further steps are the same record. */
  lemma RecordsAgree(c: Crypto, n: Net, more: seq<Action>, rid: string, hash: string, tx: string, hash': string,
                     tx': string)
    requires Mvcc.Inv(c, n) && Monotone(n)
    requires HoldsRecord(Values(Current(n)), rid, hash, tx)
    requires HoldsRecord(Values(Current(Exec(c, n, more))), rid, hash', tx')
    ensures hash == hash' && tx == tx'
  {
    RunMonotone(c, n, more);
    RecordStays(Values(Current(n)), Values(Current(Exec(c, n, more))), rid, hash, tx);
  }

  class Network {
    const crypto: Crypto
    var net: Net

    constructor (crypto: Crypto)
      ensures this.crypto == crypto && net == GENESIS_NET && Live()
    {
      this.crypto := crypto;
      net := GENESIS_NET;
      new;
      ReachableIsMonotone(crypto, []);
    }

    ghost predicate Live()
      reads this
    {
      Mvcc.Inv(crypto, net) && Monotone(net)
    }

    method Perform(a: Action)
      requires Live()
      modifies this
      ensures Live() && net == Next(crypto, old(net), a)
    {
      NextMonotone(crypto, net, a);
      net := Next(crypto, net, a);
    }

    /** What everybody else does in the meantime. */
    method Others(acts: seq<Action>)
      requires Live()
      modifies this
      ensures Live() && net == Exec(crypto, old(net), acts)
    {
      ghost var start := net;
      assert acts[..0] == [];
      for k := 0 to |acts|
        invariant Live() && net == Exec(crypto, start, acts[..k])
      {
        assert acts[..k + 1][..k] == acts[..k];
        Perform(acts[k]);
      }
      assert acts[..|acts|] == acts;
    }

    /** A query is answered by one peer, which may be behind. */
    method Evaluate(peer: nat, hardened: bool, rid: string) returns (q: Query)
      requires Live()
      ensures peer < |net.states| ==>
                q == if hardened then QueryEvidence(Values(net.states[peer]), rid)
                     else QueryCompliance(Values(net.states[peer]), rid)
      ensures q.Found? ==> HoldsRecord(Values(Current(net)), rid, q.hash, q.tx)
    {
      if peer >= |net.states| { return Failed; }
      var s := Values(net.states[peer]);
      q := if hardened then QueryEvidence(s, rid) else QueryCompliance(s, rid);
      if q.Found? {
        RecordStays(s, Values(Current(net)), rid, q.hash, q.tx);
      }
    }

    /** Endorses on one peer; the endorsed transaction then waits to be ordered. */
    method Submit(peer: nat, call: Call) returns (index: Option<nat>)
      requires Live()
      modifies this
      ensures Live() && net == Next(crypto, old(net), AEndorse(peer, call))
      ensures index.Some? ==> index.value == |old(net).pool| < |net.pool|
    {
      var waiting := |net.pool|;
      Perform(AEndorse(peer, call));
      index := if |net.pool| > waiting then Some(waiting) else None;
    }

    /** The transaction is ordered; the status says whether it passed validation. */
    method GetStatus(index: nat) returns (valid: bool)
      requires Live() && index < |net.pool|
      modifies this
      ensures Live() && net == Next(crypto, old(net), ACommit(index))
      ensures valid <==> Valid(old(net).pool[index], Current(old(net)))
    {
      var e, kv := net.pool[index], Current(net);
      var readSet := e.readSet.Keys;
      valid := true;
      while readSet != {}
        invariant readSet <= e.readSet.Keys
        invariant valid <==> forall k | k in e.readSet.Keys - readSet :: e.readSet[k] == VersionOf(kv, k)
        decreases readSet
      {
        var k :| k in readSet;
        readSet := readSet - {k};
        valid := valid && e.readSet[k] == VersionOf(kv, k);
      }
      Perform(ACommit(index));
    }
  }

  /** The choices of the environment for one call: who answers, what others do, whether ordering happens. */
  datatype Schedule = Schedule(
    reader: nat, endorser: nat, checker: nat, before: seq<Action>, between: seq<Action>, after: seq<Action>,
        ordered: bool)

  lemma {:induction false} PoolGrows(c: Crypto, n: Net, acts: seq<Action>)
    requires n.states != []
    ensures |n.pool| <= |Exec(c, n, acts).pool|
  {
    if acts != [] { PoolGrows(c, n, acts[..|acts| - 1]); }
  }

  lemma OneMore(c: Crypto, n: Net, acts: seq<Action>, a: Action)
    requires n.states != []
    ensures Exec(c, n, acts + [a]) == Next(c, Exec(c, n, acts), a)
  {
    assert (acts + [a])[..|acts|] == acts;
  }

  /** The peer that is asked first shows a record of this very receipt, of the version that is submitted. */
  predicate FindsOwn(c: Crypto, n: Net, client: Client, p: Payload, peer: nat) {
    && c.sha(client.decode(p.receipt)) == p.receiptHash && peer < |n.states| && IsId(p.recordID)
    && RecordKeyOf(p.recordID) in n.states[peer]
    && var v := n.states[peer][RecordKeyOf(p.recordID)].0;
       && (v.EvidenceRecord? || v.ComplianceRecord?) && v.receiptHash == p.receiptHash && v.transactionID != ""
       && (client.version(client.decode(p.receipt)) == "vendorchain.receipt.v1"
           || (client.version(client.decode(p.receipt)) == "vendorchain.receipt.v2"
               && v.EvidenceRecord? && v.evidenceRoot != ""))
  }

  /**
   Every acknowledgement is a record that is on the ledger at that moment with the payload's
   own hash and the acknowledged transaction id. A recovered acknowledgement, and any call
   that only queries, writes nothing; and what is already there is recovered, not submitted again.
   */
  method CommitRecord(network: Network, client: Client, p: Payload, queryOnly: bool, ctx: Ctx, s: Schedule)
    returns (r: Result<Ack, Refusal>, ghost trace: seq<Action>)
    requires network.Live()
    modifies network
    ensures network.Live() && network.net == Exec(network.crypto, old(network.net), trace)
    ensures r.Ok? ==> HoldsRecord(Values(Current(network.net)), p.recordID, r.value.hash, r.value.tx)
    ensures r.Ok? ==>
              && r.value.hash == p.receiptHash == network.crypto.sha(client.decode(p.receipt))
              && (if r.value.recovered then r.value.tx != "" else r.value.tx == ctx.txId && !queryOnly)
              && (var version := client.version(client.decode(p.receipt));
                  version == "vendorchain.receipt.v1" || version == "vendorchain.receipt.v2")
    ensures queryOnly || (r.Ok? && r.value.recovered) ==> trace == s.before || trace == []
    ensures FindsOwn(network.crypto, Exec(network.crypto, old(network.net), s.before), client, p, s.reader) ==>
              trace == s.before && r.Ok? && r.value.recovered
  {
    var hash := network.crypto.sha(client.decode(p.receipt));
    trace := [];
    if hash != p.receiptHash { return Err(Mismatch), trace; }
    var version := client.version(client.decode(p.receipt));
    if version != "vendorchain.receipt.v1" && version != "vendorchain.receipt.v2" { return Err(Unsupported), trace; }
    var hardened := version == "vendorchain.receipt.v2";
    ghost var start := network.net;
    network.Others(s.before);
    trace := s.before;
    var existing := network.Evaluate(s.reader, hardened, p.recordID);
    if existing.Failed? { return Err(QueryFailed), trace; }
    if existing.Found? {
      if existing.hash != hash || existing.tx == "" { return Err(Conflicting), trace; }
      return Ok(Ack(existing.tx, hash, true)), trace;
    }
    if queryOnly { return Err(NotFound), trace; }
    if hardened && p.snapshotSignature == "" { return Err(SubmitFailed), trace; }
    var op := if hardened then OpRecordEvidence(p.recordID, p.receipt, p.signature, p.snapshotSignature)
              else OpRecordHardened(p.recordID, p.receipt, p.signature);
    var index := network.Submit(s.endorser, Call(op, ctx));
    OneMore(network.crypto, start, trace, AEndorse(s.endorser, Call(op, ctx)));
    trace := trace + [AEndorse(s.endorser, Call(op, ctx))];
    if index.None? || !s.ordered { return Err(SubmitFailed), trace; }
    ghost var waiting := network.net;
    network.Others(s.between);
    ExecAppend(network.crypto, start, trace, s.between);
    trace := trace + s.between;
    PoolGrows(network.crypto, waiting, s.between);
    var committed := network.GetStatus(index.value);
    OneMore(network.crypto, start, trace, ACommit(index.value));
    trace := trace + [ACommit(index.value)];
    if !committed { return Err(NotCommitted), trace; }
    network.Others(s.after);
    ExecAppend(network.crypto, start, trace, s.after);
    trace := trace + s.after;
    var record := network.Evaluate(s.checker, hardened, p.recordID);
    if !record.Found? || record.hash != hash || record.tx != ctx.txId { return Err(Conflicting), trace; }
    r := Ok(Ack(ctx.txId, hash, false));
  }

  /**
   Two calls of the protocol for one id, by any clients with any payloads, with any steps of the
   network before, between and inside them: if both are acknowledged, they name the same receipt
   and the same transaction.
   */
  method CommitTwice(network: Network, client: Client, p: Payload, queryOnly: bool, ctx: Ctx, s: Schedule,
                     between: seq<Action>,
                     client': Client, p': Payload, queryOnly': bool, ctx': Ctx, s': Schedule)
    returns (first: Result<Ack, Refusal>, second: Result<Ack, Refusal>)
    requires network.Live()
    modifies network
    ensures network.Live()
    ensures first.Ok? && second.Ok? && p.recordID == p'.recordID ==>
              first.value.tx == second.value.tx && first.value.hash == second.value.hash
  {
    ghost var trace, trace';
    first, trace := CommitRecord(network, client, p, queryOnly, ctx, s);
    ghost var n := network.net;
    network.Others(between);
    second, trace' := CommitRecord(network, client', p', queryOnly', ctx', s');
    ExecAppend(network.crypto, n, between, trace');
    if first.Ok? && second.Ok? && p.recordID == p'.recordID {
      RecordsAgree(network.crypto, n, between + trace', p.recordID, first.value.hash, first.value.tx,
          second.value.hash, second.value.tx);
    }
  }
}
