/** The contract's code over a transaction stub that records what it reads and writes. */
module Contract {
  import opened Prelude
  import opened Chaincode

  /** Reads see the committed state only, never the transaction's own writes. */
  class Stub {
    const state: State
    const ctx: Ctx
    var readSet: set<Key>
    var writes: Writes

    constructor (state: State, ctx: Ctx)
      ensures this.state == state && this.ctx == ctx && readSet == {} && writes == map[]
    {
      this.state, this.ctx := state, ctx;
      readSet, writes := {}, map[];
    }

    method GetState(k: Key) returns (v: Option<Value>)
      modifies this`readSet
      ensures readSet == old(readSet) + {k}
      ensures v == if k in state then Some(state[k]) else None
    {
      readSet := readSet + {k};
      v := if k in state then Some(state[k]) else None;
    }

    method PutState(k: Key, v: Value)
      modifies this`writes
      ensures writes == old(writes)[k := v]
    {
      writes := writes[k := v];
    }

    ghost predicate Untouched()
      reads this
    {
      readSet == {} && writes == map[]
    }

    /** The recorded sets and the returned error are those of the simulation. */
    ghost predicate Recorded(sim: Sim, r: Result<(), Failure>)
      reads this
    {
      && readSet == sim.readSet
      && match sim.result
         case Ok(w) => r == Ok(()) && writes == w
         case Err(e) => r == Err(e) && writes == map[]
    }
  }

  class SmartContract {
    const crypto: Crypto

    constructor (crypto: Crypto)
      ensures this.crypto == crypto
    {
      this.crypto := crypto;
    }

    method PutNew(stub: Stub, k: Key, v: Value) returns (r: Result<(), Failure>)
      requires stub.writes == map[]
      modifies stub
      ensures stub.Recorded(Chaincode.PutNew(stub.state, old(stub.readSet), k, v), r)
    {
      var existing := stub.GetState(k);
      if existing.Some? { return Err(Exists); }
      stub.PutState(k, v);
      r := Ok(());
    }

    method EnableEvidenceOnly(stub: Stub) returns (r: Result<(), Failure>)
      requires stub.Untouched()
      modifies stub
      ensures stub.Recorded(Simulate(crypto, Call(OpEnableEvidenceOnly, stub.ctx), stub.state), r)
    {
      if !Authorized(stub.ctx, true) { return Err(Unauthorized); }
      stub.PutState(ConfigKey, Enabled);
      r := Ok(());
    }

    method RegisterVendor(stub: Stub, vendorID: string, name: string, company: string, certified: bool)
      returns (r: Result<(), Failure>)
      requires stub.Untouched()
      modifies stub
      ensures stub.Recorded(Simulate(crypto, Call(OpRegisterVendor(vendorID, name, company, certified), stub.ctx),
                stub.state), r)
    {
      if !Authorized(stub.ctx, false) { return Err(Unauthorized); }
      if certified { return Err(Invalid); }
      if |name| == 0 || |name| > 256 || |company| == 0 || |company| > 256 { return Err(Invalid); }
      if !IsId(vendorID) || stub.ctx.timestamp.None? { return Err(Invalid); }
      r := PutNew(stub, VendorKeyOf(vendorID), Vendor(vendorID, name, company, stub.ctx.timestamp.value));
    }

    method RegisterWorkerKey(stub: Stub, keyID: string, publicKey: string, notBefore: int, notAfter: int)
      returns (r: Result<(), Failure>)
      requires stub.Untouched()
      modifies stub
      ensures stub.Recorded(Simulate(crypto,
                Call(OpRegisterWorkerKey(keyID, publicKey, notBefore, notAfter), stub.ctx), stub.state), r)
    {
      if !Authorized(stub.ctx, true) { return Err(Unauthorized); }
      var pub := crypto.base64(publicKey);
      if pub.None? || |pub.value| != PUBLIC_KEY_SIZE { return Err(Invalid); }
      if notBefore < 0 || notAfter <= notBefore { return Err(Invalid); }
      if !IsId(keyID) { return Err(Invalid); }
      r := PutNew(stub, WorkerKeyOf(keyID), WorkerKey(keyID, publicKey, notBefore, notAfter, false));
    }

    method RevokeWorkerKey(stub: Stub, keyID: string) returns (r: Result<(), Failure>)
      requires stub.Untouched()
      modifies stub
      ensures stub.Recorded(Simulate(crypto, Call(OpRevokeWorkerKey(keyID), stub.ctx), stub.state), r)
    {
      if !Authorized(stub.ctx, true) { return Err(Unauthorized); }
      if !IsId(keyID) { return Err(Invalid); }
      r := SetRevoked(stub, WorkerKeyOf(keyID));
    }

    /** Reads the stored key or policy, sets its flag and writes it back. */
    method SetRevoked(stub: Stub, k: Key) returns (r: Result<(), Failure>)
      requires stub.Untouched() && Authorized(stub.ctx, true)
      modifies stub
      ensures stub.Recorded(Revoke(stub.ctx, stub.state, true, k), r)
    {
      var stored := stub.GetState(k);
      if stored.None? { return Err(Missing); }
      if !Revocable(stored.value) { return Err(Invalid); }
      stub.PutState(k, Revoked(stored.value));
      r := Ok(());
    }

    method RegisterEvidenceKey(stub: Stub, keyID: string, publicKey: string, notBefore: int, notAfter: int,
                               role: string) returns (r: Result<(), Failure>)
      requires stub.Untouched()
      modifies stub
      ensures stub.Recorded(Simulate(crypto,
                Call(OpRegisterEvidenceKey(keyID, publicKey, notBefore, notAfter, role), stub.ctx), stub.state), r)
    {
      if !Authorized(stub.ctx, true) { return Err(Unauthorized); }
      var pub := crypto.base64(publicKey);
      if pub.None? || |pub.value| != PUBLIC_KEY_SIZE || notBefore < 0 || notAfter <= notBefore { return Err(Invalid); }
      if role != "identity" && role != "decision" && role != "policy" { return Err(Invalid); }
      if !IsId(keyID) { return Err(Invalid); }
      r := PutNew(stub, EvidenceKeyOf(keyID), EvidenceKey(keyID, publicKey, notBefore, notAfter, false, role));
    }

    method RevokeEvidenceKey(stub: Stub, keyID: string) returns (r: Result<(), Failure>)
      requires stub.Untouched()
      modifies stub
      ensures stub.Recorded(Simulate(crypto, Call(OpRevokeEvidenceKey(keyID), stub.ctx), stub.state), r)
    {
      if !Authorized(stub.ctx, true) { return Err(Unauthorized); }
      if !IsId(keyID) { return Err(Invalid); }
      r := SetRevoked(stub, EvidenceKeyOf(keyID));
    }

    method RegisterPolicyDigest(stub: Stub, digest: string, notBefore: int, notAfter: int)
      returns (r: Result<(), Failure>)
      requires stub.Untouched()
      modifies stub
      ensures stub.Recorded(Simulate(crypto, Call(OpRegisterPolicyDigest(digest, notBefore, notAfter), stub.ctx),
                stub.state), r)
    {
      if !Authorized(stub.ctx, true) { return Err(Unauthorized); }
      if !IsHash(digest) || notBefore < 0 || notAfter <= notBefore { return Err(Invalid); }
      r := PutNew(stub, PolicyKeyOf(digest), PolicyDigest(digest, notBefore, notAfter, false));
    }

    method RevokePolicyDigest(stub: Stub, digest: string) returns (r: Result<(), Failure>)
      requires stub.Untouched()
      modifies stub
      ensures stub.Recorded(Simulate(crypto, Call(OpRevokePolicyDigest(digest), stub.ctx), stub.state), r)
    {
      if !Authorized(stub.ctx, true) { return Err(Unauthorized); }
      if !IsHash(digest) { return Err(Invalid); }
      r := SetRevoked(stub, PolicyKeyOf(digest));
    }

    method RecordHardened(stub: Stub, recordID: string, receipt: string, signature: string)
      returns (r: Result<(), Failure>)
      requires stub.Untouched()
      modifies stub
      ensures stub.Recorded(Simulate(crypto, Call(OpRecordHardened(recordID, receipt, signature), stub.ctx),
                stub.state), r)
    {
      if !Authorized(stub.ctx, false) { return Err(Unauthorized); }
      var mode := stub.GetState(ConfigKey);
      if mode == Some(Enabled) { return Err(Disabled); }
      if |receipt| > 16384 || |signature| > 128 { return Err(Invalid); }
      var raw := crypto.base64(receipt);
      if raw.None? { return Err(Invalid); }
      var parsed := crypto.parseV1(raw.value);
      if parsed.None? { return Err(Invalid); }
      var rc := parsed.value;
      var shaped := CheckShapeV1(rc, recordID);
      if !shaped { return Err(Invalid); }
      var stored := stub.GetState(WorkerKeyOf(rc.keyID));
      if stored.None? { return Err(Missing); }
      if !stored.value.WorkerKey? || stub.ctx.timestamp.None? { return Err(Invalid); }
      var active := CheckActiveV1(stored.value, rc, stub.ctx.timestamp.value.0);
      if !active { return Err(Inactive); }
      if !SignedBy(crypto, stored.value.publicKey, raw.value, signature) { return Err(BadSignature); }
      r := PutNew(stub, RecordKeyOf(recordID),
                  ComplianceRecord(recordID, rc.vendorID, crypto.sha(raw.value), receipt, signature,
                                   stub.ctx.txId, stub.ctx.timestamp.value));
    }

    method CheckShapeV1(rc: ReceiptV1, recordID: string) returns (ok: bool)
      ensures ok <==> ShapeV1(rc, recordID)
    {
      if rc.version != "vendorchain.receipt.v1" || rc.recordID != recordID || rc.nonce != recordID { return false; }
      if rc.decision != "PASS" && rc.decision != "FAIL" { return false; }
      if !IsHash(rc.documentHash) || !IsHash(rc.ciphertextHash) || !IsHash(rc.sbomHash) || !IsHash(rc.policyHash) {
        return false;
      }
      ok := IsId(rc.vendorID) && IsId(recordID) && IsId(rc.keyID);
    }

    method CheckActiveV1(wk: Value, rc: ReceiptV1, t: int) returns (ok: bool)
      requires wk.WorkerKey?
      ensures ok <==> ActiveV1(wk, rc, t)
    {
      if wk.revoked || t < wk.notBefore || t >= wk.notAfter || rc.issuedAt < wk.notBefore || rc.expiresAt > wk.notAfter
         || rc.issuedAt > t + 30 || rc.expiresAt <= t || rc.expiresAt <= rc.issuedAt
             || rc.expiresAt - rc.issuedAt > 3600 {
        return false;
      }
      ok := true;
    }

    method RecordEvidence(stub: Stub, recordID: string, encoded: string, signature: string, snapshotSignature: string)
      returns (r: Result<(), Failure>)
      requires stub.Untouched()
      modifies stub
      ensures stub.Recorded(Simulate(crypto,
                Call(OpRecordEvidence(recordID, encoded, signature, snapshotSignature), stub.ctx), stub.state), r)
    {
      if !Authorized(stub.ctx, false) { return Err(Unauthorized); }
      if |encoded| > 16384 || |signature| > 128 || |snapshotSignature| > 128 { return Err(Invalid); }
      var raw := crypto.base64(encoded);
      if raw.None? { return Err(Invalid); }
      var parsed := crypto.parseV2(raw.value);
      if parsed.None? { return Err(Invalid); }
      var rc := parsed.value;
      var shaped := CheckShape(rc, recordID);
      if !shaped { return Err(Invalid); }
      r := RecordParsed(stub, recordID, raw.value, rc, signature, snapshotSignature);
    }

    /** The checks that need no ledger state, in order, each with its own refusal. */
    method CheckShape(rc: ReceiptV2, recordID: string) returns (ok: bool)
      ensures ok <==> ShapeV2(crypto, rc, recordID)
    {
      if rc.version != "vendorchain.receipt.v2" || rc.recordID != recordID || rc.nonce != recordID
         || !IsId(rc.vendorID) || rc.algorithm != "sha256" { return false; }
      if rc.decision != "PASS" && rc.decision != "FAIL" { return false; }
      var hashes := [rc.documentHash, rc.ciphertextHash, rc.sbomHash, rc.artifactHash,
                     rc.identityHash, rc.snapshotHash, rc.policyHash, rc.evidenceRoot];
      for n := 0 to |hashes|
        invariant forall m | 0 <= m < n :: IsHash(hashes[m])
      {
        if !IsHash(hashes[n]) { return false; }
      }
      assert IsHash(hashes[0]) && IsHash(hashes[1]) && IsHash(hashes[2]) && IsHash(hashes[3]);
      assert IsHash(hashes[4]) && IsHash(hashes[5]) && IsHash(hashes[6]) && IsHash(hashes[7]);
      if rc.issuedAt < 0 || crypto.root(rc) != rc.evidenceRoot { return false; }
      ok := IsId(rc.keyID);
    }

    method RecordParsed(stub: Stub, recordID: string, raw: Bytes, rc: ReceiptV2, signature: string,
                        snapshotSignature: string)
      returns (r: Result<(), Failure>)
      requires stub.Untouched()
      modifies stub
      ensures stub.Recorded(Chaincode.RecordParsed(crypto, stub.ctx, stub.state, recordID, raw, rc, signature,
                snapshotSignature), r)
    {
      var stored := stub.GetState(EvidenceKeyOf(rc.keyID));
      if stored.None? { return Err(Missing); }
      if !stored.value.EvidenceKey? || stub.ctx.timestamp.None? { return Err(Invalid); }
      var worker, t := stored.value, stub.ctx.timestamp.value.0;
      if worker.role != "decision" || worker.revoked || t < worker.notBefore || t >= worker.notAfter
         || rc.issuedAt < worker.notBefore || rc.issuedAt > t + 30 || rc.expiresAt <= t
             || rc.expiresAt > worker.notAfter
         || rc.expiresAt <= rc.issuedAt || rc.expiresAt - rc.issuedAt > 3600 {
        return Err(Inactive);
      }
      var found := stub.GetState(PolicyKeyOf(rc.policyHash));
      if found.None? { return Err(Missing); }
      if !found.value.PolicyDigest? { return Err(Invalid); }
      var policy := found.value;
      if policy.revoked || t < policy.notBefore || t >= policy.notAfter || rc.issuedAt < policy.notBefore {
        return Err(Inactive);
      }
      if !SignedBy(crypto, worker.publicKey, raw, signature) { return Err(BadSignature); }
      if !SignedBy(crypto, worker.publicKey, crypto.unhex(rc.snapshotHash), snapshotSignature) {
        return Err(BadSignature);
      }
      if !IsId(recordID) { return Err(Invalid); }
      r := PutNew(stub, RecordKeyOf(recordID),
                  EvidenceRecord(rc.recordID, rc.vendorID, rc.evidenceRoot, rc.snapshotHash, rc.policyHash, rc.decision,
                                 crypto.sha(crypto.base64(snapshotSignature).value), rc.keyID, rc.algorithm,
                                     rc.issuedAt,
                                 crypto.sha(raw), stub.ctx.txId));
    }
  }
}
