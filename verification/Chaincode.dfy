/**
 The contract's functions as simulations: from the committed world state to the keys that
 were read and either an error or the values to write.
 */
module Chaincode {
  import opened Prelude

  type Bytes = seq<nat>

  datatype Key =
    | ConfigKey
    | WorkerKeyOf(id: string)
    | EvidenceKeyOf(id: string)
    | PolicyKeyOf(digest: string)
    | RecordKeyOf(id: string)
    | VendorKeyOf(id: string)

  datatype Value =
    | Enabled
    | WorkerKey(keyID: string, publicKey: string, notBefore: int, notAfter: int, revoked: bool)
    | EvidenceKey(keyID: string, publicKey: string, notBefore: int, notAfter: int, revoked: bool, role: string)
    | PolicyDigest(digest: string, notBefore: int, notAfter: int, revoked: bool)
    | ComplianceRecord(recordID: string, vendorID: string, receiptHash: string, receipt: string, signature: string,
                       transactionID: string, timestamp: (int, int))
    | EvidenceRecord(recordID: string, vendorID: string, evidenceRoot: string, snapshotHash: string, policyHash: string,
                     decision: string, signatureHash: string, keyID: string, algorithm: string, issuedAt: int,
                     receiptHash: string, transactionID: string)
    | Vendor(vendorID: string, name: string, company: string, registered: (int, int))

  datatype ReceiptV1 = ReceiptV1(
    version: string, recordID: string, vendorID: string, documentHash: string, ciphertextHash: string,
    sbomHash: string, policyHash: string, decision: string, keyID: string, issuedAt: int, expiresAt: int, nonce: string)

  datatype ReceiptV2 = ReceiptV2(
    version: string, recordID: string, vendorID: string, documentHash: string, ciphertextHash: string, sbomHash: string,
    artifactHash: string, identityHash: string, snapshotHash: string, policyHash: string, evidenceRoot: string,
    decision: string, keyID: string, issuedAt: int, expiresAt: int, nonce: string, algorithm: string)

  /** Foreign code, as deterministic functions: base64, strict JSON, SHA-256 in hex, Ed25519. */
  datatype Crypto = Crypto(
    base64: string -> Option<Bytes>, parseV1: Bytes -> Option<ReceiptV1>, parseV2: Bytes -> Option<ReceiptV2>,
    sha: Bytes -> string, root: ReceiptV2 -> string, unhex: string -> Bytes, verify: (Bytes, Bytes, Bytes) -> bool)

  /** The caller's identity, the transaction id and the proposal timestamp. */
  datatype Ctx = Ctx(
    msp: string, certificate: bool, units: seq<string>, role: Option<string>, txId: string,
        timestamp: Option<(int, int)>)

  datatype Failure = Unauthorized | Invalid | Missing | Exists | Inactive | Disabled | BadSignature

  type State = map<Key, Value>

  type Writes = map<Key, Value>

  datatype Sim = Sim(readSet: set<Key>, result: Result<Writes, Failure>)

  const PUBLIC_KEY_SIZE := 32

  predicate IsId(s: string) {
    1 <= |s| <= 128 &&
    forall i | 0 <= i < |s| ::
        'A' <= s[i] <= 'Z' || 'a' <= s[i] <= 'z' || '0' <= s[i] <= '9' || s[i] == '_' || s[i] == '-'
  }

  predicate IsHash(s: string) {
    |s| == 64 && forall i | 0 <= i < |s| :: 'a' <= s[i] <= 'f' || '0' <= s[i] <= '9'
  }

  predicate Authorized(ctx: Ctx, admin: bool) {
    && (ctx.msp == "Org1MSP" || ctx.msp == "Org2MSP") && ctx.certificate
    && ("admin" in ctx.units || (!admin && ctx.role == Some("submitter")))
  }

  function Fail(readSet: set<Key>, e: Failure): Sim {
    Sim(readSet, Err(e))
  }

  /** Reads the key and writes only where nothing is yet. */
  function PutNew(s: State, readSet: set<Key>, k: Key, v: Value): Sim {
    if k in s then Fail(readSet + {k}, Exists) else Sim(readSet + {k}, Ok(map[k := v]))
  }

  predicate GoodPublicKey(c: Crypto, publicKey: string) {
    var pub := c.base64(publicKey); pub.Some? && |pub.value| == PUBLIC_KEY_SIZE
  }

  // ---------------------------------------------------------------- administration

  function EnableEvidenceOnly(ctx: Ctx): Sim {
    if !Authorized(ctx, true) then Fail({}, Unauthorized) else Sim({}, Ok(map[ConfigKey := Enabled]))
  }

  function RegisterVendor(ctx: Ctx, s: State, vendorID: string, name: string, company: string, certified: bool): Sim {
    if !Authorized(ctx, false) then Fail({}, Unauthorized)
    else if certified || |name| == 0 || |name| > 256 || |company| == 0 || |company| > 256 then Fail({}, Invalid)
    else if !IsId(vendorID) || ctx.timestamp.None? then Fail({}, Invalid)
    else PutNew(s, {}, VendorKeyOf(vendorID), Vendor(vendorID, name, company, ctx.timestamp.value))
  }

  function RegisterWorkerKey(c: Crypto, ctx: Ctx, s: State, keyID: string, publicKey: string, notBefore: int,
                             notAfter: int): Sim {
    if !Authorized(ctx, true) then Fail({}, Unauthorized)
    else if !GoodPublicKey(c, publicKey) || notBefore < 0 || notAfter <= notBefore || !IsId(keyID) then
        Fail({}, Invalid)
    else PutNew(s, {}, WorkerKeyOf(keyID), WorkerKey(keyID, publicKey, notBefore, notAfter, false))
  }

  function RegisterEvidenceKey(
    c: Crypto, ctx: Ctx, s: State, keyID: string, publicKey: string, notBefore: int, notAfter: int, role: string): Sim
  {
    if !Authorized(ctx, true) then Fail({}, Unauthorized)
    else if !GoodPublicKey(c, publicKey) || notBefore < 0 || notAfter <= notBefore then Fail({}, Invalid)
    else if role != "identity" && role != "decision" && role != "policy" then Fail({}, Invalid)
    else if !IsId(keyID) then Fail({}, Invalid)
    else PutNew(s, {}, EvidenceKeyOf(keyID), EvidenceKey(keyID, publicKey, notBefore, notAfter, false, role))
  }

  function RegisterPolicyDigest(ctx: Ctx, s: State, digest: string, notBefore: int, notAfter: int): Sim {
    if !Authorized(ctx, true) then Fail({}, Unauthorized)
    else if !IsHash(digest) || notBefore < 0 || notAfter <= notBefore then Fail({}, Invalid)
    else PutNew(s, {}, PolicyKeyOf(digest), PolicyDigest(digest, notBefore, notAfter, false))
  }

  predicate Revocable(v: Value) {
    v.WorkerKey? || v.EvidenceKey? || v.PolicyDigest?
  }

  function Revoked(v: Value): Value
    requires Revocable(v)
  {
    match v
    case WorkerKey(id, pub, notBefore, notAfter, _) => WorkerKey(id, pub, notBefore, notAfter, true)
    case EvidenceKey(id, pub, notBefore, notAfter, _, role) => EvidenceKey(id, pub, notBefore, notAfter, true, role)
    case PolicyDigest(digest, notBefore, notAfter, _) => PolicyDigest(digest, notBefore, notAfter, true)
  }

  /** Reads the stored value, sets its flag and writes it back. */
  function Revoke(ctx: Ctx, s: State, wellFormed: bool, k: Key): Sim {
    if !Authorized(ctx, true) then Fail({}, Unauthorized)
    else if !wellFormed then Fail({}, Invalid)
    else if k !in s then Fail({k}, Missing)
    else if !Revocable(s[k]) then Fail({k}, Invalid)
    else Sim({k}, Ok(map[k := Revoked(s[k])]))
  }

  // ---------------------------------------------------------------- records

  predicate DecisionOk(d: string) {
    d == "PASS" || d == "FAIL"
  }

  predicate ShapeV1(r: ReceiptV1, recordID: string) {
    && r.version == "vendorchain.receipt.v1" && r.recordID == recordID && r.nonce == recordID
    && DecisionOk(r.decision)
    && IsHash(r.documentHash) && IsHash(r.ciphertextHash) && IsHash(r.sbomHash) && IsHash(r.policyHash)
    && IsId(r.vendorID) && IsId(recordID) && IsId(r.keyID)
  }

  predicate ActiveV1(w: Value, r: ReceiptV1, t: int)
    requires w.WorkerKey?
  {
    && !w.revoked && w.notBefore <= t < w.notAfter
    && w.notBefore <= r.issuedAt <= t + 30 && t < r.expiresAt <= w.notAfter
    && r.issuedAt < r.expiresAt <= r.issuedAt + 3600
  }

  predicate SignedBy(c: Crypto, publicKey: string, message: Bytes, signature: string) {
    var pub, sig := c.base64(publicKey), c.base64(signature);
    pub.Some? && |pub.value| == PUBLIC_KEY_SIZE && sig.Some? && c.verify(pub.value, message, sig.value)
  }

  function RecordHardened(c: Crypto, ctx: Ctx, s: State, recordID: string, receipt: string, signature: string): Sim {
    if !Authorized(ctx, false) then Fail({}, Unauthorized)
    else if ConfigKey in s && s[ConfigKey] == Enabled then Fail({ConfigKey}, Disabled)
    else if |receipt| > 16384 || |signature| > 128 || c.base64(receipt).None? then Fail({ConfigKey}, Invalid)
    else
      var raw := c.base64(receipt).value;
      if c.parseV1(raw).None? || !ShapeV1(c.parseV1(raw).value, recordID) then Fail({ConfigKey}, Invalid)
      else
        var r := c.parseV1(raw).value;
        var k := WorkerKeyOf(r.keyID);
        var readSet := {ConfigKey, k};
        if k !in s then Fail(readSet, Missing)
        else if !s[k].WorkerKey? || ctx.timestamp.None? then Fail(readSet, Invalid)
        else if !ActiveV1(s[k], r, ctx.timestamp.value.0) then Fail(readSet, Inactive)
        else if !SignedBy(c, s[k].publicKey, raw, signature) then Fail(readSet, BadSignature)
        else
          PutNew(s, readSet, RecordKeyOf(recordID),
                 ComplianceRecord(recordID, r.vendorID, c.sha(raw), receipt, signature, ctx.txId, ctx.timestamp.value))
  }

  predicate ShapeV2(c: Crypto, r: ReceiptV2, recordID: string) {
    && r.version == "vendorchain.receipt.v2" && r.recordID == recordID && r.nonce == recordID
    && IsId(r.vendorID) && r.algorithm == "sha256" && DecisionOk(r.decision)
    && IsHash(r.documentHash) && IsHash(r.ciphertextHash) && IsHash(r.sbomHash) && IsHash(r.artifactHash)
    && IsHash(r.identityHash) && IsHash(r.snapshotHash) && IsHash(r.policyHash) && IsHash(r.evidenceRoot)
    && r.issuedAt >= 0 && c.root(r) == r.evidenceRoot && IsId(r.keyID)
  }

  predicate ActiveKeyV2(w: Value, r: ReceiptV2, t: int)
    requires w.EvidenceKey?
  {
    && w.role == "decision" && !w.revoked && w.notBefore <= t < w.notAfter
    && w.notBefore <= r.issuedAt <= t + 30 && t < r.expiresAt <= w.notAfter
    && r.issuedAt < r.expiresAt <= r.issuedAt + 3600
  }

  predicate ActivePolicy(p: Value, r: ReceiptV2, t: int)
    requires p.PolicyDigest?
  {
    !p.revoked && p.notBefore <= t < p.notAfter && p.notBefore <= r.issuedAt
  }

  function RecordEvidence(
    c: Crypto, ctx: Ctx, s: State, recordID: string, encoded: string, signature: string, snapshotSignature: string): Sim
  {
    if !Authorized(ctx, false) then Fail({}, Unauthorized)
    else if |encoded| > 16384 || |signature| > 128 || |snapshotSignature| > 128 || c.base64(encoded).None? then
        Fail({}, Invalid)
    else
      var raw := c.base64(encoded).value;
      if c.parseV2(raw).None? || !ShapeV2(c, c.parseV2(raw).value, recordID) then Fail({}, Invalid)
      else RecordParsed(c, ctx, s, recordID, raw, c.parseV2(raw).value, signature, snapshotSignature)
  }

  function RecordParsed(
    c: Crypto, ctx: Ctx, s: State, recordID: string, raw: Bytes, r: ReceiptV2, signature: string,
        snapshotSignature: string): Sim
  {
    var k, p := EvidenceKeyOf(r.keyID), PolicyKeyOf(r.policyHash);
    if k !in s then Fail({k}, Missing)
    else if !s[k].EvidenceKey? || ctx.timestamp.None? then Fail({k}, Invalid)
    else if !ActiveKeyV2(s[k], r, ctx.timestamp.value.0) then Fail({k}, Inactive)
    else if p !in s then Fail({k, p}, Missing)
    else if !s[p].PolicyDigest? then Fail({k, p}, Invalid)
    else if !ActivePolicy(s[p], r, ctx.timestamp.value.0) then Fail({k, p}, Inactive)
    else if !SignedBy(c, s[k].publicKey, raw, signature) then Fail({k, p}, BadSignature)
    else if !SignedBy(c, s[k].publicKey, c.unhex(r.snapshotHash), snapshotSignature) then Fail({k, p}, BadSignature)
    else if !IsId(recordID) then Fail({k, p}, Invalid)
    else
      PutNew(s, {k, p}, RecordKeyOf(recordID),
             EvidenceRecord(r.recordID, r.vendorID, r.evidenceRoot, r.snapshotHash, r.policyHash, r.decision,
                            c.sha(c.base64(snapshotSignature).value), r.keyID, r.algorithm, r.issuedAt, c.sha(raw),
                                ctx.txId))
  }

  // ---------------------------------------------------------------- one proposal

  datatype Op =
    | OpEnableEvidenceOnly
    | OpRegisterVendor(vendorID: string, name: string, company: string, certified: bool)
    | OpRegisterWorkerKey(keyID: string, publicKey: string, notBefore: int, notAfter: int)
    | OpRevokeWorkerKey(keyID: string)
    | OpRecordHardened(recordID: string, receipt: string, signature: string)
    | OpRegisterEvidenceKey(keyID: string, publicKey: string, notBefore: int, notAfter: int, role: string)
    | OpRevokeEvidenceKey(keyID: string)
    | OpRegisterPolicyDigest(digest: string, notBefore: int, notAfter: int)
    | OpRevokePolicyDigest(digest: string)
    | OpRecordEvidence(recordID: string, receipt: string, signature: string, snapshotSignature: string)

  datatype Call = Call(op: Op, ctx: Ctx)

  function Simulate(c: Crypto, call: Call, s: State): Sim {
    match call.op
    case OpEnableEvidenceOnly => EnableEvidenceOnly(call.ctx)
    case OpRegisterVendor(id, name, company, certified) => RegisterVendor(call.ctx, s, id, name, company, certified)
    case OpRegisterWorkerKey(id, pub, from, to) => RegisterWorkerKey(c, call.ctx, s, id, pub, from, to)
    case OpRevokeWorkerKey(id) => Revoke(call.ctx, s, IsId(id), WorkerKeyOf(id))
    case OpRecordHardened(id, receipt, sig) => RecordHardened(c, call.ctx, s, id, receipt, sig)
    case OpRegisterEvidenceKey(id, pub, from, to, role) => RegisterEvidenceKey(c, call.ctx, s, id, pub, from, to, role)
    case OpRevokeEvidenceKey(id) => Revoke(call.ctx, s, IsId(id), EvidenceKeyOf(id))
    case OpRegisterPolicyDigest(d, from, to) => RegisterPolicyDigest(call.ctx, s, d, from, to)
    case OpRevokePolicyDigest(d) => Revoke(call.ctx, s, IsHash(d), PolicyKeyOf(d))
    case OpRecordEvidence(id, receipt, sig, ssig) => RecordEvidence(c, call.ctx, s, id, receipt, sig, ssig)
  }

  /** Two states show the same under the given keys. */
  ghost predicate AgreeOn(s: State, s': State, keys: set<Key>) {
    forall k | k in keys :: (k in s <==> k in s') && (k in s ==> s[k] == s'[k])
  }

  /**
   The read set is complete: on any other state that shows the same under the keys a call read,
   the call reads the same keys and ends the same way, write for write.
   */
  lemma ReadSetIsComplete(c: Crypto, call: Call, s: State, s': State)
    requires AgreeOn(s, s', Simulate(c, call, s).readSet)
    ensures Simulate(c, call, s') == Simulate(c, call, s)
  {
    var readSet := Simulate(c, call, s).readSet;
    match call.op
    case OpRecordHardened(id, receipt, sig) =>
      var k := WorkerKeyOf((if c.base64(receipt).Some? && c.parseV1(c.base64(receipt).value).Some?
                            then c.parseV1(c.base64(receipt).value).value.keyID else ""));
      assert ConfigKey in readSet ==> (ConfigKey in s <==> ConfigKey in s');
      assert k in readSet ==> (k in s <==> k in s');
    case OpRecordEvidence(id, receipt, sig, ssig) =>
      if c.base64(receipt).Some? && c.parseV2(c.base64(receipt).value).Some? {
        var r := c.parseV2(c.base64(receipt).value).value;
        var k, p := EvidenceKeyOf(r.keyID), PolicyKeyOf(r.policyHash);
        assert k in readSet ==> (k in s <==> k in s');
        assert p in readSet ==> (p in s <==> p in s');
      }
    case _ =>
  }

  /** The only three things a call ever writes over the state it was simulated on. */
  predicate LegalWrite(s: State, k: Key, v: Value) {
    || k !in s
    || (k == ConfigKey && v == Enabled)
    || (Revocable(s[k]) && v == Revoked(s[k]) && !k.RecordKeyOf? && !k.VendorKeyOf?)
  }

  lemma WritesAreLegal(c: Crypto, call: Call, s: State, k: Key)
    requires Simulate(c, call, s).result.Ok? && k in Simulate(c, call, s).result.value
    ensures LegalWrite(s, k, Simulate(c, call, s).result.value[k])
  {}
}
