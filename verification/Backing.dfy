/**
 What committed state rests on, said without the contract's own functions: over any run every record
 was signed by a registered key in force under a policy in force, and every registration, revocation
 and switch was made by an administrator.
 */
module Backing {
  import opened Prelude
  import opened Chaincode
  import opened Mvcc

  // ---------------------------------------------------------------- who may

  predicate IsMember(ctx: Ctx) {
    (ctx.msp == "Org1MSP" || ctx.msp == "Org2MSP") && ctx.certificate
  }

  predicate IsAdmin(ctx: Ctx) {
    IsMember(ctx) && "admin" in ctx.units
  }

  predicate IsSubmitter(ctx: Ctx) {
    IsMember(ctx) && ("admin" in ctx.units || ctx.role == Some("submitter"))
  }

  // ---------------------------------------------------------------- what a record rests on

  /** The 32-byte key of this base64 text verifies the signature of that base64 text on the message. */
  ghost predicate Signs(c: Crypto, publicKey: string, message: Bytes, signature: string) {
    exists pub, sig ::
      && c.base64(publicKey) == Some(pub) && |pub| == 32 && c.base64(signature) == Some(sig)
      && c.verify(pub, message, sig)
  }

  /** At `t` the interval runs, and the receipt's own times lie inside and within an hour. */
  predicate InForce(notBefore: int, notAfter: int, issuedAt: int, expiresAt: int, t: int) {
    && notBefore <= t < notAfter && notBefore <= issuedAt && issuedAt <= t + 30
    && t < expiresAt && expiresAt <= notAfter && issuedAt < expiresAt && expiresAt - issuedAt <= 3600
  }

  /** In `s` a decision key under this id is in force for the receipt and has signed both messages. */
  ghost predicate KeySigns(c: Crypto, s: State, r: ReceiptV2, t: int, raw: Bytes, signature: string, second: string) {
    exists name, publicKey, notBefore, notAfter ::
      && EvidenceKeyOf(r.keyID) in s
      && s[EvidenceKeyOf(r.keyID)] == EvidenceKey(name, publicKey, notBefore, notAfter, false, "decision")
      && InForce(notBefore, notAfter, r.issuedAt, r.expiresAt, t)
      && Signs(c, publicKey, raw, signature) && Signs(c, publicKey, c.unhex(r.snapshotHash), second)
  }

  ghost predicate PolicyApplies(s: State, r: ReceiptV2, t: int) {
    exists name, notBefore, notAfter ::
      && PolicyKeyOf(r.policyHash) in s
      && s[PolicyKeyOf(r.policyHash)] == PolicyDigest(name, notBefore, notAfter, false)
      && notBefore <= t < notAfter && notBefore <= r.issuedAt
  }

  /** The record says what the receipt says. */
  ghost predicate Reports(c: Crypto, v: Value, r: ReceiptV2, raw: Bytes, second: string, tx: string) {
    && v.EvidenceRecord? && v.recordID == r.recordID && v.vendorID == r.vendorID && v.evidenceRoot == r.evidenceRoot
    && v.snapshotHash == r.snapshotHash && v.policyHash == r.policyHash && v.decision == r.decision
    && v.keyID == r.keyID && v.algorithm == r.algorithm && v.issuedAt == r.issuedAt
    && v.receiptHash == c.sha(raw) && v.transactionID == tx
    && exists sig :: c.base64(second) == Some(sig) && v.signatureHash == c.sha(sig)
  }

  /** 64 lower-case hexadecimal digits. */
  predicate IsHex(s: string) {
    |s| == 64 && forall i | 0 <= i < 64 :: ('0' <= s[i] && s[i] <= '9') || ('a' <= s[i] && s[i] <= 'f')
  }

  /** 1 to 128 letters, digits, underscores and hyphens. */
  predicate IsName(s: string) {
    0 < |s| < 129 && forall i | 0 <= i < |s| ::
      || ('0' <= s[i] && s[i] <= '9') || ('a' <= s[i] && s[i] <= 'z') || ('A' <= s[i] && s[i] <= 'Z')
      || s[i] == '-' || s[i] == '_'
  }

  predicate WellShaped(r: ReceiptV2) {
    && r.version == "vendorchain.receipt.v2" && r.algorithm == "sha256"
    && (r.decision == "PASS" || r.decision == "FAIL")
    && IsName(r.recordID) && IsName(r.vendorID) && IsName(r.keyID) && r.issuedAt >= 0
    && IsHex(r.documentHash) && IsHex(r.ciphertextHash) && IsHex(r.sbomHash) && IsHex(r.artifactHash)
    && IsHex(r.identityHash) && IsHex(r.snapshotHash) && IsHex(r.policyHash) && IsHex(r.evidenceRoot)
  }

  /** The call's receipt, for this very id, with key and policy in force at the time of the proposal. */
  ghost predicate EvidenceFor(c: Crypto, call: Call, s: State, rid: string, raw: Bytes, r: ReceiptV2, t: int)
    requires call.op.OpRecordEvidence?
  {
    && c.base64(call.op.receipt) == Some(raw) && c.parseV2(raw) == Some(r)
    && call.ctx.timestamp.Some? && t == call.ctx.timestamp.value.0
    && r.recordID == r.nonce == rid && r.evidenceRoot == c.root(r) && WellShaped(r)
    && KeySigns(c, s, r, t, raw, call.op.signature, call.op.snapshotSignature) && PolicyApplies(s, r, t)
  }

  /** A submitter's call, on a state where key and policy are in force, over a signed receipt of this very id. */
  ghost predicate BacksEvidence(c: Crypto, call: Call, s: State, rid: string, v: Value) {
    && call.op.OpRecordEvidence? && call.op.recordID == rid && IsSubmitter(call.ctx)
    && exists raw, r, t ::
         EvidenceFor(c, call, s, rid, raw, r, t) && Reports(c, v, r, raw, call.op.snapshotSignature, call.ctx.txId)
  }

  ghost predicate WorkerSigns(c: Crypto, s: State, r: ReceiptV1, t: int, raw: Bytes, signature: string) {
    exists name, publicKey, notBefore, notAfter ::
      && WorkerKeyOf(r.keyID) in s
      && s[WorkerKeyOf(r.keyID)] == WorkerKey(name, publicKey, notBefore, notAfter, false)
      && InForce(notBefore, notAfter, r.issuedAt, r.expiresAt, t)
      && Signs(c, publicKey, raw, signature)
  }

  predicate WellShapedV1(r: ReceiptV1) {
    && r.version == "vendorchain.receipt.v1" && (r.decision == "PASS" || r.decision == "FAIL")
    && IsName(r.recordID) && IsName(r.vendorID) && IsName(r.keyID)
    && IsHex(r.documentHash) && IsHex(r.ciphertextHash) && IsHex(r.sbomHash) && IsHex(r.policyHash)
  }

  /** The first version: one signature, and only while the contract is not restricted to evidence. */
  ghost predicate ComplianceFor(c: Crypto, call: Call, s: State, rid: string, raw: Bytes, r: ReceiptV1, t: int)
    requires call.op.OpRecordHardened?
  {
    && !(ConfigKey in s && s[ConfigKey] == Enabled)
    && c.base64(call.op.receipt) == Some(raw) && c.parseV1(raw) == Some(r)
    && call.ctx.timestamp.Some? && t == call.ctx.timestamp.value.0
    && r.recordID == r.nonce == rid && WellShapedV1(r) && WorkerSigns(c, s, r, t, raw, call.op.signature)
  }

  ghost predicate BacksCompliance(c: Crypto, call: Call, s: State, rid: string, v: Value) {
    && call.op.OpRecordHardened? && call.op.recordID == rid && IsSubmitter(call.ctx)
    && exists raw, r, t ::
         && ComplianceFor(c, call, s, rid, raw, r, t)
         && v == ComplianceRecord(rid, r.vendorID, c.sha(raw), call.op.receipt, call.op.signature, call.ctx.txId,
                                  call.ctx.timestamp.value)
  }

  // ---------------------------------------------------------------- what everything else rests on

  /** Base64 of 32 bytes, under an interval that is not empty. */
  ghost predicate IsKey(c: Crypto, publicKey: string, notBefore: int, notAfter: int) {
    (exists pub :: c.base64(publicKey) == Some(pub) && |pub| == 32) && 0 <= notBefore < notAfter
  }

  /** The call asks for this very value under this key, and its caller may. */
  ghost predicate Puts(c: Crypto, call: Call, s: State, k: Key, v: Value) {
    match k
    case ConfigKey => call.op.OpEnableEvidenceOnly? && IsAdmin(call.ctx) && v == Enabled
    case WorkerKeyOf(id) =>
      && call.op.OpRegisterWorkerKey? && call.op.keyID == id && IsName(id) && IsAdmin(call.ctx)
      && IsKey(c, call.op.publicKey, call.op.notBefore, call.op.notAfter)
      && v == WorkerKey(id, call.op.publicKey, call.op.notBefore, call.op.notAfter, false)
    case EvidenceKeyOf(id) =>
      && call.op.OpRegisterEvidenceKey? && call.op.keyID == id && IsName(id) && IsAdmin(call.ctx)
      && IsKey(c, call.op.publicKey, call.op.notBefore, call.op.notAfter)
      && (call.op.role == "identity" || call.op.role == "decision" || call.op.role == "policy")
      && v == EvidenceKey(id, call.op.publicKey, call.op.notBefore, call.op.notAfter, false, call.op.role)
    case PolicyKeyOf(digest) =>
      && call.op.OpRegisterPolicyDigest? && call.op.digest == digest && IsAdmin(call.ctx)
      && 0 <= call.op.notBefore < call.op.notAfter && IsHex(digest)
      && v == PolicyDigest(digest, call.op.notBefore, call.op.notAfter, false)
    case VendorKeyOf(id) =>
      && call.op.OpRegisterVendor? && call.op.vendorID == id && IsName(id) && IsSubmitter(call.ctx)
      && 0 < |call.op.name| <= 256 && 0 < |call.op.company| <= 256 && !call.op.certified && call.ctx.timestamp.Some?
      && v == Vendor(id, call.op.name, call.op.company, call.ctx.timestamp.value)
    case RecordKeyOf(rid) => BacksEvidence(c, call, s, rid, v) || BacksCompliance(c, call, s, rid, v)
  }

  /** An administrator's call to revoke what stands under this key. */
  predicate Revokes(call: Call, k: Key) {
    && IsAdmin(call.ctx)
    && match k
       case WorkerKeyOf(id) => call.op == OpRevokeWorkerKey(id)
       case EvidenceKeyOf(id) => call.op == OpRevokeEvidenceKey(id)
       case PolicyKeyOf(digest) => call.op == OpRevokePolicyDigest(digest)
       case _ => false
  }

  predicate Flag(v: Value) {
    Revocable(v) && v.revoked
  }

  /** The value as it was before any revocation. */
  function Unrevoked(v: Value): Value {
    match v
    case WorkerKey(id, pub, from, to, _) => WorkerKey(id, pub, from, to, false)
    case EvidenceKey(id, pub, from, to, _, role) => EvidenceKey(id, pub, from, to, false, role)
    case PolicyDigest(digest, from, to, _) => PolicyDigest(digest, from, to, false)
    case _ => v
  }

  // ---------------------------------------------------------------- one call

  ghost predicate Succeeds(c: Crypto, call: Call, s: State, k: Key) {
    Simulate(c, call, s).result.Ok? && k in Simulate(c, call, s).result.value
  }

  function NewValue(c: Crypto, call: Call, s: State, k: Key): Value
    requires Succeeds(c, call, s, k)
  {
    Simulate(c, call, s).result.value[k]
  }

  lemma SignedMeans(c: Crypto, publicKey: string, message: Bytes, signature: string)
    requires SignedBy(c, publicKey, message, signature)
    ensures Signs(c, publicKey, message, signature)
  {
    var pub, sig := c.base64(publicKey).value, c.base64(signature).value;
    assert c.verify(pub, message, sig);
  }

  lemma EvidenceIsBacked(c: Crypto, call: Call, s: State, k: Key)
    requires call.op.OpRecordEvidence? && Succeeds(c, call, s, k)
    ensures k == RecordKeyOf(call.op.recordID) && BacksEvidence(c, call, s, call.op.recordID, NewValue(c, call, s, k))
  {
    var raw := c.base64(call.op.receipt).value;
    var r, t := c.parseV2(raw).value, call.ctx.timestamp.value.0;
    var w, p := s[EvidenceKeyOf(r.keyID)], s[PolicyKeyOf(r.policyHash)];
    SignedMeans(c, w.publicKey, raw, call.op.signature);
    SignedMeans(c, w.publicKey, c.unhex(r.snapshotHash), call.op.snapshotSignature);
    assert w == EvidenceKey(w.keyID, w.publicKey, w.notBefore, w.notAfter, false, "decision");
    assert KeySigns(c, s, r, t, raw, call.op.signature, call.op.snapshotSignature);
    assert p == PolicyDigest(p.digest, p.notBefore, p.notAfter, false);
    assert PolicyApplies(s, r, t);
    assert EvidenceFor(c, call, s, call.op.recordID, raw, r, t);
    assert Reports(c, NewValue(c, call, s, k), r, raw, call.op.snapshotSignature, call.ctx.txId);
  }

  lemma SignedOnlyThen(c: Crypto, publicKey: string, message: Bytes, signature: string)
    requires Signs(c, publicKey, message, signature)
    ensures SignedBy(c, publicKey, message, signature)
  {}

  lemma EvidenceIsAccepted(c: Crypto, call: Call, s: State, raw: Bytes, r: ReceiptV2, t: int)
    requires call.op.OpRecordEvidence? && IsSubmitter(call.ctx) && RecordKeyOf(call.op.recordID) !in s
    requires |call.op.receipt| <= 16384 && |call.op.signature| <= 128 && |call.op.snapshotSignature| <= 128
    requires EvidenceFor(c, call, s, call.op.recordID, raw, r, t)
    ensures Simulate(c, call, s).result.Ok?
  {
    var w := s[EvidenceKeyOf(r.keyID)];
    SignedOnlyThen(c, w.publicKey, raw, call.op.signature);
    SignedOnlyThen(c, w.publicKey, c.unhex(r.snapshotHash), call.op.snapshotSignature);
  }

  /** A call is recorded exactly if it is backed, within the size limits, and the id is free. */
  lemma EvidenceIsRecordedIff(c: Crypto, call: Call, s: State)
    requires call.op.OpRecordEvidence?
    ensures Simulate(c, call, s).result.Ok? <==>
            && IsSubmitter(call.ctx) && RecordKeyOf(call.op.recordID) !in s
            && |call.op.receipt| <= 16384 && |call.op.signature| <= 128 && |call.op.snapshotSignature| <= 128
            && exists raw, r, t :: EvidenceFor(c, call, s, call.op.recordID, raw, r, t)
  {
    var k := RecordKeyOf(call.op.recordID);
    if Simulate(c, call, s).result.Ok? {
      EvidenceIsBacked(c, call, s, k);
    } else if raw, r, t :| && IsSubmitter(call.ctx) && k !in s
                           && |call.op.receipt| <= 16384 && |call.op.signature| <= 128
                           && |call.op.snapshotSignature| <= 128
                           && EvidenceFor(c, call, s, call.op.recordID, raw, r, t) {
      EvidenceIsAccepted(c, call, s, raw, r, t);
    }
  }

  lemma ComplianceIsBacked(c: Crypto, call: Call, s: State, k: Key)
    requires call.op.OpRecordHardened? && Succeeds(c, call, s, k)
    ensures k == RecordKeyOf(call.op.recordID) && BacksCompliance(c, call, s, call.op.recordID, NewValue(c, call, s, k))
  {
    var raw := c.base64(call.op.receipt).value;
    var r, t := c.parseV1(raw).value, call.ctx.timestamp.value.0;
    var w := s[WorkerKeyOf(r.keyID)];
    SignedMeans(c, w.publicKey, raw, call.op.signature);
    assert w == WorkerKey(w.keyID, w.publicKey, w.notBefore, w.notAfter, false);
    assert WorkerSigns(c, s, r, t, raw, call.op.signature);
    assert ComplianceFor(c, call, s, call.op.recordID, raw, r, t);
  }

  lemma ComplianceIsAccepted(c: Crypto, call: Call, s: State, raw: Bytes, r: ReceiptV1, t: int)
    requires call.op.OpRecordHardened? && IsSubmitter(call.ctx) && RecordKeyOf(call.op.recordID) !in s
    requires |call.op.receipt| <= 16384 && |call.op.signature| <= 128
    requires ComplianceFor(c, call, s, call.op.recordID, raw, r, t)
    ensures Simulate(c, call, s).result.Ok?
  {
    SignedOnlyThen(c, s[WorkerKeyOf(r.keyID)].publicKey, raw, call.op.signature);
  }

  lemma ComplianceIsRecordedIff(c: Crypto, call: Call, s: State)
    requires call.op.OpRecordHardened?
    ensures Simulate(c, call, s).result.Ok? <==>
            && IsSubmitter(call.ctx) && RecordKeyOf(call.op.recordID) !in s
            && |call.op.receipt| <= 16384 && |call.op.signature| <= 128
            && exists raw, r, t :: ComplianceFor(c, call, s, call.op.recordID, raw, r, t)
  {
    var k := RecordKeyOf(call.op.recordID);
    if Simulate(c, call, s).result.Ok? {
      ComplianceIsBacked(c, call, s, k);
    } else if raw, r, t :| && IsSubmitter(call.ctx) && k !in s
                           && |call.op.receipt| <= 16384 && |call.op.signature| <= 128
                           && ComplianceFor(c, call, s, call.op.recordID, raw, r, t) {
      ComplianceIsAccepted(c, call, s, raw, r, t);
    }
  }

  /** Whatever a successful call writes is what it asked for, or the revocation of what was there. */
  lemma WriteHasReason(c: Crypto, call: Call, s: State, k: Key)
    requires Succeeds(c, call, s, k)
    ensures || Puts(c, call, s, k, NewValue(c, call, s, k))
            || (Revokes(call, k) && k in s && Revocable(s[k]) && Unrevoked(NewValue(c, call, s, k)) == Unrevoked(s[k]))
    ensures Flag(NewValue(c, call, s, k)) <==> Revokes(call, k)
  {
    if call.op.OpRecordEvidence? {
      EvidenceIsBacked(c, call, s, k);
    } else if call.op.OpRecordHardened? {
      ComplianceIsBacked(c, call, s, k);
    } else {
      AdministrationHasReason(c, call, s, k);
    }
  }

  lemma AdministrationHasReason(c: Crypto, call: Call, s: State, k: Key)
    requires Succeeds(c, call, s, k) && !call.op.OpRecordEvidence? && !call.op.OpRecordHardened?
    ensures || Puts(c, call, s, k, NewValue(c, call, s, k))
            || (Revokes(call, k) && k in s && Revocable(s[k]) && Unrevoked(NewValue(c, call, s, k)) == Unrevoked(s[k]))
    ensures Flag(NewValue(c, call, s, k)) <==> Revokes(call, k)
  {}

  /** And the other way round: what may be put where nothing stands is put, and the switch at any time. */
  lemma PutSucceeds(c: Crypto, call: Call, s: State, k: Key, v: Value)
    requires Puts(c, call, s, k, v) && !k.RecordKeyOf? && (k !in s || k == ConfigKey)
    ensures Succeeds(c, call, s, k) && NewValue(c, call, s, k) == v
  {}

  predicate WellNamed(k: Key) {
    match k
    case WorkerKeyOf(id) => IsName(id)
    case EvidenceKeyOf(id) => IsName(id)
    case PolicyKeyOf(digest) => IsHex(digest)
    case _ => true
  }

  /** An administrator's revocation of what stands there succeeds, even if it has been revoked before. */
  lemma RevocationSucceeds(c: Crypto, call: Call, s: State, k: Key)
    requires Revokes(call, k) && WellNamed(k) && k in s && Revocable(s[k])
    ensures Succeeds(c, call, s, k) && Flag(NewValue(c, call, s, k))
    ensures Unrevoked(NewValue(c, call, s, k)) == Unrevoked(s[k])
  {}

  // ---------------------------------------------------------------- whole runs

  /** Action `j` commits this call on the state `s`. */
  ghost predicate CommittedAt(c: Crypto, acts: seq<Action>, j: nat, call: Call, s: State) {
    && j < |acts| && acts[j].ACommit?
    && var n := Exec(c, GENESIS_NET, acts[..j]);
       && acts[j].index < |n.pool| && Valid(n.pool[acts[j].index], Current(n))
       && call == n.pool[acts[j].index].call && s == Values(Current(n))
  }

  ghost function StateAfter(c: Crypto, acts: seq<Action>): State {
    Values(Current(Exec(c, GENESIS_NET, acts)))
  }

  ghost predicate WasPut(c: Crypto, acts: seq<Action>, k: Key, v: Value) {
    exists j: nat, call, s :: CommittedAt(c, acts, j, call, s) && Puts(c, call, s, k, v)
  }

  ghost predicate WasRevoked(c: Crypto, acts: seq<Action>, k: Key) {
    exists j: nat, call, s :: CommittedAt(c, acts, j, call, s) && Revokes(call, k)
  }

  lemma CommittedLater(c: Crypto, acts: seq<Action>, a: Action, j: nat, call: Call, s: State)
    requires j < |acts|
    ensures CommittedAt(c, acts + [a], j, call, s) <==> CommittedAt(c, acts, j, call, s)
  {
    assert (acts + [a])[..j] == acts[..j] && (acts + [a])[j] == acts[j];
  }

  lemma PutLater(c: Crypto, acts: seq<Action>, a: Action, k: Key, v: Value)
    requires WasPut(c, acts, k, v)
    ensures WasPut(c, acts + [a], k, v)
  {
    var j: nat, call, s :| CommittedAt(c, acts, j, call, s) && Puts(c, call, s, k, v);
    CommittedLater(c, acts, a, j, call, s);
  }

  /** The last action is a commit that applies, and this is what it changes. */
  ghost predicate CommitsLast(c: Crypto, acts: seq<Action>, a: Action, call: Call) {
    CommittedAt(c, acts + [a], |acts|, call, StateAfter(c, acts))
  }

  lemma StateNext(c: Crypto, acts: seq<Action>, a: Action)
    ensures forall call | CommitsLast(c, acts, a, call) ::
              && Simulate(c, call, StateAfter(c, acts)).result.Ok?
              && StateAfter(c, acts + [a]) == StateAfter(c, acts) + Simulate(c, call, StateAfter(c, acts)).result.value
    ensures (forall call :: !CommitsLast(c, acts, a, call)) ==> StateAfter(c, acts + [a]) == StateAfter(c, acts)
  {
    var n := Exec(c, GENESIS_NET, acts);
    assert (acts + [a])[..|acts|] == acts;
    if a.ACommit? && a.index < |n.pool| {
      CommitsAreSerial(c, acts, a.index);
      AlwaysInv(c, acts);
      if Valid(n.pool[a.index], Current(n)) {
        ValidatedIsSerial(c, n, a.index);
        assert CommitsLast(c, acts, a, n.pool[a.index].call);
      }
    }
  }

  ghost predicate Explained(c: Crypto, acts: seq<Action>, k: Key) {
    && (k in StateAfter(c, acts) ==> WasPut(c, acts, k, Unrevoked(StateAfter(c, acts)[k])))
    && (k in StateAfter(c, acts) && Flag(StateAfter(c, acts)[k]) <==> WasRevoked(c, acts, k))
  }

  /** One more action on which nothing depends. */
  lemma ExplainedIdle(c: Crypto, acts: seq<Action>, a: Action, k: Key)
    requires Explained(c, acts, k) && forall call :: !CommitsLast(c, acts, a, call)
    ensures Explained(c, acts + [a], k)
  {
    StateNext(c, acts, a);
    if k in StateAfter(c, acts) { PutLater(c, acts, a, k, Unrevoked(StateAfter(c, acts)[k])); }
    RevokedBefore(c, acts, a, k);
  }

  /** A revocation in the longer run is one in the shorter run or the last action. */
  lemma RevokedBefore(c: Crypto, acts: seq<Action>, a: Action, k: Key)
    ensures WasRevoked(c, acts + [a], k) <==>
            WasRevoked(c, acts, k) || exists call :: CommitsLast(c, acts, a, call) && Revokes(call, k)
  {
    assert (acts + [a])[..|acts|] == acts;
    if WasRevoked(c, acts + [a], k) {
      var j: nat, call, s :| CommittedAt(c, acts + [a], j, call, s) && Revokes(call, k);
      if j < |acts| { CommittedLater(c, acts, a, j, call, s); } else { assert CommitsLast(c, acts, a, call); }
    }
    if WasRevoked(c, acts, k) {
      var j: nat, call, s :| CommittedAt(c, acts, j, call, s) && Revokes(call, k);
      CommittedLater(c, acts, a, j, call, s);
    }
  }

  lemma OneCommit(c: Crypto, acts: seq<Action>, a: Action, one: Call, other: Call)
    requires CommitsLast(c, acts, a, one) && CommitsLast(c, acts, a, other)
    ensures one == other
  {}

  /** A call that leaves `k` alone does not revoke it. */
  lemma UnwrittenIsUnrevoked(c: Crypto, call: Call, s: State, k: Key)
    requires Simulate(c, call, s).result.Ok? && Revokes(call, k)
    ensures Succeeds(c, call, s, k)
  {}

  lemma ExplainedCommit(c: Crypto, acts: seq<Action>, a: Action, k: Key, call: Call)
    requires Explained(c, acts, k) && CommitsLast(c, acts, a, call)
    ensures Explained(c, acts + [a], k)
  {
    var before, after := StateAfter(c, acts), StateAfter(c, acts + [a]);
    StateNext(c, acts, a);
    RevokedBefore(c, acts, a, k);
    forall other | CommitsLast(c, acts, a, other) ensures other == call { OneCommit(c, acts, a, call, other); }
    if Succeeds(c, call, before, k) {
      WrittenIsExplained(c, acts, a, k, call);
    } else {
      if Revokes(call, k) { UnwrittenIsUnrevoked(c, call, before, k); }
      if k in before { PutLater(c, acts, a, k, Unrevoked(before[k])); }
    }
  }

  lemma PutIsUnrevoked(c: Crypto, call: Call, s: State, k: Key, v: Value)
    requires Puts(c, call, s, k, v)
    ensures Unrevoked(v) == v
  {}

  lemma WrittenIsExplained(c: Crypto, acts: seq<Action>, a: Action, k: Key, call: Call)
    requires Explained(c, acts, k) && CommitsLast(c, acts, a, call) && Succeeds(c, call, StateAfter(c, acts), k)
    requires StateAfter(c, acts + [a]) == StateAfter(c, acts) + Simulate(c, call, StateAfter(c, acts)).result.value
    requires WasRevoked(c, acts + [a], k) <==> WasRevoked(c, acts, k) || Revokes(call, k)
    ensures Explained(c, acts + [a], k)
  {
    var before, v := StateAfter(c, acts), NewValue(c, call, StateAfter(c, acts), k);
    WriteHasReason(c, call, before, k);
    WritesAreLegal(c, call, before, k);
    if Puts(c, call, before, k, v) {
      PutIsUnrevoked(c, call, before, k, v);
      assert WasPut(c, acts + [a], k, v);
    } else {
      PutLater(c, acts, a, k, Unrevoked(before[k]));
    }
  }

  lemma {:induction false} EverythingIsExplained(c: Crypto, acts: seq<Action>, k: Key)
    ensures Explained(c, acts, k)
    decreases |acts|
  {
    if acts == [] {
      assert StateAfter(c, acts) == map[];
    } else {
      var n := |acts| - 1;
      EverythingIsExplained(c, acts[..n], k);
      assert acts[..n] + [acts[n]] == acts;
      if call :| CommitsLast(c, acts[..n], acts[n], call) {
        ExplainedCommit(c, acts[..n], acts[n], k, call);
      } else {
        ExplainedIdle(c, acts[..n], acts[n], k);
      }
    }
  }

  /**
   Every record on the ledger, at every moment of every run: some committed call of a submitter carried
   a receipt of that id, whose signature the registered key verifies, while key and policy were in force
   at the time of the proposal; and the record says what that receipt says.
   */
  lemma EveryRecordIsBacked(c: Crypto, acts: seq<Action>, rid: string)
    requires RecordKeyOf(rid) in StateAfter(c, acts)
    ensures var v := StateAfter(c, acts)[RecordKeyOf(rid)];
            exists j: nat, call, s :: CommittedAt(c, acts, j, call, s)
              && (BacksEvidence(c, call, s, rid, v) || BacksCompliance(c, call, s, rid, v))
  {
    EverythingIsExplained(c, acts, RecordKeyOf(rid));
    var v := StateAfter(c, acts)[RecordKeyOf(rid)];
    var j: nat, call, s :| CommittedAt(c, acts, j, call, s) && Puts(c, call, s, RecordKeyOf(rid), Unrevoked(v));
    assert Unrevoked(v) == v;
  }

  /**
   Everything in the committed state was put there as it is by a committed call whose caller may: keys,
   policies and the switch by an administrator. It is marked as revoked exactly if an administrator's
   revocation of it has been committed.
   */
  lemma RegistryIsAdministered(c: Crypto, acts: seq<Action>, k: Key)
    requires k in StateAfter(c, acts)
    ensures exists j: nat, call, s ::
              CommittedAt(c, acts, j, call, s) && Puts(c, call, s, k, Unrevoked(StateAfter(c, acts)[k]))
    ensures IsRevoked(StateAfter(c, acts), k) <==>
            exists j: nat, call, s :: CommittedAt(c, acts, j, call, s) && Revokes(call, k)
  {
    EverythingIsExplained(c, acts, k);
  }
}
