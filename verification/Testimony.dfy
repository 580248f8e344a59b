/**
 What it takes for a payload to go to the ledger, said without the verifying functions: which key has
 signed which bytes, in force when, and which digests have to agree.
 */
module Testimony {
  import opened Prelude
  import opened Bytes
  import opened Evidence
  import opened Hardened

  // ---------------------------------------------------------------- keys and documents

  /** The registry's key of this role is not revoked and in force, and what it signed is issued and not expired. */
  ghost predicate KeyStands(registry: map<string, Key>, id: string, role: string, publicKey: seq<byte>, issuedAt: int,
                            expiresAt: int, now: int) {
    exists notBefore, notAfter ::
      && id in registry && registry[id] == Key(role, false, notBefore, notAfter, publicKey)
      && notBefore <= now && now < notAfter && notBefore <= issuedAt && issuedAt <= now + 30
      && issuedAt < expiresAt && now < expiresAt && expiresAt <= notAfter
  }

  /** The envelope is the canonical text of this content under this domain, signed by such a key. */
  ghost predicate Signed(env: Env, registry: map<string, Key>, e: Envelope, domain: string, role: string, now: int,
                         content: Content) {
    exists keyID, publicKey, issuedAt, expiresAt ::
      && e.payload == env.canonical(OfBody(Body(domain, keyID, issuedAt, expiresAt, content)))
      && |e.payload| <= 2097152
      && KeyStands(registry, keyID, role, publicKey, issuedAt, expiresAt, now)
      && env.verify(publicKey, e.signature, e.payload)
  }

  lemma KeyMeans(registry: map<string, Key>, id: string, role: string, issuedAt: int, expiresAt: int, now: int)
    requires id in registry
    ensures var key := registry[id];
            KeyStands(registry, id, role, key.publicKey, issuedAt, expiresAt, now) <==>
            && KeyActive(key, role, issuedAt, now)
            && issuedAt < expiresAt <= key.notAfter && now < expiresAt
  {
    var key := registry[id];
    if KeyActive(key, role, issuedAt, now) {
      assert registry[id] == Key(role, false, key.notBefore, key.notAfter, key.publicKey);
    }
  }

  /** A document verifies exactly if it is signed in this sense. */
  lemma DocumentMeans(env: Env, registry: map<string, Key>, e: Envelope, domain: string, role: string, now: int,
                      content: Content)
    requires Lawful(env)
    ensures VerifyDocument(env, registry, e, domain, role, now) == Ok(content) <==>
            Signed(env, registry, e, domain, role, now, content)
  {
    if VerifyDocument(env, registry, e, domain, role, now) == Ok(content) {
      var body := env.parse(e.payload).value.body;
      KeyMeans(registry, body.keyID, role, body.issuedAt, body.expiresAt, now);
      assert body == Body(domain, body.keyID, body.issuedAt, body.expiresAt, content);
    }
    if Signed(env, registry, e, domain, role, now, content) {
      var keyID, publicKey, issuedAt, expiresAt :|
        && e.payload == env.canonical(OfBody(Body(domain, keyID, issuedAt, expiresAt, content)))
        && |e.payload| <= 2097152
        && KeyStands(registry, keyID, role, publicKey, issuedAt, expiresAt, now)
        && env.verify(publicKey, e.signature, e.payload);
      KeyMeans(registry, keyID, role, issuedAt, expiresAt, now);
    }
  }

  // ---------------------------------------------------------------- receipts

  lemma BigEndianOf64(n: int)
    requires 0 <= n < 0x1_0000_0000_0000_0000
    ensures BigEndian(Be64(n)) == n
  {
    var hi, lo := n / 0x1_0000_0000, n % 0x1_0000_0000;
    BigEndianOf32(hi);
    BigEndianOf32(lo);
    BigEndianOfBoth(Be32(hi), Be16(lo / 0x1_0000));
    BigEndianOfBoth(Be32(hi) + Be16(lo / 0x1_0000), Be16(lo % 0x1_0000));
    BigEndianOf16(lo / 0x1_0000);
    BigEndianOf16(lo % 0x1_0000);
    assert Be64(n) == Be32(hi) + Be16(lo / 0x1_0000) + Be16(lo % 0x1_0000);
  }

  /** Ciphertext, inventory, artifact, identity and snapshot digest, then the time as an unsigned 64-bit number. */
  ghost predicate RootCovers(env: Env, r: Receipt) {
    && |r.ciphertextHash| == |r.sbomHash| == |r.artifactHash| == |r.identityHash| == |r.snapshotHash| == 32
    && exists stamp: seq<byte> ::
         && |stamp| == 8 && BigEndian(stamp) == r.issuedAt && r.issuedAt < 0x8000_0000_0000_0000
         && r.evidenceRoot == env.sha(
              r.ciphertextHash + r.sbomHash + r.artifactHash + r.identityHash + r.snapshotHash + stamp)
  }

  lemma SixInARow(a: seq<byte>, b: seq<byte>, c: seq<byte>, d: seq<byte>, e: seq<byte>, f: seq<byte>)
    ensures a + (b + (c + (d + (e + f)))) == a + b + c + d + e + f
  {}

  lemma RootMeans(env: Env, r: Receipt)
    ensures EvidenceRoot(env, r, r.issuedAt) == Ok(r.evidenceRoot) <==> RootCovers(env, r)
  {
    if RootTime(r.issuedAt) {
      var stamp := Be64(r.issuedAt);
      BigEndianOf64(r.issuedAt);
      SixInARow(r.ciphertextHash, r.sbomHash, r.artifactHash, r.identityHash, r.snapshotHash, stamp);
      forall other: seq<byte> | |other| == 8 && BigEndian(other) == r.issuedAt ensures other == stamp {
        SameBigEndian(other, stamp);
      }
    }
  }

  predicate IsName(s: string) {
    0 < |s| < 129 && forall k | 0 <= k < |s| ::
      || ('0' <= s[k] && s[k] <= '9') || ('a' <= s[k] && s[k] <= 'z') || ('A' <= s[k] && s[k] <= 'Z')
      || s[k] == '-' || s[k] == '_'
  }

  /** The payload is this receipt in canonical form, for its own id, with a digest and a root that are right. */
  ghost predicate Carries(env: Env, p: Payload, r: Receipt) {
    && p.receipt == env.canonical(OfReceipt(r)) && p.receiptHash == env.sha(p.receipt)
    && r.recordID == r.nonce == p.recordID && IsName(r.recordID) && IsName(r.vendorID)
    && r.version == "vendorchain.receipt.v2" && r.algorithm == "sha256"
    && (r.decision == "PASS" || r.decision == "FAIL")
    && |r.policyHash| == 32 && |r.documentHash| == 32 && RootCovers(env, r)
  }

  /** A decision key in force has signed the receipt and the digest of the snapshot. */
  ghost predicate Countersigned(env: Env, registry: map<string, Key>, p: Payload, r: Receipt, now: int) {
    exists publicKey ::
      && KeyStands(registry, r.keyID, "decision", publicKey, r.issuedAt, r.expiresAt, now)
      && r.expiresAt - r.issuedAt <= 3600
      && env.verify(publicKey, p.signature, p.receipt) && env.verify(publicKey, p.snapshotSignature, r.snapshotHash)
  }

  lemma CarriesMeans(env: Env, p: Payload, r: Receipt)
    requires Lawful(env)
    ensures Carries(env, p, r) <==>
            env.parse(p.receipt) == Some(OfReceipt(r)) && env.canonical(OfReceipt(r)) == p.receipt
            && ReceiptContext(env, p, r)
  {
    RootMeans(env, r);
  }

  /** A payload verifies as this receipt exactly if it carries it and is countersigned. */
  lemma ReceiptMeans(env: Env, registry: map<string, Key>, p: Payload, now: int, r: Receipt)
    requires Lawful(env)
    ensures VerifyReceipt(env, registry, p, now) == Ok(r) <==>
            Carries(env, p, r) && Countersigned(env, registry, p, r, now)
  {
    CarriesMeans(env, p, r);
    if r.keyID in registry { KeyMeans(registry, r.keyID, "decision", r.issuedAt, r.expiresAt, now); }
  }

  // ---------------------------------------------------------------- the policy

  /** The policy file is this policy, signed and in force, and its source is the one it hashes. */
  ghost predicate Governs(env: Env, s: Site, policy: Policy) {
    && Signed(env, s.registry, s.policyFile, "vendorchain.policy.v1", "policy", s.now, OfPolicy(policy))
    && env.sha(policy.source) == policy.policyHash && policy.query == "data.vendorchain.authorization.allow"
  }

  lemma PolicyMeans(env: Env, s: Site, policy: Policy)
    requires Lawful(env)
    ensures LoadedAt(env, s).Ok? && LoadedAt(env, s).value.policy == policy <==> Governs(env, s, policy)
    ensures LoadedAt(env, s).Ok? ==>
              LoadedAt(env, s).value.bundleHash == env.sha(env.canonical(OfEnvelope(s.policyFile)))
  {
    DocumentMeans(env, s.registry, s.policyFile, "vendorchain.policy.v1", "policy", s.now, OfPolicy(policy));
  }

  /** A policy in force that pins this worker's provenance key, identity key and controls. */
  ghost predicate Approves(env: Env, s: Site, c: Config) {
    exists policy :: Governs(env, s, policy) && Pins(policy, s, c)
  }

  predicate Pins(policy: Policy, s: Site, c: Config) {
    && policy.provenanceTrust == c.trust && policy.controls == c.controls
    && c.identityKeyID in s.registry && policy.identityTrust == s.registry[c.identityKeyID]
  }

  lemma ApprovalMeans(env: Env, s: Site, c: Config)
    requires Lawful(env)
    ensures PolicyApproves(env, s, c) <==> Approves(env, s, c)
  {
    if LoadedAt(env, s).Ok? { PolicyMeans(env, s, LoadedAt(env, s).value.policy); }
    forall policy | Governs(env, s, policy) ensures LoadedAt(env, s).Ok? && LoadedAt(env, s).value.policy == policy {
      PolicyMeans(env, s, policy);
    }
  }

  /** Facts the engine may be asked about. */
  predicate Askable(f: Facts) {
    && f.componentCount == |f.components| && f.parameters.maxComponents > 0 && f.schema == "cyclonedx"
    && (f.identityState == "verified" || f.identityState == "failed" || f.identityState == "flagged")
  }

  /** The engine, asked again under the policy the receipt hashes, decides as the receipt says. */
  ghost predicate Decides(env: Env, s: Site, f: Facts, c: Config, r: Receipt, snapshotPolicy: Digest) {
    exists policy ::
      && Governs(env, s, policy) && Pins(policy, s, c) && Askable(f)
      && s.opaVersion == policy.opaVersion && f.parameters == policy.parameters
      && env.sha(env.canonical(OfEnvelope(s.policyFile))) == r.policyHash == snapshotPolicy
      && (r.decision == "PASS" || r.decision == "FAIL") && env.opa(policy.source, f) == Some(r.decision == "PASS")
  }

  lemma DecisionMeans(env: Env, s: Site, snapshot: Snapshot, c: Config, r: Receipt)
    requires Lawful(env)
    ensures DecisionHolds(env, s, snapshot, c, r) <==> Decides(env, s, snapshot.input, c, r, snapshot.policyHash)
  {
    assert "PASS"[0] != "FAIL"[0];
    if LoadedAt(env, s).Ok? { PolicyMeans(env, s, LoadedAt(env, s).value.policy); }
    forall policy | Governs(env, s, policy) ensures LoadedAt(env, s).Ok? && LoadedAt(env, s).value.policy == policy {
      PolicyMeans(env, s, policy);
    }
  }

  // ---------------------------------------------------------------- delivery

  /** The attestation is signed, hashed by the receipt, and about this submission. */
  ghost predicate IsAttested(env: Env, s: Site, identity: Envelope, rid: string, r: Receipt) {
    exists id ::
      && Signed(env, s.registry, identity, "vendorchain.identity.v1", "identity", s.now, OfIdentity(id))
      && env.sha(env.canonical(OfEnvelope(identity))) == r.identityHash
      && id.submissionID == rid && id.vendorID == r.vendorID && id.documentHash == r.documentHash
  }

  lemma IdentityMeans(env: Env, s: Site, identity: Envelope, rid: string, r: Receipt)
    requires Lawful(env)
    ensures IdentityHolds(env, s, identity, rid, r) <==> IsAttested(env, s, identity, rid, r)
  {
    var domain := "vendorchain.identity.v1";
    forall id
      ensures VerifyDocument(env, s.registry, identity, domain, "identity", s.now) == Ok(OfIdentity(id)) <==>
              Signed(env, s.registry, identity, domain, "identity", s.now, OfIdentity(id))
    {
      DocumentMeans(env, s.registry, identity, "vendorchain.identity.v1", "identity", s.now, OfIdentity(id));
    }
  }

  /** The inventory's bytes are the hashed ones and carry a signature of the pinned key, in its interval. */
  predicate Provenanced(env: Env, s: Site, c: Config, r: Receipt) {
    && s.sbom.Some? && env.sha(s.sbom.value) == r.sbomHash
    && env.sha(s.publicFile) == c.trust.publicHash && env.cosign(s.publicFile, s.sbomSignature, s.sbom.value)
    && c.trust.notBefore <= s.now && s.now < c.trust.notAfter
  }

  /** The stored row, ciphertext and inventory are those of the receipt. */
  predicate Bound(env: Env, at: Phase -> Site, r: Receipt) {
    && env.sha(at(BlobRead).blob) == at(RowRead).row.cipherHash && env.sha(at(BlobRead).blob) == r.ciphertextHash
    && at(RowRead).row.documentHash == r.documentHash && at(RowRead).row.vendorID == r.vendorID
    && at(SbomRead).sbom.Some? && env.sha(at(SbomRead).sbom.value) == r.sbomHash
    && env.sha(env.canonical(OfEnvelope(at(PolicyRead).policyFile))) == r.policyHash
  }

  /** The retained evidence: snapshot and sealed document as hashed, and as the row still has them. */
  predicate Retains(env: Env, e: Retained, row: Row, r: Receipt) {
    && env.sha(env.canonical(OfSnapshot(e.snapshot))) == r.snapshotHash && e.snapshot.identityHash == r.identityHash
    && e.sealed == row.sealed && e.context == row.context
    && env.sha(env.canonical(OfBinding(e.sealed, e.context))) == e.snapshot.envelopeHash
  }

  ghost predicate Rechecked(env: Env, at: Phase -> Site, c: Config, rid: string, r: Receipt) {
    && at(EvidenceRead).evidence.Some?
    && var e := at(EvidenceRead).evidence.value;
       && Approves(env, at(ConfigurationRead), c)
       && IsAttested(env, at(IdentityCheck), e.identity, rid, r)
       && Retains(env, e, at(BindingRead).row, r)
       && Decides(env, at(DecisionMade), e.snapshot.input, c, r, e.snapshot.policyHash)
       && Provenanced(env, at(InventoryCheck), c, r)
       && TreeHash(env, at(TreeRead).tree) == Ok(r.artifactHash)
  }

  lemma RecheckMeans(env: Env, at: Phase -> Site, c: Config, rid: string, r: Receipt)
    requires Lawful(env)
    ensures PendingHolds(env, at, c, rid, r) <==> Rechecked(env, at, c, rid, r)
  {
    ApprovalMeans(env, at(ConfigurationRead), c);
    if at(EvidenceRead).evidence.Some? {
      var e := at(EvidenceRead).evidence.value;
      IdentityMeans(env, at(IdentityCheck), e.identity, rid, r);
      DecisionMeans(env, at(DecisionMade), e.snapshot, c, r);
    }
  }

  lemma BindingMeans(env: Env, at: Phase -> Site, r: Receipt)
    requires Lawful(env)
    ensures BindingHolds(env, at, r) <==> Bound(env, at, r) && exists policy :: Governs(env, at(PolicyRead), policy)
  {
    var s := at(PolicyRead);
    if LoadedAt(env, s).Ok? { PolicyMeans(env, s, LoadedAt(env, s).value.policy); }
    forall policy | Governs(env, s, policy) ensures LoadedAt(env, s).Ok? { PolicyMeans(env, s, policy); }
  }

  /** All that a payload rests on when it goes to the ledger, each part at the moment of its own read. */
  ghost predicate RestsOn(env: Env, at: Phase -> Site, c: Config, rid: string, p: Payload, r: Receipt) {
    && Carries(env, p, r) && Countersigned(env, at(ReceiptCheck).registry, p, r, at(ReceiptCheck).now)
    && Bound(env, at, r) && (exists policy :: Governs(env, at(PolicyRead), policy))
    && Rechecked(env, at, c, rid, r)
  }

  /**
   A payload may go to the ledger exactly if a decision key in force has signed its receipt, an identity
   key its attestation, a policy key the policy, and the pinned key its inventory, each at the moment it
   is looked at; the engine decides again as the receipt says; and every digest agrees with what is read.
   */
  lemma CommitRestsOn(env: Env, at: Phase -> Site, c: Config, rid: string, p: Payload)
    requires Lawful(env)
    ensures MayCommit(env, at, c, rid, p) <==> exists r :: RestsOn(env, at, c, rid, p, r)
  {
    var s := at(ReceiptCheck);
    forall r
      ensures RestsOn(env, at, c, rid, p, r) <==>
              && VerifyReceipt(env, s.registry, p, s.now) == Ok(r)
              && BindingHolds(env, at, r) && PendingHolds(env, at, c, rid, r)
    {
      ReceiptMeans(env, s.registry, p, s.now, r);
      BindingMeans(env, at, r);
      RecheckMeans(env, at, c, rid, r);
    }
  }
}
