/**
 Processing a claimed submission step by step, checking it again, and submitting it. Each read takes
 place at its own moment, and what is on disk or in force may change between any two.
 */
module HardenedPipeline {
  import opened Prelude
  import opened Bytes
  import opened Evidence
  import opened Hardened
  import opened Testimony

  /** What decryption, the sandboxed worker and the inventory tool deliver to processing. */
  datatype Inputs = Inputs(
    plaintext: Option<seq<byte>>, checksum: bool, ocr: bool, ocrPolicy: string, ocrScores: string,
    scanned: Option<seq<byte>>, signature: seq<byte>)

  function IdentityState(i: Inputs): string {
    if i.checksum && i.ocr then "verified" else "failed"
  }

  function IdentityOf(row: Row, c: Config, rid: string, i: Inputs, now: int): Identity {
    Identity(rid, row.vendorID, c.gstin, IdentityState(i), i.checksum, i.ocr,
             c.identityKeyID, now, row.documentHash, i.ocrPolicy, i.ocrScores)
  }

  function FactsOf(state: string, inventory: Inventory, approved: bool, parameters: Parameters): Facts {
    Facts(state, |inventory.components|, inventory.components, "cyclonedx", true, approved, false, true, false,
        parameters)
  }

  /** What a processed submission says: its identity, the inventory, and the verdict on facts made of both. */
  ghost predicate Says(env: Env, at: Stage -> Site, c: Config, rid: string, i: Inputs, r: Receipt, h: Held) {
    && i.plaintext.Some? && env.sha(i.plaintext.value) == h.row.documentHash
    && VerifyDocument(env, at(Attested).registry, h.identity, IDENTITY_DOMAIN, "identity", at(Attested).now)
       == Ok(OfIdentity(IdentityOf(h.row, c, rid, i, at(Clocked).now)))
    && i.scanned.Some? && env.inventory(h.sbom).Some? && env.inventory(h.sbom) == env.inventory(i.scanned.value)
    && h.snapshot.input.identityState == IdentityState(i)
    && h.snapshot.input.components == env.inventory(h.sbom).value.components
    && h.snapshot.verdict == r.decision && r.issuedAt == at(Clocked).now
    && TreeHash(env, at(Scanned).tree) == TreeHash(env, h.tree)
    && ProvenanceVerifies(env, at(Verified), c, env.sha(i.scanned.value))
  }

  // ---------------------------------------------------------------- what is attested, decided and issued

  /** Verified if both the checksum and the recognised text are right, failed otherwise, and nothing else. */
  predicate StateReports(state: string, i: Inputs) {
    && (state == "verified" <==> i.checksum && i.ocr)
    && (state == "failed" <==> !i.checksum || !i.ocr)
  }

  /** The attestation is about this submission and says what was found. */
  predicate IdentityReports(id: Identity, c: Config, rid: string, row: Row, i: Inputs, now: int) {
    && StateReports(id.state, i) && id.checksum == i.checksum && id.ocr == i.ocr
    && id.ocrPolicy == i.ocrPolicy && id.ocrScores == i.ocrScores
    && id.submissionID == rid && id.vendorID == row.vendorID && id.documentHash == row.documentHash
    && id.gstin == c.gstin && id.workerID == c.identityKeyID && id.timestamp == now
  }

  /** The inventory is as signed as it is said to be, under a key that was in force, and so is the artifact tree. */
  predicate ProvenanceReports(env: Env, at: Stage -> Site, c: Config, i: Inputs, f: Facts) {
    var v, a := at(Verified), at(Parameterized);
    && (f.signatureValid <==> v.sbom.Some? && env.cosign(v.publicFile, v.sbomSignature, v.sbom.value))
    && (f.certificateExpired <==> v.now >= c.trust.notAfter)
    && (f.certificateApproved <==>
          c.trust.notBefore <= a.now && a.now < c.trust.notAfter && env.sha(a.publicFile) == c.trust.publicHash)
    && (f.digestBound <==>
          && i.scanned.Some? && v.sbom.Some? && env.sha(v.sbom.value) == env.sha(i.scanned.value)
          && TreeHash(env, at(Scanned).tree).Ok?
          && TreeHash(env, at(Rescanned).tree) == TreeHash(env, at(Scanned).tree))
  }

  /** Every entry of the facts reports the check it is named after. */
  predicate FactsReport(env: Env, at: Stage -> Site, c: Config, i: Inputs, f: Facts, sbom: seq<byte>) {
    && StateReports(f.identityState, i) && ProvenanceReports(env, at, c, i, f) && !f.replayDetected
    && env.inventory(sbom).Some? && f.components == env.inventory(sbom).value.components
    && f.componentCount == |f.components| && f.schema == "cyclonedx"
  }

  /** The receipt passes exactly if the engine allows these facts under the policy in force when it was asked. */
  ghost predicate DecisionReports(env: Env, s: Site, r: Receipt, f: Facts) {
    exists policy ::
      && Governs(env, s, policy) && f.parameters == policy.parameters && s.opaVersion == policy.opaVersion
      && env.opa(policy.source, f).Some?
      && (r.decision == "PASS" <==> env.opa(policy.source, f) == Some(true))
      && (r.decision == "FAIL" <==> env.opa(policy.source, f) == Some(false))
  }

  /** The snapshot and the receipt name this submission, this worker's key and these times. */
  predicate ReceiptReports(c: Config, rid: string, row: Row, r: Receipt, snapshot: Snapshot, now: int) {
    && r.recordID == r.nonce == rid && r.vendorID == row.vendorID && r.keyID == c.decisionKeyID
    && r.documentHash == row.documentHash && r.ciphertextHash == row.cipherHash
    && r.issuedAt == now && r.expiresAt == now + 600
    && snapshot.submissionID == rid && snapshot.vendorID == row.vendorID && snapshot.timestamp == now
    && snapshot.verdict == r.decision
  }

  /** The attestation was issued under this worker's identity key and is good for ten minutes. */
  predicate IsIssued(env: Env, attestation: Envelope, keyID: string, id: Identity, now: int) {
    && attestation.payload == env.canonical(
         OfBody(Body("vendorchain.identity.v1", keyID, now, now + 600, OfIdentity(id))))
    && attestation.signature == env.sign(keyID, attestation.payload)
  }

  /** The attestation verifies where it was attested, and says what was found. */
  ghost predicate AttestationReports(env: Env, s: Site, c: Config, rid: string, i: Inputs, attestation: Envelope,
                                     row: Row, now: int) {
    exists id ::
      && Signed(env, s.registry, attestation, "vendorchain.identity.v1", "identity", s.now, OfIdentity(id))
      && IsIssued(env, attestation, c.identityKeyID, id, now) && IdentityReports(id, c, rid, row, i, now)
  }

  lemma IdentityIsReported(env: Env, s: Site, c: Config, rid: string, i: Inputs, attestation: Envelope, row: Row,
                           now: int)
    requires Lawful(env)
    requires var content := OfIdentity(IdentityOf(row, c, rid, i, now));
             && VerifyDocument(env, s.registry, attestation, IDENTITY_DOMAIN, "identity", s.now) == Ok(content)
             && attestation == SignDocument(env, content, c.identityKeyID, IDENTITY_DOMAIN, now)
    ensures AttestationReports(env, s, c, rid, i, attestation, row, now)
  {
    var id := IdentityOf(row, c, rid, i, now);
    DocumentMeans(env, s.registry, attestation, "vendorchain.identity.v1", "identity", s.now, OfIdentity(id));
    StateIsReported(i);
    assert IsIssued(env, attestation, c.identityKeyID, id, now) && IdentityReports(id, c, rid, row, i, now);
  }

  lemma StateIsReported(i: Inputs)
    ensures StateReports(IdentityState(i), i)
  {
    assert "verified"[0] != "failed"[0];
  }

  /** All that a processed submission reports. */
  ghost predicate Reports(env: Env, at: Stage -> Site, c: Config, rid: string, i: Inputs, r: Receipt, h: Held) {
    && AttestationReports(env, at(Attested), c, rid, i, h.identity, h.row, at(Clocked).now)
    && FactsReport(env, at, c, i, h.snapshot.input, h.sbom)
    && DecisionReports(env, at(Decided), r, h.snapshot.input)
    && ReceiptReports(c, rid, h.row, r, h.snapshot, at(Clocked).now)
  }

  lemma GatheredReports(env: Env, at: Stage -> Site, c: Config, rid: string, i: Inputs, g: Gathered)
    requires GatheredOk(env, at, c, rid, i, g)
    ensures FactsReport(env, at, c, i, g.facts, g.sbom)
  {}

  lemma VerdictReports(env: Env, s: Site, r: Receipt, f: Facts, verdict: Verdict)
    requires Lawful(env) && Evaluate(env, s.registry, s.policyFile, s.opaVersion, f, s.now) == Ok(verdict)
    requires r.decision == if verdict.allowed then "PASS" else "FAIL"
    ensures DecisionReports(env, s, r, f)
  {
    PolicyMeans(env, s, LoadedAt(env, s).value.policy);
    assert "PASS"[0] != "FAIL"[0];
  }

  lemma ProcessReports(env: Env, at: Stage -> Site, c: Config, rid: string, i: Inputs, g: Gathered, r: Receipt, h: Held)
    requires Lawful(env) && GatheredOk(env, at, c, rid, i, g)
    requires h.identity == g.identity && h.row == at(Opened).row && h.sbom == g.sbom
    requires DraftedFrom(env, c, rid, at(Clocked).now, r, h, g.facts, g.verdict, g.artifactHash)
    ensures Reports(env, at, c, rid, i, r, h)
  {
    GatheredReports(env, at, c, rid, i, g);
    VerdictReports(env, at(Decided), r, g.facts, g.verdict);
    IdentityIsReported(env, at(Attested), c, rid, i, h.identity, h.row, at(Clocked).now);
  }

  function SnapshotOf(env: Env, rid: string, row: Row, now: int, attestation: Envelope, facts: Facts,
                      verdict: Verdict): Snapshot {
    Snapshot(facts, verdict.bundleHash, verdict.policy.policyVersion, verdict.policy.opaVersion,
             if verdict.allowed then "PASS" else "FAIL", now, rid, row.vendorID,
             env.sha(env.canonical(OfEnvelope(attestation))),
                 env.sha(env.canonical(OfBinding(row.sealed, row.context))))
  }

  /** The receipt without its root. */
  function DraftOf(env: Env, keyID: string, rid: string, row: Row, now: int, snapshot: Snapshot, sbom: seq<byte>,
                   artifactHash: Digest): Receipt {
    Receipt(RECEIPT_VERSION, rid, row.vendorID, row.documentHash, row.cipherHash, env.sha(sbom), artifactHash,
            snapshot.identityHash, env.sha(env.canonical(OfSnapshot(snapshot))), snapshot.policyHash, snapshot.verdict,
            keyID, now, now + TTL, rid, "sha256", [])
  }

  /** The receipt was drafted from `h`, whatever its root. */
  ghost predicate DraftedFrom(env: Env, c: Config, rid: string, now: int, r: Receipt, h: Held, facts: Facts,
                              verdict: Verdict, artifactHash: Digest) {
    && h.snapshot == SnapshotOf(env, rid, h.row, now, h.identity, facts, verdict)
    && r == DraftOf(env, c.decisionKeyID, rid, h.row, now, h.snapshot, h.sbom,
        artifactHash).(evidenceRoot := r.evidenceRoot)
  }

  lemma DraftBinds(env: Env, c: Config, rid: string, now: int, s: Site, r: Receipt, h: Held, facts: Facts,
                   verdict: Verdict, artifactHash: Digest)
    requires DraftedFrom(env, c, rid, now, r, h, facts, verdict, artifactHash)
    requires env.sha(h.blob) == h.row.cipherHash && TreeHash(env, h.tree) == Ok(artifactHash)
    requires h.policyFile == s.policyFile
               && Evaluate(env, s.registry, s.policyFile, s.opaVersion, facts, s.now) == Ok(verdict)
    requires ConfigurationOk(s, c, verdict.policy)
    ensures Binds(env, h, r) && DecisionHolds(env, s, h.snapshot, c, r)
  {
    PolicyIsHashed(env, s);
  }

  lemma DraftIsOfIdentity(env: Env, c: Config, rid: string, i: Inputs, now: int, s: Site, r: Receipt, h: Held,
                          facts: Facts, verdict: Verdict,
                          artifactHash: Digest)
    requires DraftedFrom(env, c, rid, now, r, h, facts, verdict, artifactHash)
    requires VerifyDocument(env, s.registry, h.identity, IDENTITY_DOMAIN, "identity", s.now)
             == Ok(OfIdentity(IdentityOf(h.row, c, rid, i, now)))
    ensures IdentityHolds(env, s, h.identity, rid, r)
  {}

  /** The reference ledger for these payloads: verifies the receipt itself, one record per id. */
  class ReceiptLedger {
    const env: Env
    const payloadHash: Payload -> string
    var records: map<string, (Digest, string)>

    constructor (env: Env, payloadHash: Payload -> string)
      ensures this.env == env && this.payloadHash == payloadHash && records == map[]
    {
      this.env, this.payloadHash, records := env, payloadHash, map[];
    }

    /** The transaction id; None when the receipt does not verify or another one is stored. */
    method Submit(p: Payload, s: Site) returns (tx: Option<string>)
      modifies this
      ensures var verified := VerifyReceipt(env, s.registry, p, s.now);
              records == if verified.Err? || p.recordID in old(records) then old(records)
                         else old(records)[p.recordID := (p.receiptHash, "local-" + payloadHash(p))]
      ensures tx.Some? ==> p.recordID in records && records[p.recordID] == (p.receiptHash, tx.value)
    {
      var verified := VerifyReceipt(env, s.registry, p, s.now);
      if verified.Err? { return None; }
      if p.recordID !in records { records := records[p.recordID := (p.receiptHash, "local-" + payloadHash(p))]; }
      if records[p.recordID].0 != p.receiptHash { return None; }
      tx := Some(records[p.recordID].1);
    }
  }

  datatype Gathered = Gathered(identity: Envelope, sbom: seq<byte>, artifactHash: Digest, facts: Facts,
                               verdict: Verdict)

  ghost predicate IdentityGathered(env: Env, at: Stage -> Site, c: Config, rid: string, i: Inputs, identity: Envelope) {
    && PolicyApproves(env, at(Configured), c) && env.sha(at(Opened).blob) == at(Opened).row.cipherHash
    && i.plaintext.Some? && env.sha(i.plaintext.value) == at(Opened).row.documentHash
    && VerifyDocument(env, at(Attested).registry, identity, IDENTITY_DOMAIN, "identity", at(Attested).now)
       == Ok(OfIdentity(IdentityOf(at(Opened).row, c, rid, i, at(Clocked).now)))
    && identity == SignDocument(env, OfIdentity(IdentityOf(at(Opened).row, c, rid, i, at(Clocked).now)),
                                c.identityKeyID, IDENTITY_DOMAIN, at(Clocked).now)
  }

  ghost predicate InventoryGathered(env: Env, at: Stage -> Site, c: Config, i: Inputs, sbom: seq<byte>,
                                    inventory: Inventory, artifactHash: Digest) {
    && at(ReadBack).sbom == Some(sbom) && i.scanned.Some?
    && ProvenanceVerifies(env, at(Verified), c, env.sha(i.scanned.value))
    && env.inventory(sbom) == env.inventory(i.scanned.value) == Some(inventory)
    && TreeHash(env, at(Scanned).tree) == TreeHash(env, at(Rescanned).tree) == Ok(artifactHash)
  }

  ghost predicate DecisionGathered(env: Env, early: Site, s: Site, c: Config, state: string, inventory: Inventory,
                                   facts: Facts, verdict: Verdict) {
    && Evaluate(env, s.registry, s.policyFile, s.opaVersion, facts, s.now) == Ok(verdict)
    && ConfigurationOk(s, c, verdict.policy)
    && facts == FactsOf(state, inventory, ProvenanceKeyActive(env, early, c), facts.parameters)
  }

  /** Each part was taken and checked at its moment. */
  ghost predicate GatheredOk(env: Env, at: Stage -> Site, c: Config, rid: string, i: Inputs, g: Gathered) {
    && IdentityGathered(env, at, c, rid, i, g.identity) && env.inventory(g.sbom).Some?
    && InventoryGathered(env, at, c, i, g.sbom, env.inventory(g.sbom).value, g.artifactHash)
    && DecisionGathered(env, at(Parameterized), at(Decided), c, IdentityState(i), env.inventory(g.sbom).value, g.facts,
                        g.verdict)
  }

  class Worker {
    const env: Env
    const config: Config
    var sboms: map<string, (seq<byte>, seq<byte>)>
    var evidence: map<string, Retained>

    constructor (env: Env, config: Config)
      ensures this.env == env && this.config == config && sboms == map[] && evidence == map[]
    {
      this.env, this.config, sboms, evidence := env, config, map[], map[];
    }

    /** None unless the ciphertext and the plaintext are the stored ones. */
    method OpenDocument(s: Site, i: Inputs) returns (failure: Option<Failure>)
      ensures failure == None <==> env.sha(s.blob) == s.row.cipherHash && i.plaintext.Some?
                                   && env.sha(i.plaintext.value) == s.row.documentHash
    {
      if env.sha(s.blob) != s.row.cipherHash { return Some(Conflict); }
      if i.plaintext == None { return Some(Invalid); }
      if env.sha(i.plaintext.value) != s.row.documentHash { return Some(Conflict); }
      failure := None;
    }

    method Attest(identity: Identity, now: int, s: Site) returns (r: Result<Envelope, Failure>)
      requires Lawful(env)
      ensures r.Ok? ==>
                VerifyDocument(env, s.registry, r.value, IDENTITY_DOMAIN, "identity", s.now) == Ok(OfIdentity(identity))
      ensures r.Ok? ==> r.value == SignDocument(env, OfIdentity(identity), config.identityKeyID, IDENTITY_DOMAIN, now)
    {
      var attestation := SignDocument(env, OfIdentity(identity), config.identityKeyID, IDENTITY_DOMAIN, now);
      var verified := VerifyDocument(env, s.registry, attestation, IDENTITY_DOMAIN, "identity", s.now);
      if verified.Err? { return Err(verified.error); }
      r := Ok(attestation);
    }

    /**
     Scans the tree, which must not have changed meanwhile, and signs and verifies the inventory. The
     file is created exclusively.
     */
    method BuildInventory(rid: string, at: Stage -> Site, i: Inputs) returns (r: Result<(Inventory, Digest), Failure>)
      modifies this`sboms
      ensures sboms == old(sboms) || (i.scanned.Some? && rid !in old(sboms)
                                      && sboms == old(sboms)[rid := (i.scanned.value, i.signature)])
      ensures r.Ok? ==>
                && i.scanned.Some? && env.inventory(i.scanned.value) == Some(r.value.0)
                && rid !in old(sboms) && sboms == old(sboms)[rid := (i.scanned.value, i.signature)]
                && TreeHash(env, at(Scanned).tree) == TreeHash(env, at(Rescanned).tree) == Ok(r.value.1)
                && ProvenanceVerifies(env, at(Verified), config, env.sha(i.scanned.value))
    {
      var before := HashTree(env, at(Scanned).tree);
      if before.Err? { return Err(before.error); }
      if i.scanned == None { return Err(Invalid); }
      var inventory := env.inventory(i.scanned.value);
      if inventory == None { return Err(Invalid); }
      var after := HashTree(env, at(Rescanned).tree);
      if before != after || rid in sboms { return Err(Conflict); }
      sboms := sboms[rid := (i.scanned.value, i.signature)];
      if !ProvenanceVerifies(env, at(Verified), config, env.sha(i.scanned.value)) { return Err(Invalid); }
      r := Ok((inventory.value, before.value));
    }

    /** The engine's verdict on the facts, under the policy that is loaded again for it. */
    method Decide(early: Site, s: Site, state: string, inventory: Inventory)
      returns (r: Result<(Facts, Verdict), Failure>)
      ensures r.Ok? ==>
                && Evaluate(env, s.registry, s.policyFile, s.opaVersion, r.value.0, s.now) == Ok(r.value.1)
                && ConfigurationOk(s, config, r.value.1.policy) && LoadedAt(env, early).Ok?
                && r.value.0.parameters == LoadedAt(env, early).value.policy.parameters == r.value.1.policy.parameters
                && r.value.0 == FactsOf(state, inventory, ProvenanceKeyActive(env, early, config),
                                        r.value.1.policy.parameters)
    {
      var loaded := LoadedAt(env, early);
      if loaded.Err? { return Err(loaded.error); }
      var facts := FactsOf(state, inventory, ProvenanceKeyActive(env, early, config), loaded.value.policy.parameters);
      var verdict := Evaluate(env, s.registry, s.policyFile, s.opaVersion, facts, s.now);
      if verdict.Err? { return Err(verdict.error); }
      if !ConfigurationOk(s, config, verdict.value.policy) { return Err(Conflict); }
      r := Ok((facts, verdict.value));
    }

    /** The receipt is completed, signed, and verified before anything is kept. */
    method Issue(rid: string, draft: Receipt, s: Site) returns (r: Result<Payload, Failure>, receipt: Receipt)
      requires Lawful(env)
      ensures receipt == draft.(evidenceRoot := receipt.evidenceRoot)
      ensures r.Ok? ==> VerifyReceipt(env, s.registry, r.value, s.now) == Ok(receipt)
    {
      receipt := draft;
      var root := EvidenceRoot(env, draft, draft.issuedAt);
      if root.Err? { return Err(root.error), receipt; }
      receipt := draft.(evidenceRoot := root.value);
      var raw := env.canonical(OfReceipt(receipt));
      var payload := Payload(rid, raw, env.sha(raw), env.sign(config.decisionKeyID, raw),
          env.sign(config.decisionKeyID, receipt.snapshotHash));
      var verified := VerifyReceipt(env, s.registry, payload, s.now);
      if verified.Err? { return Err(verified.error), receipt; }
      r := Ok(payload);
    }

    /** The receipt over what has been gathered, and what it is about. */
    method Seal(rid: string, at: Stage -> Site, ghost i: Inputs, identity: Envelope, sbom: seq<byte>,
                artifactHash: Digest,
                facts: Facts, verdict: Verdict) returns (r: Result<Payload, Failure>, receipt: Receipt, h: Held)
      requires Lawful(env) && PolicyApproves(env, at(Configured), config)
                 && InventoryIsSigned(env, at(Verified), config)
      requires env.sha(at(Opened).blob) == at(Opened).row.cipherHash
                 && TreeHash(env, at(Rescanned).tree) == Ok(artifactHash)
      requires VerifyDocument(env, at(Attested).registry, identity, IDENTITY_DOMAIN, "identity", at(Attested).now)
               == Ok(OfIdentity(IdentityOf(at(Opened).row, config, rid, i, at(Clocked).now)))
      requires var d := at(Decided);
               && Evaluate(env, d.registry, d.policyFile, d.opaVersion, facts, d.now) == Ok(verdict)
               && ConfigurationOk(d, config, verdict.policy)
      ensures h.identity == identity && h.row == at(Opened).row && h.blob == at(Opened).blob && h.sbom == sbom
      ensures h.tree == at(Rescanned).tree && h.policyFile == at(Decided).policyFile
      ensures DraftedFrom(env, config, rid, at(Clocked).now, receipt, h, facts, verdict, artifactHash)
      ensures r.Ok? ==> Processed(env, at, config, rid, r.value, receipt, h)
    {
      var row, now := at(Opened).row, at(Clocked).now;
      var snapshot := SnapshotOf(env, rid, row, now, identity, facts, verdict);
      var draft := DraftOf(env, config.decisionKeyID, rid, row, now, snapshot, sbom, artifactHash);
      h := Held(identity, snapshot, row, at(Opened).blob, sbom, at(Rescanned).tree, at(Decided).policyFile);
      r, receipt := Issue(rid, draft, at(Issued));
      DraftBinds(env, config, rid, now, at(Decided), receipt, h, facts, verdict, artifactHash);
      DraftIsOfIdentity(env, config, rid, i, now, at(Attested), receipt, h, facts, verdict, artifactHash);
    }

    /** The document opened and its identity attested. */
    method GatherIdentity(rid: string, at: Stage -> Site, i: Inputs) returns (r: Result<Envelope, Failure>)
      requires Lawful(env)
      ensures r.Ok? ==> IdentityGathered(env, at, config, rid, i, r.value)
    {
      if !PolicyApproves(env, at(Configured), config) { return Err(Conflict); }
      var failure := OpenDocument(at(Opened), i);
      if failure.Some? { return Err(failure.value); }
      r := Attest(IdentityOf(at(Opened).row, config, rid, i, at(Clocked).now), at(Clocked).now, at(Attested));
    }

    /** The inventory built, and read back with the same contents. */
    method GatherInventory(rid: string, at: Stage -> Site, i: Inputs)
      returns (r: Result<(seq<byte>, Inventory, Digest), Failure>)
      modifies this`sboms
      ensures r.Ok? ==>
                && rid !in old(sboms) && i.scanned.Some?
                && sboms == old(sboms)[rid := (i.scanned.value, i.signature)]
      ensures r.Ok? ==> InventoryGathered(env, at, config, i, r.value.0, r.value.1, r.value.2)
    {
      var built := BuildInventory(rid, at, i);
      if built.Err? { return Err(built.error); }
      if at(ReadBack).sbom == None { return Err(Absent); }
      var sbom := at(ReadBack).sbom.value;
      if env.inventory(sbom) != Some(built.value.0) { return Err(Conflict); }
      r := Ok((sbom, built.value.0, built.value.1));
    }

    /** Everything that is gathered before the receipt is drafted. */
    method Gather(rid: string, at: Stage -> Site, i: Inputs) returns (r: Result<Gathered, Failure>)
      requires Lawful(env)
      modifies this`sboms
      ensures r.Ok? ==>
                && rid !in old(sboms) && i.scanned.Some?
                && sboms == old(sboms)[rid := (i.scanned.value, i.signature)]
      ensures r.Ok? ==> GatheredOk(env, at, config, rid, i, r.value)
    {
      var attestation := GatherIdentity(rid, at, i);
      if attestation.Err? { return Err(attestation.error); }
      var built := GatherInventory(rid, at, i);
      if built.Err? { return Err(built.error); }
      var (sbom, inventory, artifactHash) := built.value;
      var decided := Decide(at(Parameterized), at(Decided), IdentityState(i), inventory);
      if decided.Err? { return Err(decided.error); }
      r := Ok(Gathered(attestation.value, sbom, artifactHash, decided.value.0, decided.value.1));
    }

    /** From the claim to the prepared payload; nothing is retained unless every step succeeds. */
    method Process(rid: string, at: Stage -> Site, i: Inputs)
      returns (r: Result<Payload, Failure>, ghost receipt: Receipt, ghost h: Held)
      requires Lawful(env)
      modifies this
      ensures r.Err? ==> evidence == old(evidence)
      ensures r.Ok? ==>
                && Processed(env, at, config, rid, r.value, receipt, h) && Takes(at, h)
                && Says(env, at, config, rid, i, receipt, h) && Reports(env, at, config, rid, i, receipt, h)
                && rid !in old(evidence)
                && evidence == old(evidence)[rid :=
                    Retained(h.identity, h.snapshot, h.row.sealed, h.row.context, r.value)]
                && rid !in old(sboms) && i.scanned.Some? && sboms == old(sboms)[rid := (i.scanned.value, i.signature)]
    {
      receipt, h := *, *;
      var gathered := Gather(rid, at, i);
      if gathered.Err? { return Err(gathered.error), receipt, h; }
      var g := gathered.value;
      var issued, complete, held := Seal(rid, at, i, g.identity, g.sbom, g.artifactHash, g.facts, g.verdict);
      receipt, h := complete, held;
      if issued.Err? { return Err(issued.error), receipt, h; }
      if rid in evidence { return Err(Conflict), receipt, h; }
      ProcessReports(env, at, config, rid, i, g, complete, held);
      evidence := evidence[rid :=
          Retained(held.identity, held.snapshot, held.row.sealed, held.row.context, issued.value)];
      r := Ok(issued.value);
    }

    /** The attestation, snapshot and verdict that were kept, rechecked in order. */
    method ValidateEvidence(rid: string, receipt: Receipt, at: Phase -> Site, e: Retained)
      returns (failure: Option<Failure>)
      ensures failure == None <==>
                && IdentityHolds(env, at(IdentityCheck), e.identity, rid, receipt)
                && SnapshotHolds(env, e, at(BindingRead).row, receipt)
                && DecisionHolds(env, at(DecisionMade), e.snapshot, config, receipt)
    {
      var s := at(IdentityCheck);
      var identity := VerifyDocument(env, s.registry, e.identity, IDENTITY_DOMAIN, "identity", s.now);
      if identity.Err? { return Some(identity.error); }
      if identity.value.OfPolicy? { return Some(Absent); }
      var id := identity.value.identity;
      if env.sha(env.canonical(OfEnvelope(e.identity))) != receipt.identityHash || id.submissionID != rid
         || id.vendorID != receipt.vendorID || id.documentHash != receipt.documentHash { return Some(Conflict); }
      if env.sha(env.canonical(OfSnapshot(e.snapshot))) != receipt.snapshotHash
         || e.snapshot.identityHash != receipt.identityHash { return Some(Conflict); }
      var row := at(BindingRead).row;
      if row.sealed != e.sealed || row.context != e.context
         || env.sha(env.canonical(OfBinding(row.sealed,
             row.context))) != e.snapshot.envelopeHash { return Some(Conflict); }
      var d := at(DecisionMade);
      var verdict := Evaluate(env, d.registry, d.policyFile, d.opaVersion, e.snapshot.input, d.now);
      if verdict.Err? { return Some(verdict.error); }
      if !ConfigurationOk(d, config, verdict.value.policy) { return Some(Conflict); }
      if verdict.value.bundleHash != receipt.policyHash || e.snapshot.policyHash != verdict.value.bundleHash
         || (if verdict.value.allowed then "PASS" else "FAIL") != receipt.decision { return Some(Conflict); }
      failure := None;
    }

    /** The checks of a prepared submission in order; None when all hold. */
    method ValidatePending(rid: string, receipt: Receipt, at: Phase -> Site) returns (failure: Option<Failure>)
      ensures failure == None <==> PendingHolds(env, at, config, rid, receipt)
    {
      if !PolicyApproves(env, at(ConfigurationRead), config) { return Some(Conflict); }
      if at(EvidenceRead).evidence == None { return Some(Absent); }
      failure := ValidateEvidence(rid, receipt, at, at(EvidenceRead).evidence.value);
      if failure.Some? { return; }
      if !ProvenanceVerifies(env, at(InventoryCheck), config, receipt.sbomHash) { return Some(Invalid); }
      var tree := HashTree(env, at(TreeRead).tree);
      if tree != Ok(receipt.artifactHash) { return Some(Conflict); }
    }

    /** What stands between a prepared payload and the ledger. */
    method CheckBeforeCommit(rid: string, p: Payload, at: Phase -> Site) returns (failure: Option<Failure>)
      ensures failure == None <==> MayCommit(env, at, config, rid, p)
    {
      var verified := VerifyReceipt(env, at(ReceiptCheck).registry, p, at(ReceiptCheck).now);
      if verified.Err? { return Some(verified.error); }
      var receipt := verified.value;
      var loaded := LoadedAt(env, at(PolicyRead));
      if loaded.Err? { return Some(loaded.error); }
      if receipt.policyHash != loaded.value.bundleHash { return Some(Conflict); }
      var row, blob := at(RowRead).row, at(BlobRead).blob;
      if env.sha(blob) != row.cipherHash || env.sha(blob) != receipt.ciphertextHash
         || row.documentHash != receipt.documentHash || row.vendorID != receipt.vendorID { return Some(Conflict); }
      if at(SbomRead).sbom == None { return Some(Absent); }
      if env.sha(at(SbomRead).sbom.value) != receipt.sbomHash { return Some(Conflict); }
      failure := ValidatePending(rid, receipt, at);
    }

    /**
     Checks and then submits. If the ledger gains a record, every check held, the record is this
     payload's, and all that the delivery read was what processing had made the payload of.
     */
    method Deliver(rid: string, p: Payload, at: Phase -> Site, submitting: Site, ledger: ReceiptLedger)
      returns (tx: Option<string>)
      requires Lawful(env)
      modifies ledger
      ensures ledger.records == old(ledger.records)
              || (&& MayCommit(env, at, config, rid, p) && MadeUnaltered(env, at, config, rid, p)
                  && p.recordID !in old(ledger.records)
                  && ledger.records == old(ledger.records)[p.recordID :=
                      (p.receiptHash, "local-" + ledger.payloadHash(p))])
      ensures ledger.records == old(ledger.records) || exists r :: RestsOn(env, at, config, rid, p, r)
      ensures tx.Some? ==> MayCommit(env, at, config, rid, p)
                           && p.recordID in ledger.records && ledger.records[p.recordID] == (p.receiptHash, tx.value)
    {
      var failure := CheckBeforeCommit(rid, p, at);
      if failure.Some? { return None; }
      CommittedIsUnaltered(env, at, config, rid, p);
      CommitRestsOn(env, at, config, rid, p);
      tx := ledger.Submit(p, submitting);
    }
  }

  /** However `p` was made, the delivery found what it was made of, unless hashes collided. */
  ghost predicate MadeUnaltered(env: Env, at: Phase -> Site, c: Config, rid: string, p: Payload)
    requires MayCommit(env, at, c, rid, p)
  {
    forall made, r, h | Processed(env, made, c, rid, p, r, h) && NoCollisions(env, h, at) :: Unaltered(h, at)
  }

  lemma CommittedIsUnaltered(env: Env, at: Phase -> Site, c: Config, rid: string, p: Payload)
    requires Lawful(env) && MayCommit(env, at, c, rid, p)
    ensures MadeUnaltered(env, at, c, rid, p)
  {
    forall made, r, h | Processed(env, made, c, rid, p, r, h) && NoCollisions(env, h, at) ensures Unaltered(h, at) {
      DeliveryIsBound(env, made, at, c, rid, p, r, h);
    }
  }
}
