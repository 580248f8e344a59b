/** What processing binds into a receipt, and what delivery checks again before the ledger sees it. */
module Hardened {
  import opened Prelude
  import opened Bytes
  import opened Evidence

  const IDENTITY_DOMAIN := "vendorchain.identity.v1"

  /** What a worker is set up with. */
  datatype Config = Config(
    identityKeyID: string, decisionKeyID: string, gstin: string, trust: Trust, controls: Controls)

  /** The stored row of a submission. */
  datatype Row = Row(vendorID: string, documentHash: Digest, cipherHash: Digest, sealed: string, context: string)

  datatype Retained = Retained(
    identity: Envelope, snapshot: Snapshot, sealed: string, context: string, receipt: Payload)

  /** Everything that can be read about one submission at one moment, the clock included. */
  datatype Site = Site(
    now: int, registry: map<string, Key>, policyFile: Envelope, opaVersion: string, row: Row, blob: seq<byte>,
    evidence: Option<Retained>, sbom: Option<seq<byte>>, sbomSignature: seq<byte>, tree: Tree, publicFile: seq<byte>)

  predicate ConfigurationOk(s: Site, c: Config, policy: Policy) {
    && policy.provenanceTrust == c.trust
    && c.identityKeyID in s.registry && policy.identityTrust == s.registry[c.identityKeyID]
    && policy.controls == c.controls
  }

  function LoadedAt(env: Env, s: Site): Result<Loaded, Failure> {
    LoadPolicy(env, s.registry, s.policyFile, s.now)
  }

  predicate PolicyApproves(env: Env, s: Site, c: Config) {
    var loaded := LoadedAt(env, s);
    loaded.Ok? && ConfigurationOk(s, c, loaded.value.policy)
  }

  predicate ProvenanceKeyActive(env: Env, s: Site, c: Config) {
    c.trust.notBefore <= s.now < c.trust.notAfter && env.sha(s.publicFile) == c.trust.publicHash
  }

  predicate InventoryIsSigned(env: Env, s: Site, c: Config) {
    ProvenanceKeyActive(env, s, c) && s.sbom.Some? && env.cosign(s.publicFile, s.sbomSignature, s.sbom.value)
  }

  predicate ProvenanceVerifies(env: Env, s: Site, c: Config, expected: Digest) {
    InventoryIsSigned(env, s, c) && env.sha(s.sbom.value) == expected
  }

  // ---------------------------------------------------------------- the single checks

  /** The attestation verifies at `s` and is the one that the receipt hashes, for this submission. */
  predicate IdentityHolds(env: Env, s: Site, identity: Envelope, rid: string, r: Receipt) {
    var verified := VerifyDocument(env, s.registry, identity, IDENTITY_DOMAIN, "identity", s.now);
    && verified.Ok? && verified.value.OfIdentity?
    && env.sha(env.canonical(OfEnvelope(identity))) == r.identityHash
    && verified.value.identity.submissionID == rid && verified.value.identity.vendorID == r.vendorID
    && verified.value.identity.documentHash == r.documentHash
  }

  predicate SnapshotHolds(env: Env, e: Retained, row: Row, r: Receipt) {
    && env.sha(env.canonical(OfSnapshot(e.snapshot))) == r.snapshotHash && e.snapshot.identityHash == r.identityHash
    && row.sealed == e.sealed && row.context == e.context
    && env.sha(env.canonical(OfBinding(row.sealed, row.context))) == e.snapshot.envelopeHash
  }

  predicate DecisionHolds(env: Env, s: Site, snapshot: Snapshot, c: Config, r: Receipt) {
    var verdict := Evaluate(env, s.registry, s.policyFile, s.opaVersion, snapshot.input, s.now);
    && verdict.Ok? && ConfigurationOk(s, c, verdict.value.policy)
    && verdict.value.bundleHash == r.policyHash == snapshot.policyHash
    && (if verdict.value.allowed then "PASS" else "FAIL") == r.decision
  }

  predicate RowHolds(env: Env, row: Row, blob: seq<byte>, r: Receipt) {
    && env.sha(blob) == row.cipherHash == r.ciphertextHash
    && row.documentHash == r.documentHash && row.vendorID == r.vendorID
  }

  // ---------------------------------------------------------------- the checks before delivery

  /** The reads of a delivery, in order. Whatever can change may change between any two of them. */
  datatype Phase =
    | ReceiptCheck | PolicyRead | RowRead | BlobRead | SbomRead | ConfigurationRead | EvidenceRead
    | IdentityCheck | BindingRead | DecisionMade | InventoryCheck | TreeRead

  /** The rechecks of the hardened pipeline. */
  predicate PendingHolds(env: Env, at: Phase -> Site, c: Config, rid: string, r: Receipt) {
    && PolicyApproves(env, at(ConfigurationRead), c) && at(EvidenceRead).evidence.Some?
    && (var e := at(EvidenceRead).evidence.value;
        && IdentityHolds(env, at(IdentityCheck), e.identity, rid, r)
        && SnapshotHolds(env, e, at(BindingRead).row, r)
        && DecisionHolds(env, at(DecisionMade), e.snapshot, c, r))
    && ProvenanceVerifies(env, at(InventoryCheck), c, r.sbomHash)
    && TreeHash(env, at(TreeRead).tree) == Ok(r.artifactHash)
  }

  /** The bindings that every pipeline checks before the hardened ones. */
  predicate BindingHolds(env: Env, at: Phase -> Site, r: Receipt) {
    && (var loaded := LoadedAt(env, at(PolicyRead)); loaded.Ok? && loaded.value.bundleHash == r.policyHash)
    && RowHolds(env, at(RowRead).row, at(BlobRead).blob, r)
    && at(SbomRead).sbom.Some? && env.sha(at(SbomRead).sbom.value) == r.sbomHash
  }

  /** The payload may go to the ledger. */
  predicate MayCommit(env: Env, at: Phase -> Site, c: Config, rid: string, p: Payload) {
    var verified := VerifyReceipt(env, at(ReceiptCheck).registry, p, at(ReceiptCheck).now);
    verified.Ok? && BindingHolds(env, at, verified.value) && PendingHolds(env, at, c, rid, verified.value)
  }

  // ---------------------------------------------------------------- what a receipt binds

  /** The things a receipt is about. */
  datatype Held = Held(
    identity: Envelope, snapshot: Snapshot, row: Row, blob: seq<byte>, sbom: seq<byte>, tree: Tree,
        policyFile: Envelope)

  /** The receipt hashes exactly these. */
  ghost predicate Binds(env: Env, h: Held, r: Receipt) {
    && RowHolds(env, h.row, h.blob, r)
    && r.identityHash == env.sha(env.canonical(OfEnvelope(h.identity))) == h.snapshot.identityHash
    && r.snapshotHash == env.sha(env.canonical(OfSnapshot(h.snapshot)))
    && r.policyHash == env.sha(env.canonical(OfEnvelope(h.policyFile))) == h.snapshot.policyHash
    && h.snapshot.envelopeHash == env.sha(env.canonical(OfBinding(h.row.sealed, h.row.context)))
    && r.sbomHash == env.sha(h.sbom) && TreeHash(env, h.tree) == Ok(r.artifactHash)
  }

  /** All that is hashed of them. */
  ghost function Messages(env: Env, h: Held): set<seq<byte>> {
    TreeMessages(env, h.tree)
    + {env.canonical(OfEnvelope(h.identity)), env.canonical(OfSnapshot(h.snapshot)),
        env.canonical(OfEnvelope(h.policyFile)),
       env.canonical(OfBinding(h.row.sealed, h.row.context)), h.blob, h.sbom}
  }

  /** The same, the artifact tree up to anything that is not a file. */
  ghost predicate SameHeld(h: Held, h': Held) {
    h' == h.(tree := h'.tree) && Files(h'.tree) == Files(h.tree)
  }

  lemma FewerCollisions(env: Env, some: set<seq<byte>>, all: set<seq<byte>>)
    requires CollisionFree(env, all) && some <= all
    ensures CollisionFree(env, some)
  {}

  lemma DocumentsAreBound(env: Env, h: Held, h': Held, r: Receipt)
    requires Lawful(env) && Binds(env, h, r) && Binds(env, h', r)
    requires CollisionFree(env, Messages(env, h) + Messages(env, h'))
    ensures h'.identity == h.identity && h'.snapshot == h.snapshot && h'.policyFile == h.policyFile && h'.row == h.row
  {
    var all := Messages(env, h) + Messages(env, h');
    HashBinds(env, all, OfEnvelope(h.identity), OfEnvelope(h'.identity));
    HashBinds(env, all, OfSnapshot(h.snapshot), OfSnapshot(h'.snapshot));
    HashBinds(env, all, OfEnvelope(h.policyFile), OfEnvelope(h'.policyFile));
    HashBinds(env, all, OfBinding(h.row.sealed, h.row.context), OfBinding(h'.row.sealed, h'.row.context));
  }

  lemma FilesAreBound(env: Env, h: Held, h': Held, r: Receipt)
    requires Lawful(env) && Binds(env, h, r) && Binds(env, h', r)
    requires CollisionFree(env, Messages(env, h) + Messages(env, h'))
    ensures h'.blob == h.blob && h'.sbom == h.sbom && Files(h'.tree) == Files(h.tree)
  {
    var all := Messages(env, h) + Messages(env, h');
    FewerCollisions(env, TreeMessages(env, h.tree) + TreeMessages(env, h'.tree), all);
    TreeHashBinds(env, h.tree, h'.tree);
    assert h.blob in all && h'.blob in all && h.sbom in all && h'.sbom in all;
  }

  /** One receipt, one set of things. */
  lemma ReceiptBinds(env: Env, h: Held, h': Held, r: Receipt)
    requires Lawful(env) && Binds(env, h, r) && Binds(env, h', r)
    requires CollisionFree(env, Messages(env, h) + Messages(env, h'))
    ensures SameHeld(h, h')
  {
    DocumentsAreBound(env, h, h', r);
    FilesAreBound(env, h, h', r);
  }

  // ---------------------------------------------------------------- what processing makes

  /** The reads of processing, in order. */
  datatype Stage =
    | Configured | Opened | Clocked | Attested | Scanned | Rescanned | Verified | ReadBack
    | Parameterized | Decided | Issued

  /** What is taken up at each moment. */
  ghost predicate Takes(at: Stage -> Site, h: Held) {
    && h.row == at(Opened).row && h.blob == at(Opened).blob && at(ReadBack).sbom == Some(h.sbom)
    && h.tree == at(Rescanned).tree && h.policyFile == at(Decided).policyFile
  }

  /** The payload was made of `h`, each check having passed at its own moment. */
  ghost predicate Processed(env: Env, at: Stage -> Site, c: Config, rid: string, p: Payload, r: Receipt, h: Held) {
    && VerifyReceipt(env, at(Issued).registry, p, at(Issued).now) == Ok(r) && Binds(env, h, r)
    && PolicyApproves(env, at(Configured), c) && IdentityHolds(env, at(Attested), h.identity, rid, r)
    && InventoryIsSigned(env, at(Verified), c)
    && h.policyFile == at(Decided).policyFile && DecisionHolds(env, at(Decided), h.snapshot, c, r)
  }

  // ---------------------------------------------------------------- delivery is bound to processing

  /** What a delivery read, with the policy and the inventory as of the given phases. */
  ghost function HeldAt(at: Phase -> Site, policy: Phase, inventory: Phase): Held
    requires at(EvidenceRead).evidence.Some? && at(inventory).sbom.Some?
  {
    var e, row := at(EvidenceRead).evidence.value, at(RowRead).row;
    Held(e.identity, e.snapshot, row.(sealed := at(BindingRead).row.sealed, context := at(BindingRead).row.context),
         at(BlobRead).blob, at(inventory).sbom.value, at(TreeRead).tree, at(policy).policyFile)
  }

  lemma PolicyIsHashed(env: Env, s: Site)
    requires LoadedAt(env, s).Ok?
    ensures LoadedAt(env, s).value.bundleHash == env.sha(env.canonical(OfEnvelope(s.policyFile)))
  {}

  /** A payload is read as the same receipt whenever it verifies. */
  lemma SameReceipt(env: Env, registry: map<string, Key>, registry': map<string, Key>, p: Payload, now: int, later: int)
    requires VerifyReceipt(env, registry, p, now).Ok? && VerifyReceipt(env, registry', p, later).Ok?
    ensures VerifyReceipt(env, registry, p, now) == VerifyReceipt(env, registry', p, later)
  {}

  /** The checks say that what they read is bound, at both reads of the policy and of the inventory. */
  lemma CheckedIsBound(env: Env, at: Phase -> Site, c: Config, rid: string, r: Receipt)
    requires BindingHolds(env, at, r) && PendingHolds(env, at, c, rid, r)
    ensures Binds(env, HeldAt(at, PolicyRead, SbomRead), r) && Binds(env, HeldAt(at, DecisionMade, InventoryCheck), r)
  {
    PolicyIsHashed(env, at(PolicyRead));
    PolicyIsHashed(env, at(DecisionMade));
  }

  /** No collision between what was processed and what the delivery read. */
  ghost predicate NoCollisions(env: Env, h: Held, at: Phase -> Site)
    requires at(EvidenceRead).evidence.Some? && at(SbomRead).sbom.Some? && at(InventoryCheck).sbom.Some?
  {
    && CollisionFree(env, Messages(env, h) + Messages(env, HeldAt(at, PolicyRead, SbomRead)))
    && CollisionFree(env, Messages(env, h) + Messages(env, HeldAt(at, DecisionMade, InventoryCheck)))
  }

  /** Every read of the delivery found what had been processed. */
  ghost predicate Unaltered(h: Held, at: Phase -> Site)
    requires at(EvidenceRead).evidence.Some? && at(SbomRead).sbom.Some? && at(InventoryCheck).sbom.Some?
  {
    && SameHeld(h, HeldAt(at, PolicyRead, SbomRead)) && SameHeld(h, HeldAt(at, DecisionMade, InventoryCheck))
    && at(EvidenceRead).evidence.value.sealed == h.row.sealed
        && at(EvidenceRead).evidence.value.context == h.row.context
  }

  /**
   A payload that processing made of `h` may go to the ledger only if every read of the delivery, at
   whatever moment, found the attestation, snapshot, sealed document, inventory, artifact files and
   policy that were processed.
   */
  lemma DeliveryIsBound(env: Env, made: Stage -> Site, at: Phase -> Site, c: Config, rid: string, p: Payload,
                        r: Receipt, h: Held)
    requires Lawful(env) && Processed(env, made, c, rid, p, r, h) && MayCommit(env, at, c, rid, p)
    requires NoCollisions(env, h, at)
    ensures Unaltered(h, at)
  {
    SameReceipt(env, made(Issued).registry, at(ReceiptCheck).registry, p, made(Issued).now, at(ReceiptCheck).now);
    CheckedIsBound(env, at, c, rid, r);
    ReceiptBinds(env, h, HeldAt(at, PolicyRead, SbomRead), r);
    ReceiptBinds(env, h, HeldAt(at, DecisionMade, InventoryCheck), r);
  }

  // ---------------------------------------------------------------- nothing changed but the time

  /** The site as processing left it. */
  ghost function Kept(s: Site, h: Held, p: Payload, signature: seq<byte>): Site {
    s.(evidence := Some(Retained(h.identity, h.snapshot, h.row.sealed, h.row.context, p)),
       sbom := Some(h.sbom), sbomSignature := signature)
  }

  /** All of processing took place at one site, whose inventory file alone may have changed meanwhile. */
  ghost predicate MadeAt(s: Site, made: Stage -> Site, early: int) {
    forall stage ::
      && made(stage) == s.(now := made(stage).now, sbom := made(stage).sbom, sbomSignature := made(stage).sbomSignature)
      && made(stage).now <= early
  }

  /** A delivery all of whose reads are of the site as processing left it, not before `early`. */
  ghost predicate ReadsKept(s: Site, at: Phase -> Site, h: Held, p: Payload, signature: seq<byte>, early: int) {
    forall phase :: at(phase) == Kept(s, h, p, signature).(now := at(phase).now) && early <= at(phase).now
  }

  lemma IdentityLasts(env: Env, s: Site, identity: Envelope, early: int, t: int, rid: string, r: Receipt)
    requires IdentityHolds(env, s.(now := early), identity, rid, r) && early <= t
    ensures IdentityHolds(env, s.(now := t), identity, rid, r) <==> t < DocumentEnds(env, identity)
  {
    DocumentLasts(env, s.registry, identity, IDENTITY_DOMAIN, "identity", early, t);
  }

  lemma DecisionLasts(env: Env, s: Site, early: int, t: int, snapshot: Snapshot, c: Config, r: Receipt)
    requires DecisionHolds(env, s.(now := early), snapshot, c, r) && early <= t
    ensures DecisionHolds(env, s.(now := t), snapshot, c, r) <==> t < DocumentEnds(env, s.policyFile)
  {
    PolicyLasts(env, s.registry, s.policyFile, s.opaVersion, snapshot.input, early, t);
  }

  lemma ApprovalLasts(env: Env, s: Site, early: int, t: int, c: Config)
    requires PolicyApproves(env, s.(now := early), c) && early <= t
    ensures PolicyApproves(env, s.(now := t), c) <==> t < DocumentEnds(env, s.policyFile)
    ensures LoadedAt(env, s.(now := t)).Ok? <==> t < DocumentEnds(env, s.policyFile)
  {
    var facts := Facts("", 0, [], "", true, true, true, true, true, Parameters(1, []));
    PolicyLasts(env, s.registry, s.policyFile, s.opaVersion, facts, early, t);
  }

  /** Each check happens before what it depends on expires. */
  ghost predicate BeforeEveryExpiry(env: Env, when: Phase -> int, h: Held, r: Receipt, c: Config) {
    && when(ReceiptCheck) < r.expiresAt && when(IdentityCheck) < DocumentEnds(env, h.identity)
    && when(PolicyRead) < DocumentEnds(env, h.policyFile) && when(ConfigurationRead) < DocumentEnds(env, h.policyFile)
    && when(DecisionMade) < DocumentEnds(env, h.policyFile) && when(InventoryCheck) < c.trust.notAfter
  }

  lemma UnchangedBinding(env: Env, s: Site, at: Phase -> Site, c: Config, rid: string, p: Payload, r: Receipt, h: Held,
                         made: Stage -> Site, early: int, signature: seq<byte>)
    requires Processed(env, made, c, rid, p, r, h) && Takes(made, h) && MadeAt(s, made, early)
    requires ReadsKept(s, at, h, p, signature, early)
    ensures BindingHolds(env, at, r) <==> at(PolicyRead).now < DocumentEnds(env, h.policyFile)
  {
    var k := Kept(s, h, p, signature);
    assert PolicyApproves(env, k.(now := made(Configured).now), c);
    ApprovalLasts(env, k, made(Configured).now, at(PolicyRead).now, c);
    if LoadedAt(env, at(PolicyRead)).Ok? { PolicyIsHashed(env, at(PolicyRead)); }
  }

  lemma UnchangedPending(env: Env, s: Site, at: Phase -> Site, c: Config, rid: string, p: Payload, r: Receipt, h: Held,
                         made: Stage -> Site, early: int, signature: seq<byte>)
    requires Processed(env, made, c, rid, p, r, h) && Takes(made, h) && MadeAt(s, made, early)
    requires ReadsKept(s, at, h, p, signature, early)
    ensures PendingHolds(env, at, c, rid, r) <==>
            && env.cosign(s.publicFile, signature, h.sbom) && at(IdentityCheck).now < DocumentEnds(env, h.identity)
            && at(ConfigurationRead).now < DocumentEnds(env, h.policyFile)
            && at(DecisionMade).now < DocumentEnds(env, h.policyFile) && at(InventoryCheck).now < c.trust.notAfter
  {
    var k := Kept(s, h, p, signature);
    assert PolicyApproves(env, k.(now := made(Configured).now), c);
    ApprovalLasts(env, k, made(Configured).now, at(ConfigurationRead).now, c);
    assert IdentityHolds(env, k.(now := made(Attested).now), h.identity, rid, r);
    IdentityLasts(env, k, h.identity, made(Attested).now, at(IdentityCheck).now, rid, r);
    assert DecisionHolds(env, k.(now := made(Decided).now), h.snapshot, c, r);
    DecisionLasts(env, k, made(Decided).now, at(DecisionMade).now, h.snapshot, c, r);
    assert InventoryIsSigned(env, made(Verified), c);
  }

  /**
   With nothing changed since processing but the time, delivery may commit exactly if the kept
   inventory is a signed one and each check comes before the expiry of the receipt, attestation,
   policy bundle or provenance key it looks at.
   */
  lemma UnchangedDecides(env: Env, s: Site, at: Phase -> Site, c: Config, rid: string, p: Payload, r: Receipt, h: Held,
                         made: Stage -> Site, early: int, signature: seq<byte>)
    requires Processed(env, made, c, rid, p, r, h) && Takes(made, h) && MadeAt(s, made, early)
    requires ReadsKept(s, at, h, p, signature, early)
    ensures MayCommit(env, at, c, rid, p) <==>
            env.cosign(s.publicFile, signature, h.sbom) && BeforeEveryExpiry(env, phase => at(phase).now, h, r, c)
  {
    ReceiptLasts(env, s.registry, p, made(Issued).now, at(ReceiptCheck).now);
    UnchangedBinding(env, s, at, c, rid, p, r, h, made, early, signature);
    UnchangedPending(env, s, at, c, rid, p, r, h, made, early, signature);
  }

  /**
   Nothing changed but the time, not even the inventory file between its verification and its
   read-back: every recheck passes, and delivery may commit, exactly until the first expiry.
   */
  lemma UnchangedCommitsUntilExpiry(env: Env, s: Site, at: Phase -> Site, c: Config, rid: string, p: Payload,
                                    r: Receipt, h: Held, made: Stage -> Site, early: int)
    requires Processed(env, made, c, rid, p, r, h) && Takes(made, h) && MadeAt(s, made, early)
    requires made(Verified).sbom == made(ReadBack).sbom
    requires ReadsKept(s, at, h, p, made(Verified).sbomSignature, early)
    ensures MayCommit(env, at, c, rid, p) <==> BeforeEveryExpiry(env, phase => at(phase).now, h, r, c)
  {
    UnchangedDecides(env, s, at, c, rid, p, r, h, made, early, made(Verified).sbomSignature);
  }
}
