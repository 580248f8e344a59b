/** Signed evidence: documents, receipts, the evidence root, artifact trees and the signed policy. */
module Evidence {
  import opened Prelude
  import opened Bytes

  type Digest = seq<byte>

  datatype Failure = Invalid | Conflict | Absent

  // ---------------------------------------------------------------- documents

  datatype Identity = Identity(
    submissionID: string, vendorID: string, gstin: string, state: string, checksum: bool, ocr: bool,
    workerID: string, timestamp: int, documentHash: Digest, ocrPolicy: string, ocrScores: string)

  datatype Parameters = Parameters(maxComponents: int, bannedPackages: seq<string>)

  datatype Key = Key(role: string, revoked: bool, notBefore: int, notAfter: int, publicKey: seq<byte>)

  datatype Trust = Trust(publicHash: Digest, notBefore: int, notAfter: int)

  datatype Controls = Controls(ocrPolicy: string, replayRetentionSeconds: int)

  datatype Policy = Policy(
    source: seq<byte>, policyHash: Digest, query: string, opaVersion: string, policyVersion: string,
    parameters: Parameters, provenanceTrust: Trust, identityTrust: Key, controls: Controls)

  datatype Content = OfIdentity(identity: Identity) | OfPolicy(policy: Policy)

  datatype Body = Body(domain: string, keyID: string, issuedAt: int, expiresAt: int, document: Content)

  datatype Envelope = Envelope(payload: seq<byte>, signature: seq<byte>)

  /** What the policy engine is asked; the entries that are always present and typed are plain fields. */
  datatype Facts = Facts(
    identityState: string, componentCount: int, components: seq<string>, schema: string,
    signatureValid: bool, certificateApproved: bool, certificateExpired: bool, digestBound: bool,
    replayDetected: bool, parameters: Parameters)

  datatype Snapshot = Snapshot(
    input: Facts, policyHash: Digest, policyVersion: string, opaVersion: string, verdict: string, timestamp: int,
    submissionID: string, vendorID: string, identityHash: Digest, envelopeHash: Digest)

  datatype Receipt = Receipt(
    version: string, recordID: string, vendorID: string, documentHash: Digest, ciphertextHash: Digest,
    sbomHash: Digest, artifactHash: Digest, identityHash: Digest, snapshotHash: Digest, policyHash: Digest,
    decision: string, keyID: string, issuedAt: int, expiresAt: int, nonce: string, algorithm: string,
        evidenceRoot: Digest)

  datatype Payload = Payload(
    recordID: string, receipt: seq<byte>, receiptHash: Digest, signature: seq<byte>, snapshotSignature: seq<byte>)

  /** Everything that is ever put in canonical form. */
  datatype Document =
    | OfEnvelope(envelope: Envelope)
    | OfBody(body: Body)
    | OfSnapshot(snapshot: Snapshot)
    | OfReceipt(receipt: Receipt)
    | OfBinding(sealed: string, context: string)
    | OfTree(rows: seq<(string, Digest)>)

  /** A parsed bill of materials. */
  datatype Inventory = Inventory(components: seq<string>, rest: string)

  // ---------------------------------------------------------------- the libraries

  /** Hashing, canonical JSON, signatures, the policy engine and the provenance tool, as functions. */
  datatype Env = Env(
    sha: seq<byte> -> Digest, canonical: Document -> seq<byte>, parse: seq<byte> -> Option<Document>,
    verify: (seq<byte>, seq<byte>, seq<byte>) -> bool, sign: (string, seq<byte>) -> seq<byte>,
    opa: (seq<byte>, Facts) -> Option<bool>, cosign: (seq<byte>, seq<byte>, seq<byte>) -> bool,
    inventory: seq<byte> -> Option<Inventory>)

  /** Canonical JSON is read back, and digests have 32 bytes. */
  ghost predicate Lawful(env: Env) {
    && (forall d :: env.parse(env.canonical(d)) == Some(d))
    && (forall s :: |env.sha(s)| == 32)
  }

  /** No two of these messages collide. */
  ghost predicate CollisionFree(env: Env, messages: set<seq<byte>>) {
    forall a, b | a in messages && b in messages && env.sha(a) == env.sha(b) :: a == b
  }

  lemma SameCanonical(env: Env, a: Document, b: Document)
    requires Lawful(env) && env.canonical(a) == env.canonical(b)
    ensures a == b
  {
    assert env.parse(env.canonical(a)) == Some(a);
  }

  /** Equal hashes of canonical forms mean equal documents. */
  lemma HashBinds(env: Env, messages: set<seq<byte>>, a: Document, b: Document)
    requires Lawful(env) && CollisionFree(env, messages)
    requires env.canonical(a) in messages && env.canonical(b) in messages
    requires env.sha(env.canonical(a)) == env.sha(env.canonical(b))
    ensures a == b
  {
    SameCanonical(env, a, b);
  }

  // ---------------------------------------------------------------- signed documents

  const MAX_DOCUMENT := 2 * 1024 * 1024
  const SKEW := 30
  const TTL := 600

  predicate KeyActive(key: Key, role: string, issuedAt: int, now: int) {
    key.role == role && !key.revoked && key.notBefore <= issuedAt <= now + SKEW && key.notBefore <= now < key.notAfter
  }

  function VerifyDocument(env: Env, registry: map<string, Key>, e: Envelope, domain: string, role: string,
                          now: int): Result<Content, Failure> {
    if |e.payload| > MAX_DOCUMENT then Err(Invalid)
    else match env.parse(e.payload)
      case Some(OfBody(body)) =>
        if env.canonical(OfBody(body)) != e.payload || body.domain != domain then Err(Invalid)
        else if body.keyID !in registry then Err(Absent)
        else
          var key := registry[body.keyID];
          if !KeyActive(key, role, body.issuedAt, now) then Err(Invalid)
          else if !(body.issuedAt < body.expiresAt <= key.notAfter && now < body.expiresAt) then Err(Invalid)
          else if !env.verify(key.publicKey, e.signature, e.payload) then Err(Invalid)
          else Ok(body.document)
      case _ => Err(Invalid)
  }

  function SignDocument(env: Env, document: Content, keyID: string, domain: string, now: int): Envelope {
    var raw := env.canonical(OfBody(Body(domain, keyID, now, now + TTL, document)));
    Envelope(raw, env.sign(keyID, raw))
  }

  /** The moment a signed document stops verifying. */
  ghost function DocumentEnds(env: Env, e: Envelope): int {
    match env.parse(e.payload)
    case Some(OfBody(body)) => body.expiresAt
    case _ => 0
  }

  /** A document that verified once verifies at later times exactly until it expires; its key outlives it. */
  lemma DocumentLasts(env: Env, registry: map<string, Key>, e: Envelope, domain: string, role: string, now: int,
                      later: int)
    requires VerifyDocument(env, registry, e, domain, role, now).Ok? && now <= later
    ensures VerifyDocument(env, registry, e, domain, role, later) ==
            if later < DocumentEnds(env, e) then VerifyDocument(env, registry, e, domain, role, now) else Err(Invalid)
  {}

  // ---------------------------------------------------------------- the evidence root

  function Be64(n: int): (s: seq<byte>)
    requires 0 <= n < 0x1_0000_0000_0000_0000
    ensures |s| == 8
  {
    Be32(n / 0x1_0000_0000) + Be32(n % 0x1_0000_0000)
  }

  lemma Be64IsInjective(n: int, m: int)
    requires 0 <= n < 0x1_0000_0000_0000_0000 && 0 <= m < 0x1_0000_0000_0000_0000
    requires Be64(n) == Be64(m)
    ensures n == m
  {
    assert Be64(n)[..4] == Be32(n / 0x1_0000_0000) && Be64(n)[4..] == Be32(n % 0x1_0000_0000);
    assert Be64(m)[..4] == Be32(m / 0x1_0000_0000) && Be64(m)[4..] == Be32(m % 0x1_0000_0000);
    RoundTrip32(Be64(n)[..4], n / 0x1_0000_0000);
    RoundTrip32(Be64(n)[4..], n % 0x1_0000_0000);
    RoundTrip32(Be64(m)[..4], m / 0x1_0000_0000);
    RoundTrip32(Be64(m)[4..], m % 0x1_0000_0000);
  }

  predicate RootFields(r: Receipt) {
    |r.ciphertextHash| == |r.sbomHash| == |r.artifactHash| == |r.identityHash| == |r.snapshotHash| == 32
  }

  predicate RootTime(issuedAt: int) {
    0 <= issuedAt < 0x8000_0000_0000_0000
  }

  function RootBytes(r: Receipt, issuedAt: int): (s: seq<byte>)
    requires RootTime(issuedAt)
  {
    r.ciphertextHash + (r.sbomHash + (r.artifactHash + (r.identityHash + (r.snapshotHash + Be64(issuedAt)))))
  }

  function EvidenceRoot(env: Env, r: Receipt, issuedAt: int): Result<Digest, Failure> {
    if !RootFields(r) || !RootTime(issuedAt) then Err(Invalid) else Ok(env.sha(RootBytes(r, issuedAt)))
  }

  lemma SplitAt(a: seq<byte>, b: seq<byte>, s: seq<byte>, t: seq<byte>)
    requires |a| == |b| && a + s == b + t
    ensures a == b && s == t
  {
    assert (a + s)[..|a|] == a && (b + t)[..|b|] == b;
    assert (a + s)[|a|..] == s && (b + t)[|b|..] == t;
  }

  /** The fixed-width encoding is unambiguous: one root, one list of five digests and one time. */
  lemma EvidenceRootBinds(env: Env, r: Receipt, t: int, r': Receipt, t': int)
    requires EvidenceRoot(env, r, t).Ok? && EvidenceRoot(env, r, t) == EvidenceRoot(env, r', t')
    requires CollisionFree(env, {RootBytes(r, t), RootBytes(r', t')})
    ensures r.ciphertextHash == r'.ciphertextHash && r.sbomHash == r'.sbomHash && r.artifactHash == r'.artifactHash
    ensures r.identityHash == r'.identityHash && r.snapshotHash == r'.snapshotHash && t == t'
  {
    assert RootBytes(r, t) == RootBytes(r', t');
    var d, d' := r.snapshotHash + Be64(t), r'.snapshotHash + Be64(t');
    var c, c' := r.identityHash + d, r'.identityHash + d';
    var b, b' := r.artifactHash + c, r'.artifactHash + c';
    SplitAt(r.ciphertextHash, r'.ciphertextHash, r.sbomHash + b, r'.sbomHash + b');
    SplitAt(r.sbomHash, r'.sbomHash, b, b');
    SplitAt(r.artifactHash, r'.artifactHash, c, c');
    SplitAt(r.identityHash, r'.identityHash, d, d');
    SplitAt(r.snapshotHash, r'.snapshotHash, Be64(t), Be64(t'));
    Be64IsInjective(t, t');
  }

  // ---------------------------------------------------------------- receipts

  const RECEIPT_VERSION := "vendorchain.receipt.v2"

  predicate SafeID(s: string) {
    1 <= |s| <= 128 && forall k | 0 <= k < |s| ::
      'A' <= s[k] <= 'Z' || 'a' <= s[k] <= 'z' || '0' <= s[k] <= '9' || s[k] == '_' || s[k] == '-'
  }

  predicate ReceiptContext(env: Env, p: Payload, r: Receipt) {
    && r.version == RECEIPT_VERSION && r.recordID == p.recordID && r.nonce == p.recordID
    && SafeID(r.recordID) && SafeID(r.vendorID) && (r.decision == "PASS" || r.decision == "FAIL")
        && r.algorithm == "sha256"
    && env.sha(p.receipt) == p.receiptHash && |r.policyHash| == 32 && |r.documentHash| == 32
    && EvidenceRoot(env, r, r.issuedAt) == Ok(r.evidenceRoot)
  }

  function VerifyReceipt(env: Env, registry: map<string, Key>, p: Payload, now: int): Result<Receipt, Failure> {
    match env.parse(p.receipt)
    case Some(OfReceipt(r)) =>
      if env.canonical(OfReceipt(r)) != p.receipt || !ReceiptContext(env, p, r) then Err(Invalid)
      else if r.keyID !in registry then Err(Absent)
      else
        var key := registry[r.keyID];
        if !KeyActive(key, "decision", r.issuedAt, now) then Err(Invalid)
        else if !(now < r.expiresAt <= key.notAfter && 0 < r.expiresAt - r.issuedAt <= 3600) then Err(Invalid)
        else if !env.verify(key.publicKey, p.signature, p.receipt) then Err(Invalid)
        else if !env.verify(key.publicKey, p.snapshotSignature, r.snapshotHash) then Err(Invalid)
        else Ok(r)
    case _ => Err(Invalid)
  }

  /** A receipt that verified once verifies at later times exactly until it expires; its key outlives it. */
  lemma ReceiptLasts(env: Env, registry: map<string, Key>, p: Payload, now: int, later: int)
    requires VerifyReceipt(env, registry, p, now).Ok? && now <= later
    ensures VerifyReceipt(env, registry, p, later) ==
            if later < VerifyReceipt(env, registry, p, now).value.expiresAt then
                VerifyReceipt(env, registry, p, now) else Err(Invalid)
  {}

  // ---------------------------------------------------------------- the artifact tree

  datatype Node = Symlink | Directory | File(content: seq<byte>)

  /** A directory tree listed by path in sorted order. */
  type Tree = seq<(string, Node)>

  predicate HasSymlink(t: Tree) {
    exists k | 0 <= k < |t| :: t[k].1.Symlink?
  }

  /** The regular files with their contents. */
  function Files(t: Tree): seq<(string, seq<byte>)> {
    if t == [] then []
    else Files(t[..|t| - 1]) + if t[|t| - 1].1.File? then [(t[|t| - 1].0, t[|t| - 1].1.content)] else []
  }

  /** `files` are the regular files of the tree with path and contents, in its order, and no others. */
  ghost predicate ListsFiles(t: Tree, files: seq<(string, seq<byte>)>, places: seq<nat>) {
    && |places| == |files|
    && (forall j, k | 0 <= j < k < |places| :: places[j] < places[k])
    && (forall k | 0 <= k < |places| ::
          places[k] < |t| && t[places[k]].1.File? && files[k] == (t[places[k]].0, t[places[k]].1.content))
    && (forall i | 0 <= i < |t| && t[i].1.File? :: i in places)
  }

  lemma OneMoreFile(t: Tree, node: (string, Node), files: seq<(string, seq<byte>)>, places: seq<nat>)
    requires ListsFiles(t, files, places)
    ensures if node.1.File? then ListsFiles(t + [node], files + [(node.0, node.1.content)], places + [|t|])
            else ListsFiles(t + [node], files, places)
  {
    var all, more := t + [node], places + [|t|];
    forall i | 0 <= i < |all| && all[i].1.File? ensures i in more {
      if i < |t| { assert i in places; }
    }
  }

  lemma {:induction false} FilesAreListed(t: Tree) returns (places: seq<nat>)
    ensures ListsFiles(t, Files(t), places)
  {
    if t == [] {
      places := [];
    } else {
      var n := |t| - 1;
      places := FilesAreListed(t[..n]);
      assert t == t[..n] + [t[n]];
      OneMoreFile(t[..n], t[n], Files(t[..n]), places);
      if t[n].1.File? { places := places + [n]; }
    }
  }

  function TreeRows(env: Env, files: seq<(string, seq<byte>)>): (rows: seq<(string, Digest)>)
    ensures |rows| == |files| && forall k | 0 <= k < |files| :: rows[k] == (files[k].0, env.sha(files[k].1))
  {
    seq(|files|, k requires 0 <= k < |files| => (files[k].0, env.sha(files[k].1)))
  }

  function TreeHash(env: Env, t: Tree): Result<Digest, Failure> {
    if HasSymlink(t) || Files(t) == [] then
        Err(Invalid) else Ok(env.sha(env.canonical(OfTree(TreeRows(env, Files(t))))))
  }

  /** File contents and the list of their digests. */
  function TreeMessages(env: Env, t: Tree): set<seq<byte>> {
    (set k | 0 <= k < |Files(t)| :: Files(t)[k].1) + {env.canonical(OfTree(TreeRows(env, Files(t))))}
  }

  method HashTree(env: Env, t: Tree) returns (r: Result<Digest, Failure>)
    ensures r == TreeHash(env, t)
  {
    var rows := [];
    for k := 0 to |t|
      invariant forall j | 0 <= j < k :: !t[j].1.Symlink?
      invariant rows == TreeRows(env, Files(t[..k]))
    {
      assert t[..k + 1][..k] == t[..k];
      if t[k].1.Symlink? { return Err(Invalid); }
      if t[k].1.File? { rows := rows + [(t[k].0, env.sha(t[k].1.content))]; }
    }
    assert t[..|t|] == t;
    if rows == [] { return Err(Invalid); }
    r := Ok(env.sha(env.canonical(OfTree(rows))));
  }

  /** One tree hash, one list of files with the same contents. */
  lemma TreeHashBinds(env: Env, a: Tree, b: Tree)
    requires Lawful(env) && TreeHash(env, a).Ok? && TreeHash(env, a) == TreeHash(env, b)
    requires CollisionFree(env, TreeMessages(env, a) + TreeMessages(env, b))
    ensures Files(a) == Files(b)
  {
    var all := TreeMessages(env, a) + TreeMessages(env, b);
    HashBinds(env, all, OfTree(TreeRows(env, Files(a))), OfTree(TreeRows(env, Files(b))));
    forall k | 0 <= k < |Files(a)| ensures Files(a)[k] == Files(b)[k] {
      assert TreeRows(env, Files(a))[k] == TreeRows(env, Files(b))[k];
      assert Files(a)[k].1 in all && Files(b)[k].1 in all;
    }
  }

  // ---------------------------------------------------------------- the signed policy

  const QUERY := "data.vendorchain.authorization.allow"

  datatype Loaded = Loaded(policy: Policy, bundleHash: Digest)

  function LoadPolicy(env: Env, registry: map<string, Key>, file: Envelope, now: int): Result<Loaded, Failure> {
    match VerifyDocument(env, registry, file, "vendorchain.policy.v1", "policy", now)
    case Err(e) => Err(e)
    case Ok(OfIdentity(_)) => Err(Invalid)
    case Ok(OfPolicy(policy)) =>
      if env.sha(policy.source) != policy.policyHash || policy.query != QUERY then Err(Invalid)
      else Ok(Loaded(policy, env.sha(env.canonical(OfEnvelope(file)))))
  }

  predicate FactsConsistent(f: Facts) {
    && f.componentCount == |f.components| && f.parameters.maxComponents >= 1 && f.schema == "cyclonedx"
    && (f.identityState == "verified" || f.identityState == "failed" || f.identityState == "flagged")
  }

  datatype Verdict = Verdict(allowed: bool, bundleHash: Digest, policy: Policy)

  function Evaluate(env: Env, registry: map<string, Key>, file: Envelope, opaVersion: string, facts: Facts,
                    now: int): Result<Verdict, Failure> {
    match LoadPolicy(env, registry, file, now)
    case Err(e) => Err(e)
    case Ok(loaded) =>
      if opaVersion != loaded.policy.opaVersion || !FactsConsistent(facts)
          || facts.parameters != loaded.policy.parameters then Err(Invalid)
      else match env.opa(loaded.policy.source, facts)
        case None => Err(Invalid)
        case Some(allowed) => Ok(Verdict(allowed, loaded.bundleHash, loaded.policy))
  }

  lemma PolicyLasts(env: Env, registry: map<string, Key>, file: Envelope, opaVersion: string, facts: Facts, now: int,
                    later: int)
    requires LoadPolicy(env, registry, file, now).Ok? && now <= later
    ensures later < DocumentEnds(env, file) ==>
              && LoadPolicy(env, registry, file, later) == LoadPolicy(env, registry, file, now)
              && Evaluate(env, registry, file, opaVersion, facts, later)
                  == Evaluate(env, registry, file, opaVersion, facts, now)
    ensures later >= DocumentEnds(env, file) ==> LoadPolicy(env, registry, file, later).Err?
  {
    DocumentLasts(env, registry, file, "vendorchain.policy.v1", "policy", now, later);
  }
}
