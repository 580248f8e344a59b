/**
 An input for which processing succeeds and delivery never does, though nothing changes afterwards:
 between its verification and its read-back the inventory file is replaced by one that parses alike
 but was not signed.
 */
module ReplacedInventory {
  import opened Prelude
  import opened Bytes
  import opened Evidence
  import opened Hardened
  import opened HardenedPipeline

  const RID := "r"
  const NOW := 1000
  const SIGNED: seq<byte> := [21]
  const REPLACED: seq<byte> := [22]
  const EMPTY_INVENTORY := Inventory([], "")

  /** Tells messages apart by their first byte, which is all that these need. */
  function Sha(s: seq<byte>): (d: Digest)
    ensures |d| == 32
  {
    [if s == [] then 0 else s[0]] + seq(31, _ => 0)
  }

  const IDENTITY_PAYLOAD: seq<byte> := [2]
  const POLICY_PAYLOAD: seq<byte> := [3]
  const RECEIPT_BYTES: seq<byte> := [5]

  function Canonical(d: Document): seq<byte> {
    match d
    case OfEnvelope(e) => if e.payload == POLICY_PAYLOAD then [8] else [1]
    case OfBody(body) => if body.document.OfPolicy? then POLICY_PAYLOAD else IDENTITY_PAYLOAD
    case OfSnapshot(_) => [4]
    case OfReceipt(_) => RECEIPT_BYTES
    case OfBinding(_, _) => [6]
    case OfTree(_) => [7]
  }

  function KeyFor(role: string): Key {
    Key(role, false, 0, 10000, [])
  }

  const REGISTRY := map["i" := KeyFor("identity"), "d" := KeyFor("decision"), "p" := KeyFor("policy")]

  function Setup(): Config {
    Config("i", "d", "g", Trust(Sha([31]), 0, 10000), Controls("o", 1))
  }

  function ThePolicy(): Policy {
    Policy([41], Sha([41]), QUERY, "1", "1", Parameters(1, []), Setup().trust, KeyFor("identity"), Setup().controls)
  }

  function TheRow(): Row {
    Row("v", Sha([51]), Sha([52]), "e", "c")
  }

  const INPUTS := Inputs(Some([51]), true, true, "o", "s", Some(SIGNED), [])

  function TheIdentity(): Identity {
    IdentityOf(TheRow(), Setup(), RID, INPUTS, NOW)
  }

  const POLICY_FILE := Envelope(POLICY_PAYLOAD, [])
  const ATTESTATION := Envelope(IDENTITY_PAYLOAD, [])
  const TREE: Tree := [("f", File([61]))]

  function PolicyBody(): Body {
    Body("vendorchain.policy.v1", "p", 900, 5000, OfPolicy(ThePolicy()))
  }

  function IdentityBody(): Body {
    Body(IDENTITY_DOMAIN, "i", NOW, NOW + TTL, OfIdentity(TheIdentity()))
  }

  /** The libraries before any receipt can be parsed; drafting one parses nothing. */
  function Libraries(receipt: Option<Receipt>): Env {
    Env(Sha, Canonical,
        s => if s == POLICY_PAYLOAD then Some(OfBody(PolicyBody()))
             else if s == IDENTITY_PAYLOAD then Some(OfBody(IdentityBody()))
             else if s == RECEIPT_BYTES && receipt.Some? then Some(OfReceipt(receipt.value))
             else None,
        (_, _, _) => true, (_, _) => [], (_, _) => Some(true), (_, _, s) => s == SIGNED,
        s => if s == SIGNED || s == REPLACED then Some(EMPTY_INVENTORY) else None)
  }

  function TheFacts(): Facts {
    FactsOf("verified", EMPTY_INVENTORY, true, Parameters(1, []))
  }

  function TheVerdict(): Verdict {
    Verdict(true, Sha([8]), ThePolicy())
  }

  function TheSnapshot(): Snapshot {
    SnapshotOf(Libraries(None), RID, TheRow(), NOW, ATTESTATION, TheFacts(), TheVerdict())
  }

  function TheDraft(): Receipt {
    DraftOf(Libraries(None), "d", RID, TheRow(), NOW, TheSnapshot(), REPLACED, Sha([7]))
  }

  function TheReceipt(): Receipt {
    TheDraft().(evidenceRoot := Sha(RootBytes(TheDraft(), NOW)))
  }

  function TheEnv(): Env {
    Libraries(Some(TheReceipt()))
  }

  function ThePayload(): Payload {
    Payload(RID, RECEIPT_BYTES, Sha(RECEIPT_BYTES), [], [])
  }

  /** The one site of processing; only the inventory file is not the same throughout. */
  function TheSite(sbom: seq<byte>): Site {
    Site(NOW, REGISTRY, POLICY_FILE, "1", TheRow(), [52], None, Some(sbom), [], TREE, [31])
  }

  function Made(stage: Stage): Site {
    TheSite(if stage == Verified then SIGNED else REPLACED)
  }

  function TheHeld(): Held {
    Held(ATTESTATION, TheSnapshot(), TheRow(), [52], REPLACED, TREE, POLICY_FILE)
  }

  // ---------------------------------------------------------------- processing succeeds

  lemma PolicyLoads()
    ensures LoadPolicy(TheEnv(), REGISTRY, POLICY_FILE, NOW) == Ok(Loaded(ThePolicy(), Sha([8])))
  {
    assert REGISTRY["p"] == KeyFor("policy");
  }

  lemma PolicyDecides()
    ensures Evaluate(TheEnv(), REGISTRY, POLICY_FILE, "1", TheFacts(), NOW) == Ok(TheVerdict())
  {
    PolicyLoads();
  }

  lemma SetupIsApproved(sbom: seq<byte>)
    ensures ConfigurationOk(TheSite(sbom), Setup(), ThePolicy()) && PolicyApproves(TheEnv(), TheSite(sbom), Setup())
  {
    PolicyLoads();
    assert REGISTRY["i"] == KeyFor("identity");
  }

  lemma IdentityVerifies()
    ensures VerifyDocument(TheEnv(), REGISTRY, ATTESTATION, IDENTITY_DOMAIN, "identity", NOW)
            == Ok(OfIdentity(TheIdentity()))
  {
    assert REGISTRY["i"] == KeyFor("identity");
  }

  lemma TreeIsHashed()
    ensures TreeHash(TheEnv(), TREE) == Ok(Sha([7]))
  {
    assert TREE[..0] == [] && Files(TREE) == Files(TREE[..0]) + [("f", [61])];
  }

  lemma DraftIsTheHeld()
    ensures DraftedFrom(TheEnv(), Setup(), RID, NOW, TheReceipt(), TheHeld(), TheFacts(), TheVerdict(), Sha([7]))
  {}

  lemma ContextIsRight()
    ensures ReceiptContext(TheEnv(), ThePayload(), TheReceipt())
  {
    var r := TheReceipt();
    assert SafeID(RID) && SafeID("v");
    assert RootFields(r) && RootBytes(r, NOW) == RootBytes(TheDraft(), NOW);
  }

  lemma ReceiptVerifies()
    ensures VerifyReceipt(TheEnv(), REGISTRY, ThePayload(), NOW) == Ok(TheReceipt())
  {
    ContextIsRight();
    assert REGISTRY["d"] == KeyFor("decision");
  }

  lemma ProcessingSucceeds()
    ensures Processed(TheEnv(), Made, Setup(), RID, ThePayload(), TheReceipt(), TheHeld())
  {
    PolicyDecides();
    SetupIsApproved(REPLACED);
    IdentityVerifies();
    TreeIsHashed();
    DraftIsTheHeld();
    ReceiptVerifies();
    var env, c, r, h, facts, verdict := TheEnv(), Setup(), TheReceipt(), TheHeld(), TheFacts(), TheVerdict();
    DraftBinds(env, c, RID, NOW, Made(Decided), r, h, facts, verdict, Sha([7]));
    DraftIsOfIdentity(env, c, RID, INPUTS, NOW, Made(Attested), r, h, facts, verdict, Sha([7]));
  }

  lemma InventoryVerifies()
    ensures ProvenanceVerifies(TheEnv(), Made(Verified), Setup(), Sha(SIGNED))
  {}

  lemma ProcessingSays()
    ensures Says(TheEnv(), Made, Setup(), RID, INPUTS, TheReceipt(), TheHeld())
  {
    IdentityVerifies();
    TreeIsHashed();
    InventoryVerifies();
  }

  // ---------------------------------------------------------------- and delivery does not

  function Reading(phase: Phase): Site {
    TheSite(REPLACED).(evidence := Some(Retained(ATTESTATION, TheSnapshot(), "e", "c", ThePayload())))
  }

  lemma OneSite()
    ensures Takes(Made, TheHeld()) && MadeAt(TheSite(REPLACED), Made, NOW)
  {}

  lemma NothingChanges()
    ensures ReadsKept(TheSite(REPLACED), Reading, TheHeld(), ThePayload(), [], NOW)
  {}

  lemma NothingExpires()
    ensures BeforeEveryExpiry(TheEnv(), _ => NOW, TheHeld(), TheReceipt(), Setup())
  {}

  /** The kept inventory is not a signed one, so the last recheck but one fails at any time. */
  lemma UnsignedIsRefused()
    ensures !MayCommit(TheEnv(), Reading, Setup(), RID, ThePayload())
  {
    ProcessingSucceeds();
    OneSite();
    NothingChanges();
    var env, c, p, r, h := TheEnv(), Setup(), ThePayload(), TheReceipt(), TheHeld();
    UnchangedDecides(env, TheSite(REPLACED), Reading, c, RID, p, r, h, Made, NOW, []);
  }

  /**
   Processing succeeds on bytes that differ from the signed ones and parse alike. Read back unchanged
   at that very time, before every expiry, the payload may not be committed.
   */
  lemma ReplacedInventoryNeverCommits()
    ensures Processed(TheEnv(), Made, Setup(), RID, ThePayload(), TheReceipt(), TheHeld())
    ensures Says(TheEnv(), Made, Setup(), RID, INPUTS, TheReceipt(), TheHeld())
    ensures Takes(Made, TheHeld()) && MadeAt(TheSite(REPLACED), Made, NOW)
    ensures Made(Verified).sbom != Made(ReadBack).sbom
    ensures ReadsKept(TheSite(REPLACED), Reading, TheHeld(), ThePayload(), [], NOW)
    ensures BeforeEveryExpiry(TheEnv(), _ => NOW, TheHeld(), TheReceipt(), Setup())
    ensures !MayCommit(TheEnv(), Reading, Setup(), RID, ThePayload())
  {
    ProcessingSucceeds();
    ProcessingSays();
    OneSite();
    NothingChanges();
    NothingExpires();
    UnsignedIsRefused();
  }
}
