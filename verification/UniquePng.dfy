/** Making a PNG unique: a text chunk with a nonce goes in before the end chunk. */
module UniquePng {
  import opened Prelude
  import opened Bytes
  import opened Crc32
  import opened Png

  const SIGNATURE: seq<byte> := [137, 80, 78, 71, 13, 10, 26, 10]
  const TEXT_TYPE: seq<byte> := [116, 69, 88, 116]

  /** "SubmissionNonce" and a zero byte. */
  const KEYWORD: seq<byte> := [83, 117, 98, 109, 105, 115, 115, 105, 111, 110, 78, 111, 110, 99, 101, 0]

  function TextChunk(nonce: seq<byte>): Chunk {
    Chunk(TEXT_TYPE, KEYWORD + nonce)
  }

  /** The list with `t` in front of its last chunk. */
  function Inserted(chunks: seq<Chunk>, t: Chunk): seq<Chunk>
    requires chunks != []
  {
    chunks[..|chunks| - 1] + [t, chunks[|chunks| - 1]]
  }

  /** The bytes with `t` printed in front of the last twelve. */
  function Spliced(s: seq<byte>, t: Chunk): seq<byte>
    requires |s| >= 12
  {
    s[..|s| - 12] + PrintChunk(t) + s[|s| - 12..]
  }

  // ---------------------------------------------------------------- a header read across its chunk

  /** The sixteen bytes a header is judged by: they reach at most four bytes into what follows the chunk. */
  lemma HeaderWindow(c: Chunk, r: seq<byte>, r': seq<byte>)
    requires WellFormedChunk(c) && |r| >= 4 && |r'| >= 4
    requires |c.data| < 4 ==> r[..4 - |c.data|] == r'[..4 - |c.data|]
    ensures HeaderOk(PrintChunk(c) + r) <==> HeaderOk(PrintChunk(c) + r')
  {
    var n := |c.data|;
    var s, s' := PrintChunk(c) + r, PrintChunk(c) + r';
    if n >= 4 {
      assert s[8..16] == PrintChunk(c)[8..16] == s'[8..16];
    } else {
      assert s[8..16] == PrintChunk(c)[8..] + r[..4 - n];
      assert s'[8..16] == PrintChunk(c)[8..] + r'[..4 - n];
    }
    assert s[8..12] == s[8..16][..4] && s[12..16] == s[8..16][4..];
    assert s'[8..12] == s'[8..16][..4] && s'[12..16] == s'[8..16][4..];
  }

  lemma ZeroLowHalf(h: seq<byte>)
    requires |h| == 4 && h[2] == 0 && h[3] == 0
    ensures FromBe32(h) == 0 || FromBe32(h) >= 0x1_0000
  {
    var hi, lo := h[..2], h[2..];
    assert lo[0] == h[2] && lo[1] == h[3];
    assert FromBe16(lo) == 0;
  }

  /** The byte `k` places behind a chunk of at most two data bytes. */
  lemma ByteBehind(c: Chunk, r: seq<byte>, k: nat)
    requires WellFormedChunk(c) && |c.data| <= 2 && 2 <= k < 4 && |r| >= 4 && r[..4] == [0, 0, 0, 0]
    ensures (PrintChunk(c) + r)[12 + k] == 0
  {
    var s := PrintChunk(c) + r;
    assert |PrintChunk(c)| == 12 + |c.data|;
    assert s[12 + k] == r[k - |c.data|] == r[..4][k - |c.data|];
  }

  /** A height whose low bytes come from a zero length field is either zero or far too large. */
  lemma NoHeaderBeforeEnd(c: Chunk, r: seq<byte>)
    requires WellFormedChunk(c) && |c.data| <= 2 && |r| >= 4 && r[..4] == [0, 0, 0, 0]
    ensures !HeaderOk(PrintChunk(c) + r)
  {
    var s := PrintChunk(c) + r;
    ByteBehind(c, r, 2);
    ByteBehind(c, r, 3);
    ZeroLowHalf(s[12..16]);
  }

  lemma SmallLengthStartsWithZero(n: int)
    requires 0 <= n <= MAX_BYTES
    ensures Be32(n)[0] == 0
  {
    assert n / 0x1_0000 < 256;
  }

  lemma PrintStarts(chunks: seq<Chunk>)
    requires chunks != [] && WellFormedChunk(chunks[0])
    ensures |Print(chunks)| >= 12 && Print(chunks)[..4] == Be32(|chunks[0].data|)
  {}

  lemma SamePrefix(r: seq<byte>, r': seq<byte>, k: nat)
    requires k <= 4 <= |r| && 4 <= |r'| && r[..4] == r'[..4]
    ensures r[..k] == r'[..k]
  {
    assert r[..k] == r[..4][..k] && r'[..k] == r'[..4][..k];
  }

  lemma HeaderBeforeSame(c: Chunk, r: seq<byte>, r': seq<byte>)
    requires WellFormedChunk(c) && |r| >= 4 && |r'| >= 4 && r[..4] == r'[..4]
    requires HeaderOk(PrintChunk(c) + r)
    ensures HeaderOk(PrintChunk(c) + r')
  {
    if |c.data| < 4 { SamePrefix(r, r', 4 - |c.data|); }
    HeaderWindow(c, r, r');
  }

  lemma HeaderBeforeEnd(c: Chunk, r: seq<byte>, r': seq<byte>)
    requires WellFormedChunk(c) && |r| >= 4 && |r'| >= 4 && r[..4] == [0, 0, 0, 0] && r'[0] == 0
    requires HeaderOk(PrintChunk(c) + r)
    ensures HeaderOk(PrintChunk(c) + r')
  {
    if |c.data| <= 2 {
      NoHeaderBeforeEnd(c, r);
    } else {
      assert r[0] == r[..4][0];
      assert |c.data| == 3 ==> r[..1] == [0] == r'[..1];
      HeaderWindow(c, r, r');
    }
  }

  lemma FirstKept(rest: seq<Chunk>, t: Chunk)
    requires |rest| > 1 && WellFormedChunk(rest[0])
    ensures Inserted(rest, t)[0] == rest[0] && Print(rest) != [] && Print(Inserted(rest, t)) != []
    ensures |Print(rest)| >= 4 && |Print(Inserted(rest, t))| >= 4
    ensures Print(rest)[..4] == Print(Inserted(rest, t))[..4]
  {
    PrintStarts(rest);
    PrintStarts(Inserted(rest, t));
  }

  lemma EndThenText(rest: seq<Chunk>, t: Chunk)
    requires |rest| == 1 && rest[0].data == [] && WellFormedChunk(rest[0]) && WellFormedChunk(t)
    ensures |Print(rest)| >= 4 && |Print(Inserted(rest, t))| >= 4
    ensures Print(rest)[..4] == [0, 0, 0, 0] && Print(Inserted(rest, t))[0] == 0
  {
    InsertOne(rest, t);
    PrintStarts(rest);
    PrintStarts(Inserted(rest, t));
    SmallLengthStartsWithZero(|t.data|);
    assert Print(Inserted(rest, t))[0] == Print(Inserted(rest, t))[..4][0];
  }

  /**
   A header chunk anywhere but first may be so short that its size is read partly from the
   next chunk's length. Inserting `t` in front of the end chunk never turns such a header from
   accepted to refused.
   */
  lemma HeaderSurvives(c: Chunk, rest: seq<Chunk>, t: Chunk)
    requires WellFormedChunk(c) && WellFormedChunk(t) && rest != [] && WellFormedChunk(rest[0])
    requires |rest| == 1 ==> rest[0].data == []
    requires HeaderOk(PrintChunk(c) + Print(rest))
    ensures HeaderOk(PrintChunk(c) + Print(Inserted(rest, t)))
  {
    if |rest| > 1 {
      FirstKept(rest, t);
      HeaderBeforeSame(c, Print(rest), Print(Inserted(rest, t)));
    } else {
      EndThenText(rest, t);
      HeaderBeforeEnd(c, Print(rest), Print(Inserted(rest, t)));
    }
  }

  // ---------------------------------------------------------------- insertion

  lemma InsertCons(chunks: seq<Chunk>, t: Chunk)
    requires |chunks| > 1
    ensures Inserted(chunks, t) == [chunks[0]] + Inserted(chunks[1..], t)
    ensures chunks == [chunks[0]] + chunks[1..]
  {}

  lemma EndPrints(chunks: seq<Chunk>, t: Chunk)
    requires chunks == [Chunk(IEND, [])]
    ensures |Print(chunks)| == 12 && Print(Inserted(chunks, t)) == Spliced(Print(chunks), t)
  {
    var e := chunks[0];
    PrintCons(e, []);
    assert chunks == [e] + [] && PrintChunk(e) + [] == PrintChunk(e);
    assert Inserted(chunks, t) == [t] + chunks;
    PrintCons(t, chunks);
  }

  lemma SpliceFurther(p: seq<byte>, s: seq<byte>, t: Chunk)
    requires |s| >= 12
    ensures p + Spliced(s, t) == Spliced(p + s, t)
  {
    assert (p + s)[..|p + s| - 12] == p + s[..|s| - 12];
    assert (p + s)[|p + s| - 12..] == s[|s| - 12..];
  }

  lemma ConsPrints(chunks: seq<Chunk>, t: Chunk)
    requires |chunks| > 1 && |Print(chunks[1..])| >= 12
    requires Print(Inserted(chunks[1..], t)) == Spliced(Print(chunks[1..]), t)
    ensures |Print(chunks)| >= 12 && Print(Inserted(chunks, t)) == Spliced(Print(chunks), t)
  {
    InsertCons(chunks, t);
    PrintCons(chunks[0], chunks[1..]);
    PrintCons(chunks[0], Inserted(chunks[1..], t));
    SpliceFurther(PrintChunk(chunks[0]), Print(chunks[1..]), t);
  }

  /** Bytes and chunk list agree on what insertion means. */
  lemma {:induction false} InsertPrints(chunks: seq<Chunk>, t: Chunk)
    requires chunks != [] && chunks[|chunks| - 1] == Chunk(IEND, [])
    ensures |Print(chunks)| >= 12 && Print(Inserted(chunks, t)) == Spliced(Print(chunks), t)
    decreases |chunks|
  {
    if |chunks| == 1 {
      EndPrints(chunks, t);
    } else {
      InsertPrints(chunks[1..], t);
      ConsPrints(chunks, t);
    }
  }

  lemma EndStays(chunks: seq<Chunk>, count: nat, t: Chunk)
    requires WellFormed(chunks, count) && |chunks| == 1 && count + 1 < MAX_CHUNKS
    requires WellFormedChunk(t) && t.typ == TEXT_TYPE
    ensures WellFormed(Inserted(chunks, t), count)
  {
    InsertOne(chunks, t);
    EndStandsLater(chunks[0], Print(chunks), count);
    OneLater(chunks, count);
    TextBeforeEnd(chunks, count, t);
  }

  lemma TextBeforeEnd(chunks: seq<Chunk>, count: nat, t: Chunk)
    requires WellFormed(chunks, count + 1) && 0 < count && count + 1 < MAX_CHUNKS
    requires WellFormedChunk(t) && t.typ == TEXT_TYPE
    ensures WellFormed([t] + chunks, count)
  {
    TextStands(t, PrintChunk(t) + Print(chunks), count);
    WellFormedCons(t, chunks, count);
  }

  lemma InsertOne(chunks: seq<Chunk>, t: Chunk)
    requires |chunks| == 1
    ensures Inserted(chunks, t) == [t] + chunks
  {}

  lemma EndStandsLater(e: Chunk, s: seq<byte>, count: nat)
    requires MayStand(e, s, count) && e.typ == IEND && count + 1 < MAX_CHUNKS
    ensures count > 0 && MayStand(e, s, count + 1)
  {
    assert IEND[1] != IHDR[1];
  }

  lemma OneLater(chunks: seq<Chunk>, count: nat)
    requires WellFormed(chunks, count) && |chunks| == 1 && MayStand(chunks[0], Print(chunks), count + 1)
    ensures WellFormed(chunks, count + 1)
  {}

  lemma TextStands(t: Chunk, s: seq<byte>, count: nat)
    requires t.typ == TEXT_TYPE && 0 < count < MAX_CHUNKS
    ensures MayStand(t, s, count) && t.typ != IEND
  {
    assert TEXT_TYPE[0] != IHDR[0] && TEXT_TYPE[0] != IEND[0];
  }

  lemma ConsStays(chunks: seq<Chunk>, count: nat, t: Chunk)
    requires WellFormed(chunks, count) && |chunks| > 1 && WellFormedChunk(t)
    requires WellFormed(Inserted(chunks[1..], t), count + 1)
    ensures WellFormed(Inserted(chunks, t), count)
  {
    var c, rest := chunks[0], chunks[1..];
    InsertCons(chunks, t);
    PrintCons(c, rest);
    if c.typ == IHDR { HeaderSurvives(c, rest, t); }
    WellFormedCons(c, Inserted(rest, t), count);
  }

  lemma {:induction false} InsertKeepsWellFormed(chunks: seq<Chunk>, count: nat, t: Chunk)
    requires WellFormed(chunks, count) && count + |chunks| < MAX_CHUNKS
    requires WellFormedChunk(t) && t.typ == TEXT_TYPE
    ensures WellFormed(Inserted(chunks, t), count)
    decreases |chunks|
  {
    if |chunks| == 1 {
      EndStays(chunks, count, t);
    } else {
      InsertKeepsWellFormed(chunks[1..], count + 1, t);
      ConsStays(chunks, count, t);
    }
  }

  /** The file that `uniquePng` makes of an accepted one. */
  function Unique(data: seq<byte>, nonce: seq<byte>): seq<byte>
    requires |data| >= 12
  {
    Spliced(data, TextChunk(nonce))
  }

  lemma InsertReads(s: seq<byte>, chunks: seq<Chunk>, t: Chunk)
    requires Reads(s, 0, chunks) && |chunks| < MAX_CHUNKS
    requires WellFormedChunk(t) && t.typ == TEXT_TYPE
    ensures |s| >= 12 && chunks != [] && Reads(Spliced(s, t), 0, Inserted(chunks, t))
  {
    ParsePrints(s, 0, chunks);
    ShapeOfList(chunks, 0);
    InsertPrints(chunks, t);
    InsertKeepsWellFormed(chunks, 0, t);
    PrintParses(Inserted(chunks, t), 0);
  }

  /**
   Any accepted file with fewer than 4096 chunks stays accepted, and its chunk list is the old
   one with the text chunk in front of the end chunk.
   */
  lemma UniqueIsAccepted(data: seq<byte>, chunks: seq<Chunk>, nonce: seq<byte>)
    requires |data| >= 8 && Reads(AfterSignature(data), 0, chunks)
    requires |chunks| < MAX_CHUNKS && |KEYWORD| + |nonce| <= MAX_BYTES
    ensures |data| >= 20 && chunks != []
    ensures Reads(AfterSignature(Unique(data, nonce)), 0, Inserted(chunks, TextChunk(nonce)))
    ensures Unique(data, nonce)[..8] == data[..8]
  {
    var t := TextChunk(nonce);
    InsertReads(AfterSignature(data), chunks, t);
    SpliceAfterSignature(data, t);
  }

  lemma SpliceAfterSignature(data: seq<byte>, t: Chunk)
    requires |data| >= 20
    ensures AfterSignature(Spliced(data, t)) == Spliced(data[8..], t) && Spliced(data, t)[..8] == data[..8]
  {}

  /** The nonce can be read back from its place. */
  lemma NonceIsReadBack(data: seq<byte>, nonce: seq<byte>)
    requires |data| >= 12
    ensures |Unique(data, nonce)| == |data| + 12 + |KEYWORD| + |nonce|
    ensures var at := |data| - 12 + 8 + |KEYWORD|; Unique(data, nonce)[at..at + |nonce|] == nonce
  {
    var p := PrintChunk(TextChunk(nonce));
    var n := 8 + |KEYWORD|;
    assert p[n..n + |nonce|] == nonce;
    assert Unique(data, nonce) == (data[..|data| - 12] + p) + data[|data| - 12..];
  }

  /** Distinct nonces give distinct files. */
  lemma NoncesAreDistinguished(data: seq<byte>, nonce: seq<byte>, nonce': seq<byte>)
    requires |data| >= 12 && nonce != nonce'
    ensures Unique(data, nonce) != Unique(data, nonce')
  {
    NonceIsReadBack(data, nonce);
    NonceIsReadBack(data, nonce');
  }

  // ---------------------------------------------------------------- the buffer code

  method Copy(target: array<byte>, source: seq<byte>, at: nat)
    requires at + |source| <= target.Length
    modifies target
    ensures target[..] == old(target[..at]) + source + old(target[at + |source|..])
  {
    for k := 0 to |source|
      invariant forall i | 0 <= i < target.Length ::
          target[i] == if at <= i < at + k then source[i - at] else old(target[i])
    {
      target[at + k] := source[k];
    }
  }

  function Zeros(n: nat): (s: seq<byte>)
    ensures |s| == n
  {
    seq(n, _ => 0)
  }

  /** Writes `source` behind what is there; the rest of the buffer is still zero. */
  method Append(target: array<byte>, ghost written: seq<byte>, source: seq<byte>, at: nat)
    requires at == |written| && at + |source| <= target.Length
    requires target[..] == written + Zeros(target.Length - at)
    modifies target
    ensures target[..] == written + source + Zeros(target.Length - at - |source|)
  {
    Copy(target, source, at);
    assert old(target[..at]) == old(target[..])[..at] == written;
    assert old(target[at + |source|..]) == old(target[..])[at + |source|..] == Zeros(target.Length - at - |source|);
  }

  /** Everything of the text chunk but its checksum. */
  function Head(text: seq<byte>): (s: seq<byte>)
    requires |text| < 0x1_0000_0000
    ensures |s| == 8 + |text|
  {
    Be32(|text|) + TEXT_TYPE + text
  }

  lemma HeadAndChecksum(nonce: seq<byte>)
    requires |KEYWORD| + |nonce| < 0x1_0000_0000
    ensures var text := KEYWORD + nonce;
            && Head(text)[4..] == TEXT_TYPE + text
            && Head(text) + Be32(Crc(TEXT_TYPE + text)) == PrintChunk(TextChunk(nonce))
  {}

  method WriteHead(chunk: array<byte>, text: seq<byte>)
    requires |text| < 0x1_0000_0000 && chunk.Length == 12 + |text|
    requires chunk[..] == Zeros(chunk.Length)
    modifies chunk
    ensures chunk[..] == Head(text) + Zeros(4)
  {
    assert [] + Zeros(chunk.Length) == Zeros(chunk.Length) && [] + Be32(|text|) == Be32(|text|);
    Append(chunk, [], Be32(|text|), 0);
    Append(chunk, Be32(|text|), TEXT_TYPE, 4);
    Append(chunk, Be32(|text|) + TEXT_TYPE, text, 8);
  }

  /** The text chunk, assembled in a buffer, checksum last. */
  method BuildChunk(nonce: seq<byte>) returns (chunk: array<byte>)
    requires |KEYWORD| + |nonce| < 0x1_0000_0000
    ensures fresh(chunk) && chunk[..] == PrintChunk(TextChunk(nonce))
  {
    var text := KEYWORD + nonce;
    chunk := new byte[12 + |text|](_ => 0);
    assert chunk[..] == Zeros(chunk.Length);
    WriteHead(chunk, text);
    HeadAndChecksum(nonce);
    var covered := chunk[4..chunk.Length - 4];
    assert covered == chunk[..][4..chunk.Length - 4] == Head(text)[4..];
    var crc := Compute(covered);
    Append(chunk, Head(text), Be32(crc), chunk.Length - 4);
    assert Zeros(0) == [];
  }

  /** None of the eight signature bytes starts an end type. */
  lemma SignatureHoldsNoEnd(data: seq<byte>)
    requires 8 <= |data| < 16 && data[..8] == SIGNATURE
    ensures data[|data| - 8..|data| - 4] != IEND
  {
    var k := |data| - 8;
    assert data[k] == data[..8][k] == SIGNATURE[k];
    assert SIGNATURE[k] != 73;
    assert data[k..k + 4][0] == data[k];
  }

  /** Refuses what does not look like a complete PNG; the slices from the end never run past the start. */
  method MakeUnique(data: seq<byte>, nonce: seq<byte>) returns (r: Option<seq<byte>>)
    requires |KEYWORD| + |nonce| < 0x1_0000_0000
    ensures r.Some? <==> |data| >= 16 && data[..8] == SIGNATURE && data[|data| - 8..|data| - 4] == IEND
    ensures r.Some? ==> r.value == Unique(data, nonce)
  {
    if |data| < 8 || data[..8] != SIGNATURE { return None; }
    if |data| < 16 { SignatureHoldsNoEnd(data); }
    if data[|data| - 8..|data| - 4] != IEND { return None; }
    var chunk := BuildChunk(nonce);
    var cut := |data| - 12;
    r := Some(data[..cut] + chunk[..] + data[cut..]);
  }
}
