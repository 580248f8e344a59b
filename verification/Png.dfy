/** The PNG walker against a grammar of chunk lists with a printer. */
module Png {
  import opened Prelude
  import opened Bytes
  import opened Crc32

  const MAX_BYTES := 5 * 1024 * 1024
  const MAX_PIXELS := 16_000_000
  const MAX_SIDE := 6000
  const MAX_CHUNKS := 4096

  const IHDR: seq<byte> := [73, 72, 68, 82]
  const IEND: seq<byte> := [73, 69, 78, 68]

  datatype Reason =
    | ChunkBounds | BadCrc | ChunkLimit | BadHeader | DimensionLimit | ParserError | TrailingData | Incomplete

  /** The dimension gate shared with the other walkers. */
  predicate Dimensions(w: int, h: int) {
    0 < w <= MAX_SIDE && 0 < h <= MAX_SIDE && w * h <= MAX_PIXELS
  }

  datatype Chunk = Chunk(typ: seq<byte>, data: seq<byte>)

  // ---------------------------------------------------------------- grammar

  predicate WellFormedChunk(c: Chunk) {
    |c.typ| == 4 && |c.data| <= MAX_BYTES
  }

  /** Length, type, contents and checksum; a length that does not fit prints as zero. */
  function PrintChunk(c: Chunk): (s: seq<byte>)
    ensures |s| == 8 + |c.typ| + |c.data|
  {
    Be32(if |c.data| < 0x1_0000_0000 then |c.data| else 0) + c.typ + c.data + Be32(Crc(c.typ + c.data))
  }

  function Print(chunks: seq<Chunk>): seq<byte> {
    if chunks == [] then [] else PrintChunk(chunks[0]) + Print(chunks[1..])
  }

  /** The walker takes the size of a header chunk from the eight bytes after its type, wherever the chunk ends. */
  predicate HeaderOk(s: seq<byte>) {
    |s| >= 16 && Dimensions(FromBe32(s[8..12]), FromBe32(s[12..16]))
  }

  /** `c` may stand first in `s` after `count` other chunks: a sized header first, every header within limits. */
  predicate MayStand(c: Chunk, s: seq<byte>, count: nat) {
    && count < MAX_CHUNKS
    && (count == 0 ==> c.typ == IHDR && |c.data| == 13)
    && (c.typ == IHDR ==> HeaderOk(s))
    && (c.typ == IEND ==> c.data == [])
  }

  /** A chunk list after `count` other chunks: an empty end chunk comes last and nowhere else. */
  predicate WellFormed(chunks: seq<Chunk>, count: nat) {
    && chunks != [] && WellFormedChunk(chunks[0])
    && MayStand(chunks[0], Print(chunks), count)
    && (chunks[0].typ == IEND <==> |chunks| == 1)
    && (|chunks| > 1 ==> WellFormed(chunks[1..], count + 1))
  }

  // ---------------------------------------------------------------- the walker, one chunk at a time

  /** None when the first chunk of `s` is complete and its checksum is right. */
  function FrameRefusal(s: seq<byte>): (r: Option<Reason>)
    ensures r == None ==> |s| >= 12 && 12 + FromBe32(s[..4]) <= |s|
  {
    if |s| < 12 then Some(Incomplete)
    else
      var n := FromBe32(s[..4]);
      if 12 + n > |s| || n > MAX_BYTES then Some(ChunkBounds)
      else if Crc(s[4..8 + n]) != FromBe32(s[8 + n..12 + n]) then Some(BadCrc)
      else None
  }

  /** None when a complete chunk may stand where it does. */
  function TypeRefusal(s: seq<byte>, count: nat): Option<Reason>
    requires |s| >= 12
  {
    var n := FromBe32(s[..4]);
    if count + 1 > MAX_CHUNKS then Some(ChunkLimit)
    else if count == 0 && (s[4..8] != IHDR || n != 13) then Some(BadHeader)
    else if s[4..8] == IHDR && |s| < 16 then Some(ParserError)
    else if s[4..8] == IHDR && !HeaderOk(s) then Some(DimensionLimit)
    else if s[4..8] == IEND && (n != 0 || 12 + n != |s|) then Some(TrailingData)
    else None
  }

  /** None when the first chunk of `s` passes every check. */
  function Refusal(s: seq<byte>, count: nat): (r: Option<Reason>)
    ensures r == None ==> |s| >= 12 && 12 + FromBe32(s[..4]) <= |s|
  {
    var frame := FrameRefusal(s);
    if frame.Some? then frame else TypeRefusal(s, count)
  }

  function First(s: seq<byte>): Chunk
    requires |s| >= 12 && 12 + FromBe32(s[..4]) <= |s|
  {
    Chunk(s[4..8], s[8..8 + FromBe32(s[..4])])
  }

  function Parse(s: seq<byte>, count: nat): Result<seq<Chunk>, Reason>
    decreases |s|
  {
    var refusal := Refusal(s, count);
    if refusal.Some? then Err(refusal.value)
    else
      var c := First(s);
      if c.typ == IEND then Ok([c])
      else
        match Parse(s[12 + |c.data|..], count + 1)
        case Ok(chunks) => Ok([c] + chunks)
        case Err(reason) => Err(reason)
  }

  /** Cutting off the first chunk and printing it again gives the same bytes. */
  lemma FirstPrints(s: seq<byte>, count: nat)
    requires Refusal(s, count) == None
    ensures var c := First(s); WellFormedChunk(c) && PrintChunk(c) + s[12 + |c.data|..] == s
  {
    var n := FromBe32(s[..4]);
    var c := First(s);
    RoundTrip32(s[..4], n);
    RoundTrip32(s[8 + n..12 + n], Crc(s[4..8 + n]));
    assert c.typ + c.data == s[4..8 + n];
    assert s == s[..4] + s[4..8] + s[8..8 + n] + s[8 + n..12 + n] + s[12 + n..];
  }

  /** The first chunk of a print is read back and passes the checks that concern it alone. */
  lemma FirstReads(c: Chunk, rest: seq<byte>)
    requires WellFormedChunk(c)
    ensures var s := PrintChunk(c) + rest;
            && |s| >= 12 && FromBe32(s[..4]) == |c.data| && 12 + |c.data| <= |s|
            && First(s) == c && s[12 + |c.data|..] == rest
            && Crc(s[4..8 + |c.data|]) == FromBe32(s[8 + |c.data|..12 + |c.data|])
  {
    var s, n := PrintChunk(c) + rest, |c.data|;
    RoundTrip32(Be32(n), n);
    RoundTrip32(Be32(Crc(c.typ + c.data)), Crc(c.typ + c.data));
    assert s[..4] == Be32(n) && s[4..8] == c.typ && s[8..8 + n] == c.data;
    assert s[4..8 + n] == c.typ + c.data;
    assert s[8 + n..12 + n] == Be32(Crc(c.typ + c.data));
  }

  /** The walker's checks are exactly the grammar's conditions on the first chunk. */
  lemma RefusalMeans(c: Chunk, rest: seq<byte>, count: nat)
    requires WellFormedChunk(c)
    ensures var s := PrintChunk(c) + rest;
            Refusal(s, count) == None <==> MayStand(c, s, count) && (c.typ == IEND ==> rest == [])
  {
    FirstReads(c, rest);
    var s := PrintChunk(c) + rest;
    assert c.typ == s[4..8];
  }

  lemma PrintCons(c: Chunk, chunks: seq<Chunk>)
    ensures Print([c] + chunks) == PrintChunk(c) + Print(chunks)
  {
    assert ([c] + chunks)[1..] == chunks;
  }

  predicate Reads(s: seq<byte>, count: nat, chunks: seq<Chunk>) {
    Parse(s, count) == Ok(chunks)
  }

  lemma ReadLast(c: Chunk, count: nat)
    requires WellFormedChunk(c) && c.typ == IEND && Refusal(PrintChunk(c), count) == None
    ensures Reads(PrintChunk(c), count, [c])
  {
    FirstReads(c, []);
    assert PrintChunk(c) + [] == PrintChunk(c);
  }

  lemma ReadCons(c: Chunk, rest: seq<byte>, count: nat, chunks: seq<Chunk>)
    requires WellFormedChunk(c) && c.typ != IEND && Refusal(PrintChunk(c) + rest, count) == None
    requires Reads(rest, count + 1, chunks)
    ensures Reads(PrintChunk(c) + rest, count, [c] + chunks)
  {
    FirstReads(c, rest);
  }

  lemma WellFormedOne(c: Chunk, count: nat)
    requires WellFormedChunk(c) && c.typ == IEND && MayStand(c, PrintChunk(c), count)
    ensures WellFormed([c], count) && Print([c]) == PrintChunk(c)
  {
    PrintCons(c, []);
    assert [c] + [] == [c] && PrintChunk(c) + [] == PrintChunk(c);
  }

  lemma WellFormedCons(c: Chunk, chunks: seq<Chunk>, count: nat)
    requires WellFormed(chunks, count + 1) && WellFormedChunk(c) && c.typ != IEND
    requires MayStand(c, PrintChunk(c) + Print(chunks), count)
    ensures WellFormed([c] + chunks, count) && Print([c] + chunks) == PrintChunk(c) + Print(chunks)
  {
    PrintCons(c, chunks);
    assert ([c] + chunks)[1..] == chunks;
  }

  /** What reading a list says about its first chunk and the rest. */
  lemma ReadsFirst(s: seq<byte>, count: nat, chunks: seq<Chunk>)
    requires Reads(s, count, chunks)
    ensures Refusal(s, count) == None && chunks != [] && chunks == [First(s)] + chunks[1..]
    ensures if First(s).typ == IEND then chunks == [First(s)]
            else Reads(s[12 + |First(s).data|..], count + 1, chunks[1..])
  {}

  lemma LastPrints(s: seq<byte>, count: nat)
    requires Refusal(s, count) == None && First(s).typ == IEND
    ensures WellFormed([First(s)], count) && Print([First(s)]) == s
  {
    var c := First(s);
    FirstPrints(s, count);
    RefusalMeans(c, s[12 + |c.data|..], count);
    assert PrintChunk(c) + [] == PrintChunk(c);
    WellFormedOne(c, count);
  }

  lemma NextPrints(s: seq<byte>, count: nat, chunks: seq<Chunk>)
    requires Refusal(s, count) == None && First(s).typ != IEND
    requires WellFormed(chunks, count + 1) && Print(chunks) == s[12 + |First(s).data|..]
    ensures WellFormed([First(s)] + chunks, count) && Print([First(s)] + chunks) == s
  {
    var c := First(s);
    FirstPrints(s, count);
    RefusalMeans(c, s[12 + |c.data|..], count);
    WellFormedCons(c, chunks, count);
  }

  /** Soundness: accepted data is the print of the chunks that were read. */
  lemma {:induction false} ParsePrints(s: seq<byte>, count: nat, chunks: seq<Chunk>)
    requires Reads(s, count, chunks)
    ensures WellFormed(chunks, count) && Print(chunks) == s
    decreases |s|
  {
    ReadsFirst(s, count, chunks);
    if First(s).typ == IEND {
      LastPrints(s, count);
    } else {
      ParsePrints(s[12 + |First(s).data|..], count + 1, chunks[1..]);
      NextPrints(s, count, chunks[1..]);
    }
  }

  lemma PrintSingle(chunks: seq<Chunk>)
    requires |chunks| == 1
    ensures chunks == [chunks[0]] && Print(chunks) == PrintChunk(chunks[0])
  {
    var c := chunks[0];
    PrintCons(c, []);
    assert chunks == [c] == [c] + [] && PrintChunk(c) + [] == PrintChunk(c);
  }

  lemma EndIsEmpty(chunks: seq<Chunk>, count: nat)
    requires WellFormed(chunks, count) && |chunks| == 1
    ensures chunks[0] == Chunk(IEND, []) && count < MAX_CHUNKS && MayStand(chunks[0], Print(chunks), count)
  {}

  /** A list that ends here is one end chunk. */
  lemma WellFormedEnd(chunks: seq<Chunk>, count: nat)
    requires WellFormed(chunks, count) && |chunks| == 1
    ensures chunks == [chunks[0]] && chunks[0] == Chunk(IEND, []) && count < MAX_CHUNKS
    ensures Print(chunks) == PrintChunk(chunks[0]) && MayStand(chunks[0], PrintChunk(chunks[0]), count)
  {
    EndIsEmpty(chunks, count);
    PrintSingle(chunks);
  }

  /** A list that goes on is a chunk and a list. */
  lemma WellFormedTail(chunks: seq<Chunk>, count: nat)
    requires WellFormed(chunks, count) && |chunks| > 1
    ensures chunks == [chunks[0]] + chunks[1..] && WellFormedChunk(chunks[0]) && chunks[0].typ != IEND
    ensures Print(chunks) == PrintChunk(chunks[0]) + Print(chunks[1..]) && MayStand(chunks[0], Print(chunks), count)
    ensures WellFormed(chunks[1..], count + 1)
  {
    PrintCons(chunks[0], chunks[1..]);
  }

  lemma OneChunkParses(c: Chunk, count: nat)
    requires WellFormedChunk(c) && c.typ == IEND && MayStand(c, PrintChunk(c), count)
    ensures Reads(PrintChunk(c), count, [c])
  {
    assert PrintChunk(c) + [] == PrintChunk(c);
    RefusalMeans(c, [], count);
    ReadLast(c, count);
  }

  lemma OneParses(chunks: seq<Chunk>, count: nat)
    requires WellFormed(chunks, count) && |chunks| == 1
    ensures Reads(Print(chunks), count, chunks)
  {
    WellFormedEnd(chunks, count);
    OneChunkParses(chunks[0], count);
  }

  lemma OneMoreParses(c: Chunk, rest: seq<byte>, count: nat, chunks: seq<Chunk>)
    requires WellFormedChunk(c) && c.typ != IEND && MayStand(c, PrintChunk(c) + rest, count)
    requires Reads(rest, count + 1, chunks)
    ensures Reads(PrintChunk(c) + rest, count, [c] + chunks)
  {
    RefusalMeans(c, rest, count);
    ReadCons(c, rest, count, chunks);
  }

  lemma ConsParses(chunks: seq<Chunk>, count: nat)
    requires WellFormed(chunks, count) && |chunks| > 1
    requires Reads(Print(chunks[1..]), count + 1, chunks[1..])
    ensures Reads(Print(chunks), count, chunks)
  {
    WellFormedTail(chunks, count);
    OneMoreParses(chunks[0], Print(chunks[1..]), count, chunks[1..]);
  }

  /** Completeness: every print of a well-formed list is accepted, and the very list is read back. */
  lemma {:induction false} PrintParses(chunks: seq<Chunk>, count: nat)
    requires WellFormed(chunks, count)
    ensures Reads(Print(chunks), count, chunks)
    decreases |chunks|
  {
    if |chunks| == 1 {
      OneParses(chunks, count);
    } else {
      PrintParses(chunks[1..], count + 1);
      ConsParses(chunks, count);
    }
  }

  /** The walk accepts exactly the prints of chunk lists, and the list is unique. */
  lemma AcceptsExactlyPrints(s: seq<byte>, chunks: seq<Chunk>)
    ensures Parse(s, 0) == Ok(chunks) <==> WellFormed(chunks, 0) && Print(chunks) == s
  {
    if Parse(s, 0) == Ok(chunks) { ParsePrints(s, 0, chunks); }
    if WellFormed(chunks, 0) && Print(chunks) == s { PrintParses(chunks, 0); }
  }

  /** At most 4096 chunks in all, an end chunk last and nowhere else. */
  ghost predicate Shape(chunks: seq<Chunk>, count: nat) {
    && chunks != [] && count + |chunks| <= MAX_CHUNKS
    && chunks[|chunks| - 1] == Chunk(IEND, []) && NoEndBefore(chunks)
  }

  lemma ShapeCons(c: Chunk, chunks: seq<Chunk>, count: nat)
    requires Shape(chunks, count + 1) && c.typ != IEND
    ensures Shape([c] + chunks, count)
  {}

  lemma ShapeEnd(chunks: seq<Chunk>, count: nat)
    requires WellFormed(chunks, count) && |chunks| == 1
    ensures Shape(chunks, count)
  {
    WellFormedEnd(chunks, count);
  }

  lemma ShapeGoesOn(chunks: seq<Chunk>, count: nat)
    requires WellFormed(chunks, count) && |chunks| > 1 && Shape(chunks[1..], count + 1)
    ensures Shape(chunks, count)
  {
    WellFormedTail(chunks, count);
    ShapeCons(chunks[0], chunks[1..], count);
  }

  lemma {:induction false} ListHasShape(chunks: seq<Chunk>, count: nat)
    requires WellFormed(chunks, count)
    ensures Shape(chunks, count)
    decreases |chunks|
  {
    if |chunks| == 1 {
      ShapeEnd(chunks, count);
    } else {
      ListHasShape(chunks[1..], count + 1);
      ShapeGoesOn(chunks, count);
    }
  }

  /** What the recursive grammar says about a whole file. */
  lemma ShapeOfList(chunks: seq<Chunk>, count: nat)
    requires WellFormed(chunks, count)
    ensures chunks != [] && count + |chunks| <= MAX_CHUNKS
    ensures chunks[|chunks| - 1] == Chunk(IEND, []) && NoEndBefore(chunks)
  {
    ListHasShape(chunks, count);
  }

  /** A whole file starts with a header of 13 bytes, whose first eight are a width and a height within limits. */
  lemma HeaderOfList(chunks: seq<Chunk>)
    requires WellFormed(chunks, 0)
    ensures chunks[0].typ == [73, 72, 68, 82] && |chunks[0].data| == 13
    ensures var w, h := BigEndian(chunks[0].data[..4]), BigEndian(chunks[0].data[4..8]);
            0 < w <= 6000 && 0 < h <= 6000 && w * h <= 16_000_000
  {
    var c, s := chunks[0], Print(chunks);
    assert MayStand(c, s, 0);
    SizesInPrint(c, Print(chunks[1..]));
    FromBe32IsBigEndian(s[8..12]);
    FromBe32IsBigEndian(s[12..16]);
  }

  lemma SizesInPrint(c: Chunk, rest: seq<byte>)
    requires WellFormedChunk(c) && |c.data| >= 8
    ensures var s := PrintChunk(c) + rest; |s| >= 16 && s[8..12] == c.data[..4] && s[12..16] == c.data[4..8]
  {
    var s := PrintChunk(c) + rest;
    assert s[8..16] == c.data[..8];
    assert s[8..12] == s[8..16][..4] && s[12..16] == s[8..16][4..];
  }

  /** No chunk but the last is an end chunk. */
  ghost predicate NoEndBefore(chunks: seq<Chunk>) {
    forall k | 0 <= k < |chunks| - 1 :: chunks[k].typ != IEND
  }

  // ---------------------------------------------------------------- the loop

  function AfterSignature(data: seq<byte>): seq<byte> {
    if |data| < 8 then [] else data[8..]
  }

  function Verdict(r: Result<seq<Chunk>, Reason>): Option<Reason> {
    match r case Ok(_) => None case Err(reason) => Some(reason)
  }

  function From(data: seq<byte>, pos: nat, count: nat): Option<Reason> {
    if pos <= |data| then Verdict(Parse(data[pos..], count)) else Some(Incomplete)
  }

  method CheckFrame(data: seq<byte>, pos: nat) returns (refusal: Option<Reason>)
    requires pos + 12 <= |data|
    ensures refusal == FrameRefusal(data[pos..])
  {
    ghost var s := data[pos..];
    assert s[..4] == data[pos..pos + 4];
    var n := FromBe32(data[pos..pos + 4]);
    var end := pos + 12 + n;
    if end > |data| || n > MAX_BYTES { return Some(ChunkBounds); }
    assert s[4..8 + n] == data[pos + 4..pos + 8 + n] && s[8 + n..12 + n] == data[pos + 8 + n..end];
    var crc := Compute(data[pos + 4..pos + 8 + n]);
    refusal := if crc != FromBe32(data[pos + 8 + n..end]) then Some(BadCrc) else None;
  }

  method CheckType(data: seq<byte>, pos: nat, count: nat) returns (refusal: Option<Reason>)
    requires pos + 12 <= |data|
    ensures refusal == TypeRefusal(data[pos..], count)
  {
    ghost var s := data[pos..];
    assert s[..4] == data[pos..pos + 4] && s[4..8] == data[pos + 4..pos + 8];
    var n := FromBe32(data[pos..pos + 4]);
    var typ := data[pos + 4..pos + 8];
    if count + 1 > MAX_CHUNKS { return Some(ChunkLimit); }
    if count == 0 && (typ != IHDR || n != 13) { return Some(BadHeader); }
    if typ == IHDR {
      if |data| < pos + 16 { return Some(ParserError); }
      assert s[8..12] == data[pos + 8..pos + 12] && s[12..16] == data[pos + 12..pos + 16];
      if !Dimensions(FromBe32(data[pos + 8..pos + 12]), FromBe32(data[pos + 12..pos + 16])) {
        return Some(DimensionLimit);
      }
    }
    if typ == IEND && (n != 0 || pos + 12 + n != |data|) { return Some(TrailingData); }
    refusal := None;
  }

  /** The checks of one chunk, in the walker's order. */
  method Check(data: seq<byte>, pos: nat, count: nat) returns (refusal: Option<Reason>)
    requires pos + 12 <= |data|
    ensures refusal == Refusal(data[pos..], count)
  {
    refusal := CheckFrame(data, pos);
    if refusal == None { refusal := CheckType(data, pos, count); }
  }

  /** One round: refused, finished, or on to the next chunk, strictly further. */
  datatype Turn = Halt(refusal: Option<Reason>) | Go(pos: nat)

  method Round(data: seq<byte>, pos: nat, count: nat) returns (turn: Turn)
    requires pos + 12 <= |data|
    ensures turn.Halt? ==> From(data, pos, count) == turn.refusal
    ensures turn.Go? ==> pos < turn.pos <= |data| && From(data, pos, count) == From(data, turn.pos, count + 1)
  {
    var refusal := Check(data, pos, count);
    if refusal.Some? { return Halt(refusal); }
    ghost var s := data[pos..];
    assert s[4..8] == data[pos + 4..pos + 8] && s[..4] == data[pos..pos + 4];
    if data[pos + 4..pos + 8] == IEND { return Halt(None); }
    var next := pos + 12 + FromBe32(data[pos..pos + 4]);
    assert s[12 + FromBe32(s[..4])..] == data[next..];
    turn := Go(next);
  }

  /** None when the data is accepted, else the reason of the refusal. */
  method PngStructure(data: seq<byte>) returns (refusal: Option<Reason>)
    ensures refusal == Verdict(Parse(AfterSignature(data), 0))
    ensures refusal == None <==> exists chunks :: WellFormed(chunks, 0) && Print(chunks) == AfterSignature(data)
  {
    refusal := Walk(data);
    var s := AfterSignature(data);
    if refusal == None {
      AcceptsExactlyPrints(s, Parse(s, 0).value);
    } else {
      forall chunks ensures !(WellFormed(chunks, 0) && Print(chunks) == s) { AcceptsExactlyPrints(s, chunks); }
    }
  }

  method Walk(data: seq<byte>) returns (refusal: Option<Reason>)
    ensures refusal == Verdict(Parse(AfterSignature(data), 0))
  {
    var pos, chunks := 8, 0;
    while pos + 12 <= |data|
      invariant From(data, 8, 0) == From(data, pos, chunks)
      decreases |data| - pos
    {
      var turn := Round(data, pos, chunks);
      if turn.Halt? { return turn.refusal; }
      pos, chunks := turn.pos, chunks + 1;
    }
    refusal := Some(Incomplete);
  }
}
