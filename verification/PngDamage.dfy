/** The walker notices damage: one wrong byte under a checksum, anywhere in an accepted file, is refused. */
module PngDamage {
  import opened Prelude
  import opened Bytes
  import opened Crc32
  import opened Png

  /** Place `k` lies in the type, the contents or the checksum of one of the chunks, not in a length field. */
  predicate IsChecked(chunks: seq<Chunk>, k: nat) {
    && chunks != []
    && var size := 12 + |chunks[0].data|;
       4 <= k < size || (k >= size && IsChecked(chunks[1..], k - size))
  }

  lemma ChangedStretch(s: seq<byte>, k: nat, b: byte, i: nat, j: nat)
    requires k < |s| && i <= j <= |s|
    ensures s[k := b][i..j] == if i <= k < j then s[i..j][k - i := b] else s[i..j]
  {}

  lemma NumbersDiffer(s: seq<byte>, k: nat, b: byte)
    requires |s| == 4 && k < 4 && b != s[k]
    ensures FromBe32(s[k := b]) != FromBe32(s)
  {
    RoundTrip32(s, 0);
    RoundTrip32(s[k := b], 0);
    assert s[k := b][k] == b;
  }

  /** The covered bytes of the first chunk, and the checksum that stands behind them. */
  function Covered(s: seq<byte>): seq<byte>
    requires |s| >= 4 && 12 + FromBe32(s[..4]) <= |s|
  {
    s[4..8 + FromBe32(s[..4])]
  }

  function Checksum(s: seq<byte>): seq<byte>
    requires |s| >= 4 && 12 + FromBe32(s[..4]) <= |s|
  {
    s[8 + FromBe32(s[..4])..12 + FromBe32(s[..4])]
  }

  lemma FrameMeans(s: seq<byte>)
    requires |s| >= 12 && 12 + FromBe32(s[..4]) <= |s| && FromBe32(s[..4]) <= MAX_BYTES
    ensures FrameRefusal(s) == if Crc(Covered(s)) != FromBe32(Checksum(s)) then Some(BadCrc) else None
  {}

  lemma ChangedFrame(s: seq<byte>, k: nat, b: byte)
    requires FrameRefusal(s) == None && 4 <= k < |s|
    ensures var t, n := s[k := b], FromBe32(s[..4]);
            && FromBe32(t[..4]) == n
            && Covered(t) == (if k < 8 + n then Covered(s)[k - 4 := b] else Covered(s))
            && Checksum(t) == if 8 + n <= k < 12 + n then Checksum(s)[k - 8 - n := b] else Checksum(s)
  {
    var n := FromBe32(s[..4]);
    ChangedStretch(s, k, b, 0, 4);
    ChangedStretch(s, k, b, 4, 8 + n);
    ChangedStretch(s, k, b, 8 + n, 12 + n);
  }

  /** In the first chunk: what is covered no longer has the checksum that stands there. */
  lemma FirstIsRefused(s: seq<byte>, k: nat, b: byte)
    requires FrameRefusal(s) == None && 4 <= k < 12 + FromBe32(s[..4]) && b != s[k]
    ensures FrameRefusal(s[k := b]) == Some(BadCrc)
  {
    var n := FromBe32(s[..4]);
    FrameMeans(s);
    ChangedFrame(s, k, b);
    FrameMeans(s[k := b]);
    if k < 8 + n {
      WrongByteChangesChecksum(Covered(s), k - 4, b);
    } else {
      NumbersDiffer(Checksum(s), k - 8 - n, b);
    }
  }

  /** Behind the first chunk: it is read as before, and the rest has the wrong byte. */
  lemma FirstIsSame(s: seq<byte>, k: nat, b: byte)
    requires FrameRefusal(s) == None && 12 + FromBe32(s[..4]) <= k < |s|
    ensures var t, n := s[k := b], FromBe32(s[..4]);
            && FrameRefusal(t) == None && First(t) == First(s) && FromBe32(t[..4]) == n
            && t[12 + n..] == s[12 + n..][k - 12 - n := b]
  {
    var n := FromBe32(s[..4]);
    FrameMeans(s);
    ChangedFrame(s, k, b);
    FrameMeans(s[k := b]);
    ChangedStretch(s, k, b, 4, 8);
    ChangedStretch(s, k, b, 8, 8 + n);
    ChangedStretch(s, k, b, 12 + n, |s|);
  }

  /** When the rest behind the first chunk is refused, so is the whole. */
  lemma RestIsRefused(s: seq<byte>, count: nat, k: nat, b: byte)
    requires Refusal(s, count) == None && First(s).typ != IEND
    requires var size := 12 + |First(s).data|;
             size <= k < |s| && Parse(s[size..][k - size := b], count + 1).Err?
    ensures Parse(s[k := b], count).Err?
  {
    FirstIsSame(s, k, b);
  }

  lemma {:induction false} WrongByteIsRefused(s: seq<byte>, count: nat, chunks: seq<Chunk>, k: nat, b: byte)
    requires Reads(s, count, chunks) && IsChecked(chunks, k) && k < |s| && b != s[k]
    ensures Parse(s[k := b], count).Err?
    decreases |chunks|
  {
    var size := 12 + |chunks[0].data|;
    ReadsFirst(s, count, chunks);
    if k < size {
      FirstIsRefused(s, k, b);
    } else {
      WrongByteIsRefused(s[size..], count + 1, chunks[1..], k - size, b);
      RestIsRefused(s, count, k, b);
    }
  }

  /** An accepted file with one byte of a chunk's type, contents or checksum changed is refused. */
  lemma DamagedFileIsRefused(data: seq<byte>, chunks: seq<Chunk>, k: nat, b: byte)
    requires |data| >= 8 && Reads(AfterSignature(data), 0, chunks)
    requires IsChecked(chunks, k) && 8 + k < |data| && b != data[8 + k]
    ensures Verdict(Parse(AfterSignature(data[8 + k := b]), 0)).Some?
  {
    WrongByteIsRefused(AfterSignature(data), 0, chunks, k, b);
    assert AfterSignature(data[8 + k := b]) == AfterSignature(data)[k := b];
  }
}
