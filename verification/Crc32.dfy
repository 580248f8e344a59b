/** The CRC-32 of the PNG format, section 5.5 of the W3C PNG specification. */
module Crc32 {
  import opened Bytes
  import opened Words

  const POLYNOMIAL: bv32 := 0xedb8_8320
  const ONES: bv32 := 0xffff_ffff

  function Bit(crc: bv32): bv32 {
    (crc >> 1) ^ (if crc & 1 == 1 then POLYNOMIAL else 0)
  }

  function Bits(crc: bv32, n: nat): bv32 {
    if n == 0 then crc else Bit(Bits(crc, n - 1))
  }

  function Mix(crc: bv32, b: byte): bv32 {
    crc ^ (Octet(b) as bv32)
  }

  /** The register after all bytes. */
  function Register(s: seq<byte>): bv32 {
    if s == [] then ONES else Bits(Mix(Register(s[..|s| - 1]), s[|s| - 1]), 8)
  }

  function Crc(s: seq<byte>): (n: int)
    ensures 0 <= n < 0x1_0000_0000
  {
    (Register(s) ^ ONES) as int
  }

  method Shift(crc: bv32) returns (r: bv32)
    ensures r == Bit(crc)
  {
    r := (crc >> 1) ^ (if crc & 1 == 1 then POLYNOMIAL else 0);
  }

  /** Eight shifts for each byte. */
  method Feed(crc: bv32, value: byte) returns (r: bv32)
    ensures r == Bits(Mix(crc, value), 8)
  {
    r := Mix(crc, value);
    for i := 0 to 8
      invariant r == Bits(Mix(crc, value), i)
    {
      r := Shift(r);
    }
  }

  method Compute(s: seq<byte>) returns (n: int)
    ensures n == Crc(s)
  {
    var crc := ONES;
    assert s[..0] == [];
    for k := 0 to |s|
      invariant crc == Register(s[..k])
    {
      assert s[..k + 1][..k] == s[..k];
      crc := Feed(crc, s[k]);
    }
    assert s[..|s|] == s;
    n := (crc ^ ONES) as int;
  }

  // ---------------------------------------------------------------- the right checksum

  lemma EightBits(crc: bv32)
    ensures Bits(crc, 8) == Bit(Bit(Bit(Bit(Bit(Bit(Bit(Bit(crc))))))))
  {
    assert Bits(crc, 1) == Bit(Bits(crc, 0)) && Bits(crc, 2) == Bit(Bits(crc, 1));
    assert Bits(crc, 3) == Bit(Bits(crc, 2)) && Bits(crc, 4) == Bit(Bits(crc, 3));
    assert Bits(crc, 5) == Bit(Bits(crc, 4)) && Bits(crc, 6) == Bit(Bits(crc, 5));
    assert Bits(crc, 7) == Bit(Bits(crc, 6)) && Bits(crc, 8) == Bit(Bits(crc, 7));
  }

  lemma RegisterNext(s: seq<byte>, b: byte)
    ensures Register(s + [b]) == Bits(Mix(Register(s), b), 8)
  {
    assert (s + [b])[..|s|] == s;
  }

  lemma FourBytes()
    ensures Bits(0xffff_ffb6, 8) == 0x22fd_e946 && Bits(0x22fd_e903, 8) == 0x992b_ac53
    ensures Bits(0x992b_ac1d, 8) == 0x639f_4775 && Bits(0x639f_4731, 8) == 0x51bd_9f7d
  {
    EightBits(0xffff_ffb6);
    EightBits(0x22fd_e903);
    EightBits(0x992b_ac1d);
    EightBits(0x639f_4731);
  }

  lemma FourMixes()
    ensures Mix(ONES, 73) == 0xffff_ffb6 && Mix(0x22fd_e946, 69) == 0x22fd_e903
    ensures Mix(0x992b_ac53, 78) == 0x992b_ac1d && Mix(0x639f_4775, 68) == 0x639f_4731
  {
    OctetIs(73, 0x49);
    OctetIs(69, 0x45);
    OctetIs(78, 0x4e);
    OctetIs(68, 0x44);
  }

  /** Every complete PNG file ends in the four bytes 174, 66, 96, 130: the checksum of an empty end chunk. */
  lemma ChecksumOfEnd()
    ensures Crc([73, 69, 78, 68]) == 0xae42_6082
  {
    FourBytes();
    FourMixes();
    RegisterNext([], 73);
    RegisterNext([73], 69);
    RegisterNext([73, 69], 78);
    RegisterNext([73, 69, 78], 68);
    assert [] + [73] == [73] && [73] + [69] == [73, 69] && [73, 69] + [78] == [73, 69, 78];
    assert [73, 69, 78] + [68] == [73, 69, 78, 68];
    assert 0x51bd_9f7d as bv32 ^ ONES == 0xae42_6082;
  }

  // ---------------------------------------------------------------- one wrong byte

  lemma BitIsInjective(a: bv32, b: bv32)
    requires Bit(a) == Bit(b)
    ensures a == b
  {}

  lemma {:induction false} BitsAreInjective(a: bv32, b: bv32, n: nat)
    requires Bits(a, n) == Bits(b, n)
    ensures a == b
  {
    if n > 0 {
      BitIsInjective(Bits(a, n - 1), Bits(b, n - 1));
      BitsAreInjective(a, b, n - 1);
    }
  }

  lemma MixTellsBytes(crc: bv32, a: byte, b: byte)
    requires Mix(crc, a) == Mix(crc, b)
    ensures a == b
  {
    XorCancels(crc, Octet(a) as bv32);
    XorCancels(crc, Octet(b) as bv32);
    WidenedApart(Octet(a), Octet(b));
  }

  lemma MixTellsRegisters(a: bv32, b: bv32, value: byte)
    requires Mix(a, value) == Mix(b, value)
    ensures a == b
  {
    XorCancels(a, Octet(value) as bv32);
    XorCancels(b, Octet(value) as bv32);
  }

  /** Feeding a byte into a register can be undone when either is known. */
  lemma FeedTells(r: bv32, x: byte, w: bv32, y: byte)
    requires Bits(Mix(r, x), 8) == Bits(Mix(w, y), 8)
    ensures (r == w ==> x == y) && (x == y ==> r == w)
  {
    BitsAreInjective(Mix(r, x), Mix(w, y), 8);
    if r == w { MixTellsBytes(r, x, y); }
    if x == y { MixTellsRegisters(r, w, x); }
  }

  lemma {:induction false} WrongByteChangesRegister(s: seq<byte>, k: nat, b: byte)
    requires k < |s| && b != s[k]
    ensures Register(s[k := b]) != Register(s)
  {
    var n, t := |s| - 1, s[k := b];
    if k == n {
      assert t[..n] == s[..n];
    } else {
      assert t[..n] == s[..n][k := b];
      WrongByteChangesRegister(s[..n], k, b);
    }
    var r, w := Register(s[..n]), Register(t[..n]);
    if Bits(Mix(r, s[n]), 8) == Bits(Mix(w, t[n]), 8) { FeedTells(r, s[n], w, t[n]); }
  }

  lemma SameChecksum(s: seq<byte>, t: seq<byte>)
    requires Crc(s) == Crc(t)
    ensures Register(s) == Register(t)
  {
    SameInteger(Register(s) ^ ONES, Register(t) ^ ONES);
    XorCancels(Register(s), ONES);
    XorCancels(Register(t), ONES);
  }

  /** Changing any one of the covered bytes changes the checksum. */
  lemma WrongByteChangesChecksum(s: seq<byte>, k: nat, b: byte)
    requires k < |s| && b != s[k]
    ensures Crc(s[k := b]) != Crc(s)
  {
    WrongByteChangesRegister(s, k, b);
    if Crc(s[k := b]) == Crc(s) { SameChecksum(s[k := b], s); }
  }
}
