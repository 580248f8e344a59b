/** Bytes and big-endian integers. */
module Bytes {
  type byte = x: int | 0 <= x < 256

  function Be16(n: int): (s: seq<byte>)
    requires 0 <= n < 0x1_0000
    ensures |s| == 2
  {
    [n / 256, n % 256]
  }

  function FromBe16(s: seq<byte>): (n: int)
    requires |s| == 2
    ensures 0 <= n < 0x1_0000
  {
    var hi: int := s[0];
    hi * 256 + s[1]
  }

  lemma RoundTrip16(s: seq<byte>, n: int)
    requires |s| == 2 && 0 <= n < 0x1_0000
    ensures FromBe16(Be16(n)) == n && Be16(FromBe16(s)) == s
  {}

  function Be32(n: int): (s: seq<byte>)
    requires 0 <= n < 0x1_0000_0000
    ensures |s| == 4
  {
    Be16(n / 0x1_0000) + Be16(n % 0x1_0000)
  }

  function FromBe32(s: seq<byte>): (n: int)
    requires |s| == 4
    ensures 0 <= n < 0x1_0000_0000
  {
    FromBe16(s[..2]) * 0x1_0000 + FromBe16(s[2..])
  }

  lemma RoundTrip32(s: seq<byte>, n: int)
    requires |s| == 4 && 0 <= n < 0x1_0000_0000
    ensures FromBe32(Be32(n)) == n && Be32(FromBe32(s)) == s
  {
    RoundTrip16(s[..2], n / 0x1_0000);
    RoundTrip16(s[2..], n % 0x1_0000);
    assert Be32(n)[..2] == Be16(n / 0x1_0000) && Be32(n)[2..] == Be16(n % 0x1_0000);
    var hi, lo := FromBe16(s[..2]), FromBe16(s[2..]);
    assert FromBe32(s) / 0x1_0000 == hi && FromBe32(s) % 0x1_0000 == lo;
    assert s == s[..2] + s[2..];
  }

  /** The number that bytes write, the most significant first. */
  function BigEndian(s: seq<byte>): nat {
    if s == [] then 0 else 256 * BigEndian(s[..|s| - 1]) + s[|s| - 1]
  }

  lemma BigEndianOf16(n: int)
    requires 0 <= n < 0x1_0000
    ensures BigEndian(Be16(n)) == n
  {
    var s := Be16(n);
    assert s[..1] == [n / 256] && s[..1][..0] == [];
    assert BigEndian(s[..1]) == n / 256;
  }

  lemma BigEndianOfBoth(a: seq<byte>, b: seq<byte>)
    requires |b| == 2
    ensures BigEndian(a + b) == 0x1_0000 * BigEndian(a) + BigEndian(b)
  {
    var s := a + b;
    assert s[..|s| - 1] == a + [b[0]] && (a + [b[0]])[..|a|] == a;
    assert b[..1] == [b[0]] && b[..1][..0] == [];
    assert BigEndian(b[..1]) == b[0];
  }

  lemma BigEndianOf32(n: int)
    requires 0 <= n < 0x1_0000_0000
    ensures BigEndian(Be32(n)) == n
  {
    BigEndianOf16(n / 0x1_0000);
    BigEndianOf16(n % 0x1_0000);
    BigEndianOfBoth(Be16(n / 0x1_0000), Be16(n % 0x1_0000));
  }

  lemma {:induction false} SameBigEndian(a: seq<byte>, b: seq<byte>)
    requires |a| == |b| && BigEndian(a) == BigEndian(b)
    ensures a == b
  {
    if a != [] {
      var n := |a| - 1;
      SameBigEndian(a[..n], b[..n]);
      assert a == a[..n] + [a[n]] && b == b[..n] + [b[n]];
    }
  }

  lemma FromBe32IsBigEndian(s: seq<byte>)
    requires |s| == 4
    ensures FromBe32(s) == BigEndian(s)
  {
    RoundTrip32(s, 0);
    BigEndianOf32(FromBe32(s));
  }
}
