/** Bytes and 32-bit words as bits and as numbers. */
module Words {
  lemma Successor(w: bv8)
    requires w != 0xff
    ensures (w + 1) as int == w as int + 1
  {}

  lemma OctetRoundTrip(w: bv8)
    ensures w as int as bv8 == w
  {}

  lemma WordRoundTrip(w: bv32)
    ensures w as int as bv32 == w
  {}

  lemma SameInteger(a: bv32, b: bv32)
    requires a as int == b as int
    ensures a == b
  {
    WordRoundTrip(a);
    WordRoundTrip(b);
  }

  /** The eight bits of a byte. */
  function Octet(b: int): (w: bv8)
    requires 0 <= b < 256
    ensures w as int == b
  {
    if b == 0 then 0
    else
      var before := Octet(b - 1);
      assert before != 0xff by { assert (0xff as bv8) as int == 255; }
      Successor(before);
      before + 1
  }

  lemma OctetIs(b: int, w: bv8)
    requires 0 <= b < 256 && w as int == b
    ensures Octet(b) == w
  {
    OctetRoundTrip(Octet(b));
    OctetRoundTrip(w);
  }

  lemma XorCancels(a: bv32, x: bv32)
    ensures (a ^ x) ^ x == a && a ^ (a ^ x) == x
  {}

  lemma WidenedApart(x: bv8, y: bv8)
    requires x as bv32 == y as bv32
    ensures x == y
  {}
}
