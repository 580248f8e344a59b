/** The alternating-weight checksum of tax numbers, over bodies of any length. */
module Gstin {
  import opened Prelude

  const ALPHABET := "0123456789ABCDEFGHIJKLMNOPQRSTUVWXYZ"

  predicate InAlphabet(c: char) {
    '0' <= c <= '9' || 'A' <= c <= 'Z'
  }

  /** The position of `c` in the alphabet. */
  function Value(c: char): (v: nat)
    requires InAlphabet(c)
    ensures v < 36
  {
    if c <= '9' then c as int - '0' as int else c as int - 'A' as int + 10
  }

  function Symbol(v: nat): (c: char)
    requires v < 36
    ensures InAlphabet(c) && Value(c) == v
  {
    ALPHABET[v]
  }

  lemma ValueIsInjective(c: char, d: char)
    requires InAlphabet(c) && InAlphabet(d)
    ensures Value(c) == Value(d) <==> c == d
  {}

  predicate Body(s: string) {
    forall k | 0 <= k < |s| :: InAlphabet(s[k])
  }

  /** A value counted once or twice, its base-36 digits added up. */
  function Fold(twice: bool, v: nat): (p: nat)
    requires v < 36
    ensures p == if !twice then v else if v < 18 then 2 * v else 2 * v - 35
  {
    var product := v * (if twice then 2 else 1);
    product / 36 + product % 36
  }

  /** What a character at `index` adds. */
  function Part(index: nat, c: char): (p: nat)
    requires InAlphabet(c)
    ensures p < 36
  {
    Fold(index % 2 == 1, Value(c))
  }

  function Total(s: string): nat
    requires Body(s)
  {
    if s == "" then 0 else Total(s[..|s| - 1]) + Part(|s| - 1, s[|s| - 1])
  }

  /** What is missing from `t` to the next multiple of 36. */
  function Missing(t: nat): (v: nat)
    ensures v < 36
  {
    (36 - t % 36) % 36
  }

  lemma MissingCompletes(t: nat, v: nat)
    requires v < 36
    ensures v == Missing(t) <==> (t + v) % 36 == 0
  {
    assert (t + v) % 36 == (t % 36 + v) % 36;
  }

  lemma MissingAgrees(t: nat, u: nat)
    ensures Missing(t) == Missing(u) <==> t % 36 == u % 36
  {}

  /** The check character of a body of any length. */
  function Check(s: string): (c: char)
    requires Body(s)
    ensures InAlphabet(c)
  {
    Symbol(Missing(Total(s)))
  }

  /** The check character brings the total to a multiple of 36, and no other character does. */
  lemma CheckCompletes(s: string, c: char)
    requires Body(s) && InAlphabet(c)
    ensures c == Check(s) <==> (Total(s) + Value(c)) % 36 == 0
  {
    MissingCompletes(Total(s), Value(c));
    ValueIsInjective(c, Check(s));
  }

  /** Equal check characters mean totals that agree modulo 36. */
  lemma CheckAgrees(s: string, t: string)
    requires Body(s) && Body(t)
    ensures Check(s) == Check(t) <==> Total(s) % 36 == Total(t) % 36
  {
    ValueIsInjective(Check(s), Check(t));
    MissingAgrees(Total(s), Total(t));
  }

  lemma ShiftKeepsCongruence(rest: int, a: nat, b: nat)
    requires a < 72 && b < 72
    ensures (rest + a) % 36 == (rest + b) % 36 <==> a == b || a == b + 36 || b == a + 36
  {
    var q, r := (rest + a) / 36, (rest + a) % 36;
    var d := b - a;
    assert rest + b == 36 * q + r + d;
    assert (rest + b) % 36 == (r + d) % 36;
  }

  lemma FoldIsInjective(twice: bool, v: nat, w: nat)
    requires v < 36 && w < 36
    ensures Fold(twice, v) == Fold(twice, w) <==> v == w
  {}

  /** What the doubled weight adds over the single one tells all values apart but the first and the last. */
  lemma SwapOfFolds(twice: bool, v: nat, w: nat)
    requires v < 36 && w < 36 && v != w
    ensures var was, now := Fold(twice, v) + Fold(!twice, w), Fold(twice, w) + Fold(!twice, v);
            was == now || was == now + 36 || now == was + 36 <==> v + w == 35 && (v == 0 || w == 0)
  {}

  lemma ZeroAndZ(c: char, d: char)
    requires InAlphabet(c) && InAlphabet(d)
    ensures Value(c) + Value(d) == 35 && (Value(c) == 0 || Value(d) == 0) <==> IsZeroZ(c, d)
  {}

  lemma SwapOfParts(i: nat, c: char, d: char)
    requires InAlphabet(c) && InAlphabet(d) && c != d
    ensures var was, now := Part(i, c) + Part(i + 1, d), Part(i, d) + Part(i + 1, c);
            was == now || was == now + 36 || now == was + 36 <==> IsZeroZ(c, d)
  {
    var twice := i % 2 == 1;
    ParityFlips(i);
    assert Part(i, c) == Fold(twice, Value(c)) && Part(i + 1, d) == Fold(!twice, Value(d));
    assert Part(i, d) == Fold(twice, Value(d)) && Part(i + 1, c) == Fold(!twice, Value(c));
    ValueIsInjective(c, d);
    SwapOfFolds(twice, Value(c), Value(d));
    ZeroAndZ(c, d);
  }

  lemma ParityFlips(i: nat)
    ensures (i + 1) % 2 == 1 <==> i % 2 != 1
  {}

  predicate IsZeroZ(c: char, d: char) {
    (c == '0' && d == 'Z') || (c == 'Z' && d == '0')
  }

  lemma {:induction false} UpdateMovesTotal(s: string, i: nat, c: char)
    requires Body(s) && i < |s| && InAlphabet(c)
    ensures Body(s[i := c]) && Total(s[i := c]) == Total(s) - Part(i, s[i]) + Part(i, c)
    decreases |s|
  {
    var n := |s| - 1;
    if i < n {
      UpdateMovesTotal(s[..n], i, c);
      assert s[i := c][..n] == s[..n][i := c];
    } else {
      assert s[i := c][..n] == s[..n];
    }
  }

  /** Changing any one character changes the check character, whatever the length. */
  lemma SubstitutionIsCaught(s: string, i: nat, c: char)
    requires Body(s) && i < |s| && InAlphabet(c) && c != s[i]
    ensures Body(s[i := c]) && Check(s[i := c]) != Check(s)
  {
    UpdateMovesTotal(s, i, c);
    CheckAgrees(s, s[i := c]);
    ValueIsInjective(s[i], c);
    var was, now := Part(i, s[i]), Part(i, c);
    FoldIsInjective(i % 2 == 1, Value(s[i]), Value(c));
    ShiftKeepsCongruence(Total(s) - was, was, now);
  }

  function Swapped(s: string, i: nat): string
    requires i + 1 < |s|
  {
    s[i := s[i + 1]][i + 1 := s[i]]
  }

  lemma SwapMovesTotal(s: string, i: nat)
    requires Body(s) && i + 1 < |s|
    ensures Body(Swapped(s, i))
    ensures Total(Swapped(s, i))
              == Total(s) - (Part(i, s[i]) + Part(i + 1, s[i + 1])) + (Part(i, s[i + 1]) + Part(i + 1, s[i]))
  {
    UpdateMovesTotal(s, i, s[i + 1]);
    UpdateMovesTotal(s[i := s[i + 1]], i + 1, s[i]);
  }

  /** Swapping two adjacent different characters goes unnoticed exactly for 0 and Z. */
  lemma SwapIsCaughtUnlessZeroZ(s: string, i: nat)
    requires Body(s) && i + 1 < |s| && s[i] != s[i + 1]
    ensures Body(Swapped(s, i))
    ensures Check(Swapped(s, i)) == Check(s) <==> IsZeroZ(s[i], s[i + 1])
  {
    SwapMovesTotal(s, i);
    CheckAgrees(s, Swapped(s, i));
    SwapOfParts(i, s[i], s[i + 1]);
    var was, now := Part(i, s[i]) + Part(i + 1, s[i + 1]), Part(i, s[i + 1]) + Part(i + 1, s[i]);
    ShiftKeepsCongruence(Total(s) - was, was, now);
  }

  // ---------------------------------------------------------------- the code

  datatype Failure = FourteenRequired

  method CheckDigit(body: string) returns (r: Result<char, Failure>)
    ensures r.Ok? <==> |body| == 14 && Body(body)
    ensures r.Ok? ==> r.value == Check(body)
  {
    if |body| != 14 || exists k :: 0 <= k < |body| && !InAlphabet(body[k]) { return Err(FourteenRequired); }
    var total := 0;
    for index := 0 to |body|
      invariant total == Total(body[..index])
    {
      assert body[..index + 1][..index] == body[..index];
      var product := Value(body[index]) * (if index % 2 == 0 then 1 else 2);
      total := total + product / 36 + product % 36;
    }
    assert body[..|body|] == body;
    r := Ok(Symbol((36 - total % 36) % 36));
  }

  predicate Digit(c: char) { '0' <= c <= '9' }

  predicate Letter(c: char) { 'A' <= c <= 'Z' }

  /** The class of characters allowed at each of the fifteen places. */
  predicate Allowed(k: nat, c: char) {
    if k < 2 || 7 <= k < 11 then Digit(c)
    else if k < 7 || k == 11 then Letter(c)
    else if k == 12 then '1' <= c <= '9' || Letter(c)
    else if k == 13 then c == 'Z'
    else InAlphabet(c)
  }

  predicate Format(s: string) {
    |s| == 15 && forall k | 0 <= k < 15 :: Allowed(k, s[k])
  }

  ghost predicate Valid(s: string, pan: Option<string>) {
    && Format(s) && Body(s[..14]) && s[14] == Check(s[..14])
    && (pan.Some? ==> s[2..12] == pan.value)
  }

  method ValidGstin(value: string, pan: Option<string>) returns (valid: bool)
    ensures valid <==> Valid(value, pan)
  {
    if !Format(value) { return false; }
    assert forall k | 0 <= k < 14 :: Allowed(k, value[k]) ==> InAlphabet(value[..14][k]);
    var check := CheckDigit(value[..14]);
    valid := value[14] == check.value && (pan.Some? ==> value[2..12] == pan.value);
  }

  lemma PrefixTotal(s: string, k: nat)
    requires Body(s) && k < |s|
    ensures Total(s[..k + 1]) == Total(s[..k]) + Part(k, s[k])
  {
    assert s[..k + 1][..k] == s[..k];
  }

  lemma HalfTotal(s: string)
    requires s == "27AAPFU0939F1Z" && Body(s)
    ensures Total(s[..7]) == 2 + 14 + 10 + 20 + 25 + 30 + 30
  {
    PrefixTotal(s, 0);
    PrefixTotal(s, 1);
    PrefixTotal(s, 2);
    PrefixTotal(s, 3);
    PrefixTotal(s, 4);
    PrefixTotal(s, 5);
    PrefixTotal(s, 6);
  }

  lemma WholeTotal(s: string)
    requires s == "27AAPFU0939F1Z" && Body(s)
    ensures Total(s) == 131 + 0 + 9 + 6 + 9 + 30 + 1 + 35
  {
    HalfTotal(s);
    PrefixTotal(s, 7);
    PrefixTotal(s, 8);
    PrefixTotal(s, 9);
    PrefixTotal(s, 10);
    PrefixTotal(s, 11);
    PrefixTotal(s, 12);
    PrefixTotal(s, 13);
    assert s[..14] == s;
  }

  /** Place by place: two digits, five letters, four digits, a letter, a letter or digit but zero, Z, any. */
  ghost predicate IsWritten(s: string) {
    && |s| == 15
    && (forall k | k in {0, 1, 7, 8, 9, 10} :: '0' <= s[k] && s[k] <= '9')
    && (forall k | k in {2, 3, 4, 5, 6, 11} :: 'A' <= s[k] && s[k] <= 'Z')
    && (('1' <= s[12] && s[12] <= '9') || ('A' <= s[12] && s[12] <= 'Z')) && s[13] == 'Z'
    && (('0' <= s[14] && s[14] <= '9') || ('A' <= s[14] && s[14] <= 'Z'))
  }

  /** A number is valid exactly if it is so written, ends in its check character, and has the PAN from place two on. */
  lemma ValidMeans(s: string, pan: Option<string>)
    ensures Valid(s, pan) <==>
            && IsWritten(s) && Body(s[..14]) && (Total(s[..14]) + Value(s[14])) % 36 == 0
            && (pan.Some? ==> |pan.value| == 10 && forall k | 0 <= k < 10 :: pan.value[k] == s[k + 2])
  {
    assert Format(s) <==> IsWritten(s);
    if |s| == 15 && IsWritten(s) {
      forall k | 0 <= k < 14 ensures InAlphabet(s[..14][k]) { assert Allowed(k, s[k]); }
      CheckCompletes(s[..14], s[14]);
      if pan.Some? && |pan.value| == 10 {
        assert s[2..12] == pan.value <==> forall k | 0 <= k < 10 :: pan.value[k] == s[2..12][k];
      }
    }
  }

  /** The number that the repository's own measurements use: even places count once, odd places twice. */
  lemma KnownNumberIsValid()
    ensures Valid("27AAPFU0939F1ZV", Some("AAPFU0939F"))
  {
    var s := "27AAPFU0939F1ZV";
    assert s[..14] == "27AAPFU0939F1Z" && s[2..12] == "AAPFU0939F";
    WholeTotal(s[..14]);
    assert Check(s[..14]) == ALPHABET[31];
  }

  /** No valid number is one substitution away from another, at any of the fifteen places. */
  lemma OneWrongCharacterIsInvalid(s: string, i: nat, c: char, pan: Option<string>, other: Option<string>)
    requires Valid(s, pan) && i < 15 && c != s[i]
    ensures !Valid(s[i := c], other)
  {
    if i < 14 && InAlphabet(c) {
      SubstitutionIsCaught(s[..14], i, c);
      assert s[i := c][..14] == s[..14][i := c];
    } else if i < 14 {
      assert s[i := c][..14][i] == c;
    } else {
      assert s[i := c][..14] == s[..14];
    }
  }

  /**
   In a well-formed number no place allows both 0 and Z, so the checksum's one blind spot is
   closed by the format: no adjacent swap of different characters is ever accepted.
   */
  lemma AdjacentSwapIsInvalid(s: string, i: nat, pan: Option<string>, other: Option<string>)
    requires Valid(s, pan) && i < 14 && s[i] != s[i + 1]
    ensures !Valid(Swapped(s, i), other)
  {
    var t := Swapped(s, i);
    assert t[i] == s[i + 1] && t[i + 1] == s[i];
    assert Allowed(i, s[i]) && Allowed(i + 1, s[i + 1]);
    if i < 13 && Format(t) {
      assert Allowed(i, t[i]) && Allowed(i + 1, t[i + 1]);
      SwapIsCaughtUnlessZeroZ(s[..14], i);
      assert t[..14] == Swapped(s[..14], i);
    }
  }
}
