/** The one-row approximate substring matcher that scores recognised text against an expected term. */
module OcrScore {
  import opened Prelude
  import opened EditDistance

  const MAX_TERM := 64
  const MAX_TEXT := 20000

  predicate Kept(c: char) {
    'a' <= c <= 'z' || '0' <= c <= '9'
  }

  /** The letters a-z and digits of a case-folded text, in order. */
  function Normalized(s: string): string {
    if s == [] then []
    else Normalized(s[..|s| - 1]) + if Kept(s[|s| - 1]) then [s[|s| - 1]] else []
  }

  predicate LetterOrDigit(c: char) {
    ('a' <= c && c <= 'z') || ('0' <= c && c <= '9')
  }

  /** `p` lists, in increasing order, the places of all letters and digits of `s`, and `r` is what stands there. */
  ghost predicate Picks(s: string, r: string, p: seq<nat>) {
    && |p| == |r|
    && (forall j, k | 0 <= j < k < |p| :: p[j] < p[k])
    && (forall k | 0 <= k < |p| :: p[k] < |s| && LetterOrDigit(s[p[k]]) && r[k] == s[p[k]])
    && (forall i | 0 <= i < |s| && LetterOrDigit(s[i]) :: i in p)
  }

  ghost predicate KeepsLettersAndDigits(s: string, r: string) {
    exists p :: Picks(s, r, p)
  }

  lemma PicksOneMore(s: string, c: char, r: string, p: seq<nat>)
    requires Picks(s, r, p)
    ensures if LetterOrDigit(c) then Picks(s + [c], r + [c], p + [|s|]) else Picks(s + [c], r, p)
  {
    var t, q := s + [c], p + [|s|];
    forall i | 0 <= i < |t| && LetterOrDigit(t[i]) ensures i in q {
      if i < |s| { assert i in p; }
    }
  }

  lemma PlaceIsInside(s: string, r: string, p: seq<nat>)
    requires Picks(s, r, p) && p != []
    ensures p[|p| - 1] < |s|
  {}

  lemma {:induction false} NormalizedPicks(s: string) returns (p: seq<nat>)
    ensures Picks(s, Normalized(s), p)
  {
    if s == [] {
      p := [];
    } else {
      var n := |s| - 1;
      p := NormalizedPicks(s[..n]);
      assert s == s[..n] + [s[n]];
      PicksOneMore(s[..n], s[n], Normalized(s[..n]), p);
      if LetterOrDigit(s[n]) { p := p + [n]; }
    }
  }

  /** Without the last character, and without its place if it has one. */
  lemma PicksFront(s: string, r: string, p: seq<nat>)
    requires Picks(s, r, p) && s != []
    ensures var n := |s| - 1;
            if LetterOrDigit(s[n]) then
              p != [] && p[|p| - 1] == n && r[|r| - 1] == s[n] && Picks(s[..n], r[..|r| - 1], p[..|p| - 1])
            else Picks(s[..n], r, p)
  {
    var n := |s| - 1;
    if LetterOrDigit(s[n]) {
      assert n in p;
      var k :| 0 <= k < |p| && p[k] == n;
      assert p[k] <= p[|p| - 1] < |s|;
      forall i | 0 <= i < n && LetterOrDigit(s[i]) ensures i in p[..|p| - 1] {
        var j :| 0 <= j < |p| && p[j] == i;
      }
    }
  }

  lemma {:induction false} PickedIsNormalized(s: string, r: string, p: seq<nat>)
    requires Picks(s, r, p)
    ensures r == Normalized(s)
  {
    if s == [] {
      if p != [] { PlaceIsInside(s, r, p); }
    } else {
      var n := |s| - 1;
      PicksFront(s, r, p);
      if LetterOrDigit(s[n]) {
        PickedIsNormalized(s[..n], r[..|r| - 1], p[..|p| - 1]);
        assert r == r[..|r| - 1] + [s[n]];
      } else {
        PickedIsNormalized(s[..n], r, p);
      }
    }
  }

  /** Exactly one text keeps the letters and digits of `s` in order and nothing else. */
  lemma NormalizedKeeps(s: string, r: string)
    ensures r == Normalized(s) <==> KeepsLettersAndDigits(s, r)
  {
    var p := NormalizedPicks(s);
    if KeepsLettersAndDigits(s, r) {
      var q :| Picks(s, r, q);
      PickedIsNormalized(s, r, q);
    }
  }

  method Normalize(s: string) returns (r: string)
    ensures r == Normalized(s) && KeepsLettersAndDigits(s, r)
    ensures forall k | 0 <= k < |r| :: Kept(r[k])
  {
    NormalizedKeeps(s, Normalized(s));
    r := [];
    assert s[..0] == [];
    for k := 0 to |s|
      invariant r == Normalized(s[..k])
      invariant forall j | 0 <= j < |r| :: Kept(r[j])
    {
      assert s[..k + 1][..k] == s[..k];
      if Kept(s[k]) { r := r + [s[k]]; }
    }
    assert s[..|s|] == s;
  }

  /** Python's `in` on strings. */
  method Contains(text: string, term: string) returns (found: bool)
    ensures found <==> Occurs(text, term)
  {
    var k := 0;
    while k + |term| <= |text|
      invariant forall j, i | 0 <= j < k && j <= i <= |text| :: text[j..i] != term
    {
      if text[k..k + |term|] == term { return true; }
      assert forall i | k <= i <= |text| && text[k..i] == term :: i == k + |term|;
      k := k + 1;
    }
    forall j, i | 0 <= j <= i <= |text| ensures text[j..i] != term {
      assert text[j..i] == term ==> i == j + |term|;
    }
    found := false;
  }

  /** The row after one more character of text. */
  method NextRow(text: string, n: nat, term: string, previous: seq<nat>) returns (current: seq<nat>)
    requires n < |text| && |previous| == |term| + 1
    requires forall j | 0 <= j <= |term| :: previous[j] == Free(text, n, term, j)
    ensures |current| == |term| + 1
    ensures forall j | 0 <= j <= |term| :: current[j] == Free(text, n + 1, term, j)
  {
    current := [0];
    for index := 1 to |term| + 1
      invariant |current| == index
      invariant forall j | 0 <= j < index :: current[j] == Free(text, n + 1, term, j)
    {
      var cell := Min(Min(previous[index] + 1, current[index - 1] + 1),
          previous[index - 1] + Differs(text[n], term[index - 1]));
      current := current + [cell];
    }
  }

  /** The rolling loop computes exactly the least edit cost over all stretches of the text. */
  method BestMatch(text: string, term: string) returns (best: nat)
    ensures best == Best(text, term)
    ensures Attained(text, term, best) && NoneCheaper(text, term, best)
    ensures best <= |term|
  {
    var previous: seq<nat> := [];
    for j := 0 to |term| + 1
      invariant |previous| == j
      invariant forall i | 0 <= i < j :: previous[i] == Free(text, 0, term, i)
    {
      previous := previous + [j];
    }
    best := |term|;
    for n := 0 to |text|
      invariant |previous| == |term| + 1
      invariant forall j | 0 <= j <= |term| :: previous[j] == Free(text, n, term, j)
      invariant best == BestUpTo(text, n, term) <= |term|
    {
      var current := NextRow(text, n, term, previous);
      best := Min(best, current[|term|]);
      previous := current;
    }
    BestIsLeastCost(text, term);
  }

  function Score(best: nat, length: nat): real
    requires 0 < length
  {
    var s := 1.0 - best as real / length as real;
    if s < 0.0 then 0.0 else s
  }

  lemma Scaled(a: real, b: real, l: real)
    requires 0.0 < l
    ensures a <= b <==> a * l <= b * l
  {
    if a <= b { assert 0.0 <= (b - a) * l; } else { assert 0.0 < (a - b) * l; }
  }

  lemma Quotient(best: nat, length: nat) returns (q: real)
    requires 0 < length
    ensures q == best as real / length as real && q * length as real == best as real
  {
    q := best as real / length as real;
  }

  /** With exact arithmetic the 0.90 threshold is met exactly when there is at most one edit in ten characters. */
  lemma ThresholdIsOneInTen(best: nat, length: nat)
    requires 0 < length
    ensures Score(best, length) >= 0.90 <==> 10 * best <= length
  {
    var q := Quotient(best, length);
    Scaled(q, 0.1, length as real);
  }

  /** One minus the edits per character: 1 exactly for an occurrence, 0.90 for one edit in ten characters. */
  ghost predicate Scores(score: real, term: string, text: string) {
    && 0.0 <= score <= 1.0 && score * |term| as real == (|term| - Best(text, term)) as real
    && (score == 1.0 <==> Occurs(text, term))
    && (score >= 0.90 <==> 10 * Best(text, term) <= |term|)
  }

  lemma BestScores(term: string, text: string)
    requires term != [] && Best(text, term) <= |term|
    ensures Scores(Score(Best(text, term), |term|), term, text)
  {
    var best := Best(text, term);
    OccursIsZero(text, term);
    ThresholdIsOneInTen(best, |term|);
    ScoreScaled(best, |term|);
    if best > 0 { ScoreBelowOne(best, |term|); }
  }

  /** 1 for an exact occurrence and 1 - best/length for the rest, which is one and the same formula. */
  method ScoreOf(term: string, text: string) returns (score: real)
    requires term != []
    ensures Scores(score, term, text)
  {
    OccursIsZero(text, term);
    var exact := Contains(text, term);
    if exact {
      BestScores(term, text);
      return 1.0;
    }
    var best := BestMatch(text, term);
    BestScores(term, text);
    score := 1.0 - best as real / |term| as real;
    if score < 0.0 { score := 0.0; }
  }

  /**
   The score of an expected term against a text, both already case-folded: refused when no letter or
   digit is expected or a limit is exceeded, otherwise that of what is left of the two.
   */
  method OcrScore(expected: string, text: string) returns (r: Result<real, ()>)
    ensures var term, normalized := Normalized(expected), Normalized(text);
            && KeepsLettersAndDigits(expected, term) && KeepsLettersAndDigits(text, normalized)
            && (r.Err? <==> term == [] || |term| > 64 || |normalized| > 20000)
            && (r.Ok? ==> Scores(r.value, term, normalized))
  {
    var term := Normalize(expected);
    var normalized := Normalize(text);
    if term == [] || |term| > MAX_TERM || |normalized| > MAX_TEXT { return Err(()); }
    var score := ScoreOf(term, normalized);
    r := Ok(score);
  }

  lemma ScoreScaled(best: nat, length: nat)
    requires 0 < length
    ensures best <= length ==>
              0.0 <= Score(best, length) <= 1.0 && Score(best, length) * length as real == (length - best) as real
  {
    var q := Quotient(best, length);
    Scaled(q, 1.0, length as real);
    Scaled(0.0, q, length as real);
  }

  lemma ScoreBelowOne(best: nat, length: nat)
    requires 0 < best && 0 < length
    ensures Score(best, length) < 1.0
  {
    var q := Quotient(best, length);
    Scaled(q, 0.0, length as real);
  }
}
