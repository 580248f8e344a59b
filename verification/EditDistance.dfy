/**
 Edit distance between a term and the stretches of a text, three ways: by edit scripts, by
 the two-ended recursion, and by the recursion with a free start that the rolling row computes.
 */
module EditDistance {
  import opened Prelude

  function Min(a: nat, b: nat): nat {
    if a <= b then a else b
  }

  function Differs(a: char, b: char): nat {
    if a == b then 0 else 1
  }

  // ---------------------------------------------------------------- edit scripts

  datatype Edit = Keep | Replace(c: char) | Insert(c: char) | Delete

  /** What a script makes of `s`; None when it does not consume exactly `s`. */
  function Apply(script: seq<Edit>, s: string): Option<string> {
    if script == [] then (if s == [] then Some([]) else None)
    else
      var k := |script| - 1;
      match script[k]
      case Insert(c) => (match Apply(script[..k], s) case Some(r) => Some(r + [c]) case None => None)
      case e =>
        if s == [] then None
        else
          match Apply(script[..k], s[..|s| - 1])
          case None => None
          case Some(r) => Some(match e case Keep => r + [s[|s| - 1]] case Replace(c) => r + [c] case _ => r)
  }

  function Cost(script: seq<Edit>): nat {
    if script == [] then 0
    else Cost(script[..|script| - 1]) + if script[|script| - 1] == Keep then 0 else 1
  }

  // ---------------------------------------------------------------- distance

  /** Distance from `x[k..i]` to `t[..j]`. */
  function Dist(x: string, k: nat, i: nat, t: string, j: nat): nat
    requires k <= i <= |x| && j <= |t|
    decreases i + j
  {
    if i == k then j
    else if j == 0 then i - k
    else Min(Min(Dist(x, k, i - 1, t, j) + 1, Dist(x, k, i, t, j - 1) + 1),
             Dist(x, k, i - 1, t, j - 1) + Differs(x[i - 1], t[j - 1]))
  }

  /** The script makes `t[..j]` of `x[k..i]`. */
  predicate Turns(script: seq<Edit>, x: string, k: nat, i: nat, t: string, j: nat) {
    k <= i <= |x| && j <= |t| && Apply(script, x[k..i]) == Some(t[..j])
  }

  /** Where the two ends were before the last edit. */
  predicate Before(e: Edit, x: string, i: nat, t: string, j: nat, i': nat, j': nat)
    requires i <= |x| && j <= |t|
  {
    match e
    case Insert(_) => i' == i && j' + 1 == j
    case Delete => i' + 1 == i && j' == j
    case Replace(_) => i' + 1 == i && j' + 1 == j
    case Keep => i' + 1 == i && j' + 1 == j && x[i - 1] == t[j - 1]
  }

  lemma LastInsert(script: seq<Edit>, x: string, k: nat, i: nat, t: string, j: nat)
    requires script != [] && script[|script| - 1].Insert? && Turns(script, x, k, i, t, j)
    ensures 0 < j && Turns(script[..|script| - 1], x, k, i, t, j - 1)
  {
    DropLast(t, j, Apply(script[..|script| - 1], x[k..i]).value, script[|script| - 1].c);
  }

  lemma LastConsumes(script: seq<Edit>, x: string, k: nat, i: nat, t: string, j: nat) returns (r: string)
    requires script != [] && !script[|script| - 1].Insert? && Turns(script, x, k, i, t, j)
    ensures k < i && Apply(script[..|script| - 1], x[k..i - 1]) == Some(r)
    ensures t[..j] == match script[|script| - 1] case Keep => r + [x[i - 1]] case Replace(c) => r + [c] case _ => r
  {
    assert x[k..i][..i - k - 1] == x[k..i - 1];
    r := Apply(script[..|script| - 1], x[k..i - 1]).value;
  }

  lemma LastEdit(script: seq<Edit>, x: string, k: nat, i: nat, t: string, j: nat) returns (i': nat, j': nat)
    requires script != [] && Turns(script, x, k, i, t, j)
    ensures k <= i' && Before(script[|script| - 1], x, i, t, j, i', j')
              && Turns(script[..|script| - 1], x, k, i', t, j')
  {
    match script[|script| - 1]
    case Insert(_) =>
      LastInsert(script, x, k, i, t, j);
      i', j' := i, j - 1;
    case Delete =>
      var r := LastConsumes(script, x, k, i, t, j);
      i', j' := i - 1, j;
    case Replace(c) =>
      var r := LastConsumes(script, x, k, i, t, j);
      DropLast(t, j, r, c);
      i', j' := i - 1, j - 1;
    case Keep =>
      var r := LastConsumes(script, x, k, i, t, j);
      DropLast(t, j, r, x[i - 1]);
      i', j' := i - 1, j - 1;
  }

  /** One edit changes the distance by at most its cost. */
  lemma {:induction false} DistBefore(e: Edit, x: string, k: nat, i: nat, t: string, j: nat, i': nat, j': nat)
    requires k <= i' <= i <= |x| && j' <= j <= |t| && Before(e, x, i, t, j, i', j')
    ensures Dist(x, k, i, t, j) <= Dist(x, k, i', t, j') + if e == Keep then 0 else 1
  {}

  predicate AtMost(x: string, k: nat, i: nat, t: string, j: nat, n: nat)
    requires k <= i <= |x| && j <= |t|
  {
    Dist(x, k, i, t, j) <= n
  }

  lemma {:induction false} NoScriptBelow(x: string, k: nat, i: nat, t: string, j: nat, script: seq<Edit>)
    requires Turns(script, x, k, i, t, j)
    ensures AtMost(x, k, i, t, j, Cost(script))
    decreases |script|
  {
    if script == [] {
      assert x[k..i] == [] == t[..j];
    } else {
      var i', j' := LastEdit(script, x, k, i, t, j);
      NoScriptBelow(x, k, i', t, j', script[..|script| - 1]);
      DistBefore(script[|script| - 1], x, k, i, t, j, i', j');
    }
  }

  lemma NoCheaperScript(x: string, k: nat, i: nat, t: string, j: nat, script: seq<Edit>)
    requires k <= i <= |x| && j <= |t|
    requires Apply(script, x[k..i]) == Some(t[..j])
    ensures Dist(x, k, i, t, j) <= Cost(script)
  {
    NoScriptBelow(x, k, i, t, j, script);
  }

  lemma DropLast(t: string, j: nat, r: string, c: char)
    requires j <= |t| && t[..j] == r + [c]
    ensures 0 < j && r == t[..j - 1] && t[j - 1] == c
  {
    assert (r + [c])[|r|] == c;
    assert r == (r + [c])[..|r|];
  }

  lemma Extend(init: seq<Edit>, e: Edit)
    ensures (init + [e])[..|init + [e]| - 1] == init
    ensures Cost(init + [e]) == Cost(init) + if e == Keep then 0 else 1
  {
    assert (init + [e])[..|init + [e]| - 1] == init;
  }

  predicate Cheapest(script: seq<Edit>, x: string, k: nat, i: nat, t: string, j: nat) {
    Turns(script, x, k, i, t, j) && Cost(script) == Dist(x, k, i, t, j)
  }

  lemma ThenInsert(init: seq<Edit>, x: string, k: nat, i: nat, t: string, j: nat)
    requires 0 < j <= |t| && Cheapest(init, x, k, i, t, j - 1)
    requires Dist(x, k, i, t, j) == Dist(x, k, i, t, j - 1) + 1
    ensures Cheapest(init + [Insert(t[j - 1])], x, k, i, t, j)
  {
    Extend(init, Insert(t[j - 1]));
    assert t[..j] == t[..j - 1] + [t[j - 1]];
  }

  lemma ThenDelete(init: seq<Edit>, x: string, k: nat, i: nat, t: string, j: nat)
    requires k < i <= |x| && Cheapest(init, x, k, i - 1, t, j)
    requires Dist(x, k, i, t, j) == Dist(x, k, i - 1, t, j) + 1
    ensures Cheapest(init + [Delete], x, k, i, t, j)
  {
    Extend(init, Delete);
    assert x[k..i][..i - k - 1] == x[k..i - 1];
  }

  lemma ThenMatch(init: seq<Edit>, x: string, k: nat, i: nat, t: string, j: nat, e: Edit)
    requires k < i <= |x| && 0 < j <= |t| && Cheapest(init, x, k, i - 1, t, j - 1)
    requires e == if x[i - 1] == t[j - 1] then Keep else Replace(t[j - 1])
    requires Dist(x, k, i, t, j) == Dist(x, k, i - 1, t, j - 1) + Differs(x[i - 1], t[j - 1])
    ensures Cheapest(init + [e], x, k, i, t, j)
  {
    Extend(init, e);
    assert x[k..i][..i - k - 1] == x[k..i - 1];
    assert t[..j] == t[..j - 1] + [t[j - 1]];
  }

  /** Which neighbour a cell's distance comes from. */
  datatype From = Nothing | Left | Above | Diagonal

  function Origin(x: string, k: nat, i: nat, t: string, j: nat): From
    requires k <= i <= |x| && j <= |t|
  {
    if i == k && j == 0 then Nothing
    else if i == k || (j != 0 && Dist(x, k, i, t, j) == Dist(x, k, i, t, j - 1) + 1) then Left
    else if j == 0 || Dist(x, k, i, t, j) == Dist(x, k, i - 1, t, j) + 1 then Above
    else Diagonal
  }

  lemma {:induction false} OriginDist(x: string, k: nat, i: nat, t: string, j: nat)
    requires k <= i <= |x| && j <= |t|
    ensures match Origin(x, k, i, t, j)
            case Nothing => i == k && j == 0 && Dist(x, k, i, t, j) == 0
            case Left => j > 0 && Dist(x, k, i, t, j) == Dist(x, k, i, t, j - 1) + 1
            case Above => i > k && Dist(x, k, i, t, j) == Dist(x, k, i - 1, t, j) + 1
            case Diagonal =>
              && i > k && j > 0
              && Dist(x, k, i, t, j) == Dist(x, k, i - 1, t, j - 1) + Differs(x[i - 1], t[j - 1])
  {}

  lemma {:induction false} CheapestScript(x: string, k: nat, i: nat, t: string, j: nat) returns (script: seq<Edit>)
    requires k <= i <= |x| && j <= |t|
    ensures Cheapest(script, x, k, i, t, j)
    decreases i + j
  {
    OriginDist(x, k, i, t, j);
    match Origin(x, k, i, t, j)
    case Nothing =>
      script := [];
    case Left =>
      var init := CheapestScript(x, k, i, t, j - 1);
      ThenInsert(init, x, k, i, t, j);
      script := init + [Insert(t[j - 1])];
    case Above =>
      var init := CheapestScript(x, k, i - 1, t, j);
      ThenDelete(init, x, k, i, t, j);
      script := init + [Delete];
    case Diagonal =>
      var init := CheapestScript(x, k, i - 1, t, j - 1);
      var e := if x[i - 1] == t[j - 1] then Keep else Replace(t[j - 1]);
      ThenMatch(init, x, k, i, t, j, e);
      script := init + [e];
  }

  /** Distance zero means the same text. */
  lemma {:induction false} ZeroMeansEqual(x: string, k: nat, i: nat, t: string, j: nat)
    requires k <= i <= |x| && j <= |t|
    ensures Dist(x, k, i, t, j) == 0 <==> x[k..i] == t[..j]
    decreases i + j
  {
    if i > k && j > 0 {
      ZeroMeansEqual(x, k, i - 1, t, j - 1);
      assert x[k..i] == x[k..i - 1] + [x[i - 1]];
      assert t[..j] == t[..j - 1] + [t[j - 1]];
      if x[k..i] == t[..j] {
        assert x[k..i][i - k - 1] == t[..j][j - 1];
        assert x[k..i - 1] == x[k..i][..i - k - 1];
        assert t[..j - 1] == t[..j][..j - 1];
      }
    }
  }

  // ---------------------------------------------------------------- free start

  /** Cheapest way to reach `t[..j]` from a stretch of `x` that ends at `i`. */
  function Free(x: string, i: nat, t: string, j: nat): nat
    requires i <= |x| && j <= |t|
    decreases i + j
  {
    if j == 0 then 0
    else if i == 0 then j
    else Min(Min(Free(x, i - 1, t, j) + 1, Free(x, i, t, j - 1) + 1),
             Free(x, i - 1, t, j - 1) + Differs(x[i - 1], t[j - 1]))
  }

  lemma {:induction false} FreeAtMostWhole(x: string, i: nat, t: string, j: nat)
    requires i <= |x| && j <= |t|
    ensures Free(x, i, t, j) <= j
    decreases j
  {
    if j != 0 && i != 0 { FreeAtMostWhole(x, i, t, j - 1); }
  }

  lemma {:induction false} FreeStep(x: string, i: nat, t: string, j: nat)
    requires 0 < i <= |x| && 0 < j <= |t|
    ensures Free(x, i, t, j) <= Free(x, i - 1, t, j) + 1
    ensures Free(x, i, t, j) <= Free(x, i, t, j - 1) + 1
    ensures Free(x, i, t, j) <= Free(x, i - 1, t, j - 1) + Differs(x[i - 1], t[j - 1])
  {}

  lemma {:induction false} DistStep(x: string, k: nat, i: nat, t: string, j: nat)
    requires k < i <= |x| && 0 < j <= |t|
    ensures var d := Dist(x, k, i, t, j);
            || d == Dist(x, k, i - 1, t, j) + 1
            || d == Dist(x, k, i, t, j - 1) + 1
            || d == Dist(x, k, i - 1, t, j - 1) + Differs(x[i - 1], t[j - 1])
  {}

  predicate FreeBelow(x: string, k: nat, i: nat, t: string, j: nat)
    requires k <= i <= |x| && j <= |t|
  {
    Free(x, i, t, j) <= Dist(x, k, i, t, j)
  }

  lemma {:induction false} FreeIsLower(x: string, k: nat, i: nat, t: string, j: nat)
    requires k <= i <= |x| && j <= |t|
    ensures FreeBelow(x, k, i, t, j)
    decreases i + j
  {
    if i == k || j == 0 {
      FreeAtMostWhole(x, i, t, j);
    } else {
      FreeIsLower(x, k, i - 1, t, j);
      FreeIsLower(x, k, i, t, j - 1);
      FreeIsLower(x, k, i - 1, t, j - 1);
      OneCell(x, k, i, t, j);
    }
  }

  lemma {:induction false} OneCell(x: string, k: nat, i: nat, t: string, j: nat)
    requires k < i <= |x| && 0 < j <= |t|
    requires FreeBelow(x, k, i - 1, t, j) && FreeBelow(x, k, i, t, j - 1) && FreeBelow(x, k, i - 1, t, j - 1)
    ensures FreeBelow(x, k, i, t, j)
  {
    FreeStep(x, i, t, j);
    DistStep(x, k, i, t, j);
  }

  predicate Attains(x: string, k: nat, i: nat, t: string, j: nat) {
    k <= i <= |x| && j <= |t| && Dist(x, k, i, t, j) == Free(x, i, t, j)
  }

  /** A start that attains a neighbour the cell's cost comes from attains the cell. */
  lemma AttainsNext(x: string, k: nat, i: nat, t: string, j: nat, i': nat, j': nat, cost: nat)
    requires 0 < i <= |x| && 0 < j <= |t| && k <= i' <= i && Attains(x, k, i', t, j')
    requires Free(x, i, t, j) == Free(x, i', t, j') + cost
    requires Dist(x, k, i, t, j) <= Dist(x, k, i', t, j') + cost
    ensures Attains(x, k, i, t, j)
  {
    FreeIsLower(x, k, i, t, j);
  }

  lemma {:induction false} DistNext(x: string, k: nat, i: nat, t: string, j: nat)
    requires k <= i <= |x| && 0 < j <= |t|
    ensures Dist(x, k, i, t, j) <= Dist(x, k, i, t, j - 1) + 1
    ensures k < i ==> Dist(x, k, i, t, j) <= Dist(x, k, i - 1, t, j) + 1
    ensures k < i ==> Dist(x, k, i, t, j) <= Dist(x, k, i - 1, t, j - 1) + Differs(x[i - 1], t[j - 1])
  {}

  function FreeOrigin(x: string, i: nat, t: string, j: nat): From
    requires i <= |x| && j <= |t|
  {
    if i == 0 || j == 0 then Nothing
    else if Free(x, i, t, j) == Free(x, i - 1, t, j) + 1 then Above
    else if Free(x, i, t, j) == Free(x, i, t, j - 1) + 1 then Left
    else Diagonal
  }

  lemma AttainsAbove(x: string, k: nat, i: nat, t: string, j: nat)
    requires i <= |x| && j <= |t| && FreeOrigin(x, i, t, j) == Above && Attains(x, k, i - 1, t, j)
    ensures Attains(x, k, i, t, j)
  {
    DistNext(x, k, i, t, j);
    AttainsNext(x, k, i, t, j, i - 1, j, 1);
  }

  lemma AttainsLeft(x: string, k: nat, i: nat, t: string, j: nat)
    requires i <= |x| && j <= |t| && FreeOrigin(x, i, t, j) == Left && Attains(x, k, i, t, j - 1)
    ensures Attains(x, k, i, t, j)
  {
    DistNext(x, k, i, t, j);
    AttainsNext(x, k, i, t, j, i, j - 1, 1);
  }

  lemma AttainsDiagonal(x: string, k: nat, i: nat, t: string, j: nat)
    requires i <= |x| && j <= |t| && FreeOrigin(x, i, t, j) == Diagonal && Attains(x, k, i - 1, t, j - 1)
    ensures Attains(x, k, i, t, j)
  {
    DistNext(x, k, i, t, j);
    AttainsNext(x, k, i, t, j, i - 1, j - 1, Differs(x[i - 1], t[j - 1]));
  }

  lemma {:induction false} EdgeAttains(x: string, i: nat, t: string, j: nat)
    requires i <= |x| && j <= |t| && (i == 0 || j == 0)
    ensures Attains(x, i, i, t, j)
  {}

  /** Some start attains the free-start cost. */
  lemma {:induction false} FreeIsAttained(x: string, i: nat, t: string, j: nat) returns (k: nat)
    requires i <= |x| && j <= |t|
    ensures Attains(x, k, i, t, j)
    decreases i + j
  {
    match FreeOrigin(x, i, t, j)
    case Nothing =>
      EdgeAttains(x, i, t, j);
      k := i;
    case Above =>
      k := FreeIsAttained(x, i - 1, t, j);
      AttainsAbove(x, k, i, t, j);
    case Left =>
      k := FreeIsAttained(x, i, t, j - 1);
      AttainsLeft(x, k, i, t, j);
    case Diagonal =>
      k := FreeIsAttained(x, i - 1, t, j - 1);
      AttainsDiagonal(x, k, i, t, j);
  }

  // ---------------------------------------------------------------- best over all ends

  function BestUpTo(x: string, n: nat, t: string): nat
    requires n <= |x|
  {
    if n == 0 then |t| else Min(BestUpTo(x, n - 1, t), Free(x, n, t, |t|))
  }

  function Best(x: string, t: string): nat {
    BestUpTo(x, |x|, t)
  }

  lemma {:induction false} BestIsLower(x: string, n: nat, t: string, k: nat, i: nat)
    requires k <= i <= n <= |x|
    ensures BestUpTo(x, n, t) <= Dist(x, k, i, t, |t|)
    decreases n
  {
    if n != 0 {
      if i == n { FreeIsLower(x, k, i, t, |t|); } else { BestIsLower(x, n - 1, t, k, i); }
    }
  }

  lemma {:induction false} BestIsAttained(x: string, n: nat, t: string) returns (k: nat, i: nat)
    requires n <= |x|
    ensures k <= i <= n && Dist(x, k, i, t, |t|) == BestUpTo(x, n, t)
    decreases n
  {
    if n == 0 {
      k, i := 0, 0;
    } else if BestUpTo(x, n, t) == BestUpTo(x, n - 1, t) {
      k, i := BestIsAttained(x, n - 1, t);
    } else {
      i := n;
      k := FreeIsAttained(x, n, t, |t|);
    }
  }

  /** The term is a stretch of the text. */
  ghost predicate Occurs(x: string, t: string) {
    exists k, i | 0 <= k <= i <= |x| :: x[k..i] == t
  }

  /** No script from any stretch of `x`, the empty one included, to `t` is cheaper than `n`. */
  ghost predicate NoneCheaper(x: string, t: string, n: nat) {
    forall k, i, script | 0 <= k <= i <= |x| && Apply(script, x[k..i]) == Some(t) :: n <= Cost(script)
  }

  ghost predicate Attained(x: string, t: string, n: nat) {
    exists k, i, script :: 0 <= k <= i <= |x| && Apply(script, x[k..i]) == Some(t) && Cost(script) == n
  }

  /** `Best` is the least cost of an edit script from any stretch of the text to the term. */
  lemma BestIsLeastCost(x: string, t: string)
    ensures Attained(x, t, Best(x, t)) && NoneCheaper(x, t, Best(x, t))
  {
    assert t[..|t|] == t;
    var k, i := BestIsAttained(x, |x|, t);
    var script := CheapestScript(x, k, i, t, |t|);
    forall k, i, script | 0 <= k <= i <= |x| && Apply(script, x[k..i]) == Some(t) ensures Best(x, t) <= Cost(script) {
      NoCheaperScript(x, k, i, t, |t|, script);
      BestIsLower(x, |x|, t, k, i);
    }
  }

  /** Exact occurrence is the same as cost zero. */
  lemma OccursIsZero(x: string, t: string)
    ensures Occurs(x, t) <==> Best(x, t) == 0
  {
    assert t[..|t|] == t;
    if Occurs(x, t) {
      var k, i :| 0 <= k <= i <= |x| && x[k..i] == t;
      ZeroMeansEqual(x, k, i, t, |t|);
      BestIsLower(x, |x|, t, k, i);
    }
    if Best(x, t) == 0 {
      var k, i := BestIsAttained(x, |x|, t);
      ZeroMeansEqual(x, k, i, t, |t|);
    }
  }
}
