/** Jaro and Jaro-Winkler similarity (src/kgcs/er/features.py).

    The score is computed by two passes over boolean flag arrays.  The first pass is a
    greedy matching, the second counts transpositions.  Scores are real numbers: rounding
    is not the point here. */
module Jaro {

  function Min(a: int, b: int): int { if a <= b then a else b }

  function Max(a: int, b: int): int { if a >= b then a else b }

  /** How far apart two equal characters may stand and still match; -1 or more. */
  function MatchDistance(s: string, t: string): int {
    Max(|s|, |t|) / 2 - 1
  }

  /** Position i of s and position j of t may be matched. */
  predicate Edge(s: string, t: string, i: int, j: int) {
    && 0 <= i < |s| && 0 <= j < |t|
    && s[i] == t[j]
    && i - MatchDistance(s, t) <= j <= i + MatchDistance(s, t)
  }

  /* ---------- the greedy matching, as a set of position pairs ---------- */

  type Matching = set<(int, int)>

  predicate Free(m: Matching, j: int) {
    forall p <- m :: p.1 != j
  }

  predicate IsMatching(s: string, t: string, m: Matching) {
    && (forall p <- m :: Edge(s, t, p.0, p.1))
    && (forall p <- m, q <- m :: p.0 == q.0 || p.1 == q.1 ==> p == q)
  }

  /** The first free position of t, from j on, that i may be matched with; |t| if none. */
  function FirstFree(s: string, t: string, m: Matching, i: int, j: int): (k: int)
    requires 0 <= j <= |t|
    ensures j <= k <= |t|
    ensures k < |t| ==> Edge(s, t, i, k) && Free(m, k)
    ensures forall x :: j <= x < k ==> !(Edge(s, t, i, x) && Free(m, x))
    decreases |t| - j
  {
    if j == |t| then j
    else if Edge(s, t, i, j) && Free(m, j) then j
    else FirstFree(s, t, m, i, j + 1)
  }

  /** The pairs the first pass has matched after looking at the first n characters of s. */
  function Greedy(s: string, t: string, n: nat): (m: Matching)
    requires n <= |s|
    ensures forall p <- m :: p.0 < n
  {
    if n == 0 then {}
    else
      var m := Greedy(s, t, n - 1);
      var k := FirstFree(s, t, m, n - 1, 0);
      if k < |t| then m + {(n - 1, k)} else m
  }

  lemma {:induction false} GreedyIsMatching(s: string, t: string, n: nat)
    requires n <= |s|
    ensures IsMatching(s, t, Greedy(s, t, n))
  {
    if n > 0 { GreedyIsMatching(s, t, n - 1); }
  }

  /** No admissible pair is passed over by both of its ends: one of them already has a
      partner that comes no later.  The condition reads the same from either string. */
  ghost predicate Stable(s: string, t: string, m: Matching, n: int) {
    forall i, j :: i < n && Edge(s, t, i, j) ==>
      (exists y :: y <= j && (i, y) in m) || (exists x :: x <= i && (x, j) in m)
  }

  lemma {:induction false} GreedyIsStable(s: string, t: string, n: nat)
    requires n <= |s|
    ensures Stable(s, t, Greedy(s, t, n), n)
  {
    if n > 0 {
      GreedyIsStable(s, t, n - 1);
      var m, m' := Greedy(s, t, n - 1), Greedy(s, t, n);
      forall i, j | i < n && Edge(s, t, i, j)
        ensures (exists y :: y <= j && (i, y) in m') || (exists x :: x <= i && (x, j) in m')
      {
        if i < n - 1 {
          if y :| y <= j && (i, y) in m { assert (i, y) in m'; }
          else { var x :| x <= i && (x, j) in m; assert (x, j) in m'; }
        } else {
          var k := FirstFree(s, t, m, i, 0);
          if k <= j {
            assert (i, k) in m';
          } else {
            assert !Free(m, j);
            var p :| p in m && p.1 == j;
            assert (p.0, j) in m';
          }
        }
      }
    }
  }

  /** Two stable matchings agree on every pair: the pair of smallest position sum on which
      they differ would contradict the stability of the matching that lacks it. */
  lemma {:induction false} StableAgree(s: string, t: string, m: Matching, w: Matching, i: int, j: int)
    requires IsMatching(s, t, m) && IsMatching(s, t, w)
    requires Stable(s, t, m, |s|) && Stable(s, t, w, |s|)
    requires (i, j) in m
    ensures (i, j) in w
    decreases i + j
  {
    assert Edge(s, t, i, j);
    if (i, j) !in w {
      if y :| y <= j && (i, y) in w {
        assert Edge(s, t, i, y);
        StableAgree(s, t, w, m, i, y);
      } else {
        var x :| x <= i && (x, j) in w;
        assert Edge(s, t, x, j);
        StableAgree(s, t, w, m, x, j);
      }
    }
  }

  function Flip(m: Matching): (f: Matching)
    ensures forall i, j :: (i, j) in f <==> (j, i) in m
  {
    set p <- m :: (p.1, p.0)
  }

  lemma FlipIsMatching(s: string, t: string, m: Matching)
    requires IsMatching(s, t, m)
    ensures IsMatching(t, s, Flip(m))
  {
    var w := Flip(m);
    forall p <- w ensures Edge(t, s, p.0, p.1) { assert (p.1, p.0) in m; }
    forall p <- w, q <- w | p.0 == q.0 || p.1 == q.1 ensures p == q {
      assert (p.1, p.0) in m && (q.1, q.0) in m;
    }
  }

  lemma FlipIsStable(s: string, t: string, m: Matching)
    requires Stable(s, t, m, |s|)
    ensures Stable(t, s, Flip(m), |t|)
  {
    var w := Flip(m);
    forall i, j | i < |t| && Edge(t, s, i, j)
      ensures (exists y :: y <= j && (i, y) in w) || (exists x :: x <= i && (x, j) in w)
    {
      assert Edge(s, t, j, i);
      if y :| y <= i && (j, y) in m { assert (y, j) in w; }
      else { var x :| x <= j && (x, i) in m; assert (i, x) in w; }
    }
  }

  /** Running the greedy pass from the other string matches exactly the same positions. */
  lemma GreedyFlips(s: string, t: string)
    ensures Greedy(t, s, |t|) == Flip(Greedy(s, t, |s|))
  {
    var m, w := Greedy(t, s, |t|), Flip(Greedy(s, t, |s|));
    GreedyIsMatching(t, s, |t|);
    GreedyIsMatching(s, t, |s|);
    GreedyIsStable(t, s, |t|);
    GreedyIsStable(s, t, |s|);
    FlipIsMatching(s, t, Greedy(s, t, |s|));
    FlipIsStable(s, t, Greedy(s, t, |s|));
    forall p <- m ensures p in w { StableAgree(t, s, m, w, p.0, p.1); }
    forall p <- w ensures p in m { StableAgree(t, s, w, m, p.0, p.1); }
  }

  /* ---------- matched characters and transpositions ---------- */

  function Left(m: Matching): set<int> { set p <- m :: p.0 }

  function Right(m: Matching): set<int> { set p <- m :: p.1 }

  /** The characters among the first n of s whose positions are flagged, in order. */
  function Picked(s: string, flags: set<int>, n: nat): string
    requires n <= |s|
  {
    if n == 0 then ""
    else Picked(s, flags, n - 1) + if n - 1 in flags then [s[n - 1]] else ""
  }

  lemma {:induction false} PickedUnchanged(s: string, flags: set<int>, k: int, n: nat)
    requires n <= |s| && n <= k
    ensures Picked(s, flags + {k}, n) == Picked(s, flags, n)
  {
    if n > 0 { PickedUnchanged(s, flags, k, n - 1); }
  }

  /** x is y with one c more, up to order. */
  predicate OneMore(x: string, y: string, c: char) { |x| == |y| + 1 && multiset(x) == multiset(y) + multiset{c} }

  lemma OneMoreAppend(x: string, y: string, c: char, tail: string)
    requires OneMore(x, y, c)
    ensures OneMore(x + tail, y + tail, c)
  {
  }

  lemma PickedLast(s: string, flags: set<int>, k: nat)
    requires k < |s| && k !in flags
    ensures OneMore(Picked(s, flags + {k}, k + 1), Picked(s, flags, k + 1), s[k])
  {
    PickedUnchanged(s, flags, k, k);
    var x := Picked(s, flags, k);
    assert Picked(s, flags + {k}, k + 1) == x + [s[k]] && Picked(s, flags, k + 1) == x;
  }

  lemma {:induction false} PickedAdd(s: string, flags: set<int>, k: int, n: nat)
    requires 0 <= k < n <= |s| && k !in flags
    ensures OneMore(Picked(s, flags + {k}, n), Picked(s, flags, n), s[k])
  {
    if k == n - 1 {
      PickedLast(s, flags, k);
    } else {
      PickedAdd(s, flags, k, n - 1);
      OneMoreAppend(Picked(s, flags + {k}, n - 1), Picked(s, flags, n - 1), s[k],
                    if n - 1 in flags then [s[n - 1]] else "");
    }
  }

  lemma {:induction false} PickedNone(s: string, n: nat)
    requires n <= |s|
    ensures Picked(s, {}, n) == ""
  {
    if n > 0 { PickedNone(s, n - 1); }
  }

  /** Both sides flag as many positions as there are matched pairs, and the flagged
      characters are the same up to order. */
  predicate FlagsMatch(s: string, t: string, m: Matching) {
    var x, y := Picked(s, Left(m), |s|), Picked(t, Right(m), |t|);
    |x| == |y| == |m| && multiset(x) == multiset(y)
  }

  lemma FlagsGrow(s: string, t: string, m: Matching, i: int, k: int)
    requires FlagsMatch(s, t, m)
    requires Edge(s, t, i, k) && i !in Left(m) && k !in Right(m)
    ensures FlagsMatch(s, t, m + {(i, k)})
  {
    assert Left(m + {(i, k)}) == Left(m) + {i} && Right(m + {(i, k)}) == Right(m) + {k};
    PickedAdd(s, Left(m), i, |s|);
    PickedAdd(t, Right(m), k, |t|);
    assert (i, k) !in m;
  }

  lemma FlagsAgreeStep(s: string, t: string, n: nat)
    requires 0 < n <= |s| && FlagsMatch(s, t, Greedy(s, t, n - 1))
    ensures FlagsMatch(s, t, Greedy(s, t, n))
  {
    var m := Greedy(s, t, n - 1);
    var k := FirstFree(s, t, m, n - 1, 0);
    FreeIsUnflagged(m);
    if k < |t| {
      assert n - 1 !in Left(m);
      FlagsGrow(s, t, m, n - 1, k);
    }
  }

  lemma {:induction false} FlagsAgree(s: string, t: string, n: nat)
    requires n <= |s|
    ensures FlagsMatch(s, t, Greedy(s, t, n))
  {
    if n == 0 {
      assert Left({}) == {} && Right({}) == {};
      PickedNone(s, |s|);
      PickedNone(t, |t|);
    } else {
      FlagsAgree(s, t, n - 1);
      FlagsAgreeStep(s, t, n);
    }
  }

  /** How many positions two equally long strings differ in. */
  function Mismatches(x: string, y: string): (c: nat)
    requires |x| == |y|
    ensures c <= |x|
  {
    if x == "" then 0
    else Mismatches(x[..|x| - 1], y[..|x| - 1]) + if x[|x| - 1] == y[|x| - 1] then 0 else 1
  }

  lemma {:induction false} MismatchesSymmetric(x: string, y: string)
    requires |x| == |y|
    ensures Mismatches(x, y) == Mismatches(y, x)
  {
    if x != "" { MismatchesSymmetric(x[..|x| - 1], y[..|x| - 1]); }
  }

  lemma {:induction false} NoMismatch(x: string, y: string)
    requires |x| == |y| && Mismatches(x, y) == 0
    ensures x == y
  {
    if x != "" {
      var n := |x| - 1;
      NoMismatch(x[..n], y[..n]);
      assert x == x[..n] + [x[n]] && y == y[..n] + [y[n]];
    }
  }

  lemma {:induction false} OneMismatchAt(x: string, y: string) returns (p: nat)
    requires |x| == |y| && Mismatches(x, y) == 1
    ensures p < |x| && x == y[p := x[p]] && x[p] != y[p]
  {
    var n := |x| - 1;
    assert x == x[..n] + [x[n]] && y == y[..n] + [y[n]];
    if x[n] != y[n] {
      NoMismatch(x[..n], y[..n]);
      p := n;
    } else {
      p := OneMismatchAt(x[..n], y[..n]);
    }
  }

  /** Two strings with the same characters cannot differ in exactly one position. */
  lemma OneMismatchIsNone(x: string, y: string)
    requires |x| == |y|
    ensures Mismatches(x, y) == 1 ==> multiset(x) != multiset(y)
  {
    if Mismatches(x, y) == 1 {
      var p := OneMismatchAt(x, y);
      assert multiset(x) == multiset(y) - multiset{y[p]} + multiset{x[p]};
      assert multiset(x)[x[p]] == multiset(y)[x[p]] + 1;
    }
  }

  /* ---------- the score ---------- */

  function Score(matches: nat, transpositions: int, len1: nat, len2: nat): real
    requires matches > 0 && len1 > 0 && len2 > 0
  {
    (matches as real / len1 as real + matches as real / len2 as real
     + (matches - transpositions) as real / matches as real) / 3.0
  }

  /** What the two passes compute. */
  function Similarity(s: string, t: string): real {
    if s == t then 1.0
    else if s == "" || t == "" then 0.0
    else
      var m := Greedy(s, t, |s|);
      if m == {} then 0.0
      else
        FlagsAgree(s, t, |s|);
        var swapped := Mismatches(Picked(s, Left(m), |s|), Picked(t, Right(m), |t|));
        Score(|m|, swapped / 2, |s|, |t|)
  }

  lemma FractionOfOne(a: int, b: int)
    requires b > 0 && 0 <= a <= b
    ensures 0.0 <= a as real / b as real <= 1.0
    ensures a as real / b as real == 1.0 <==> a == b
  {
    var q := a as real / b as real;
    assert q * b as real == a as real;
  }

  lemma ScoreRange(matches: nat, transpositions: int, len1: nat, len2: nat)
    requires 0 < matches <= len1 && matches <= len2 && 0 <= transpositions <= matches
    ensures 0.0 <= Score(matches, transpositions, len1, len2) <= 1.0
    ensures Score(matches, transpositions, len1, len2) == 1.0
            <==> matches == len1 == len2 && transpositions == 0
  {
    FractionOfOne(matches, len1);
    FractionOfOne(matches, len2);
    FractionOfOne(matches - transpositions, matches);
  }

  /** The score lies in [0, 1] and is 1 exactly for equal strings. */
  lemma SimilarityRange(s: string, t: string)
    ensures 0.0 <= Similarity(s, t) <= 1.0
    ensures Similarity(s, t) == 1.0 <==> s == t
  {
    var m := Greedy(s, t, |s|);
    if s != t && s != "" && t != "" && m != {} {
      FlagsAgree(s, t, |s|);
      var x, y := Picked(s, Left(m), |s|), Picked(t, Right(m), |t|);
      PickedLength(s, Left(m), |s|);
      PickedLength(t, Right(m), |t|);
      ScoreRange(|m|, Mismatches(x, y) / 2, |s|, |t|);
      if |m| == |s| == |t| && Mismatches(x, y) / 2 == 0 {
        OneMismatchIsNone(x, y);
        NoMismatch(x, y);
      }
    }
  }

  /** Flagging keeps at most all characters, and keeping all of them keeps the string. */
  lemma {:induction false} PickedLength(s: string, flags: set<int>, n: nat)
    requires n <= |s|
    ensures |Picked(s, flags, n)| <= n
    ensures |Picked(s, flags, n)| == n ==> Picked(s, flags, n) == s[..n]
    ensures |Picked(s, flags, |s|)| == |s| && n == |s| ==> Picked(s, flags, n) == s
  {
    if n > 0 {
      PickedLength(s, flags, n - 1);
      assert s[..n] == s[..n - 1] + [s[n - 1]];
    }
    assert s[..|s|] == s;
  }

  lemma FlippedFlags(m: Matching)
    ensures Left(Flip(m)) == Right(m) && Right(Flip(m)) == Left(m)
  {
    forall i ensures (i in Left(Flip(m)) <==> i in Right(m)) && (i in Right(Flip(m)) <==> i in Left(m)) {
      if p :| p in m && p.1 == i { assert (p.1, p.0) in Flip(m); }
      if p :| p in m && p.0 == i { assert (p.1, p.0) in Flip(m); }
      if p :| p in Flip(m) && p.1 == i { assert (p.1, p.0) in m; }
      if p :| p in Flip(m) && p.0 == i { assert (p.1, p.0) in m; }
    }
  }

  /** The measure does not depend on which string comes first. */
  lemma SimilaritySymmetric(s: string, t: string)
    ensures Similarity(s, t) == Similarity(t, s)
  {
    if s != t && s != "" && t != "" {
      var m, w := Greedy(s, t, |s|), Greedy(t, s, |t|);
      GreedyFlips(s, t);
      FlippedFlags(m);
      FlagsAgree(s, t, |s|);
      FlagsAgree(t, s, |t|);
      assert |m| == |w|;
      if m != {} {
        assert w != {};
        MismatchesSymmetric(Picked(s, Left(m), |s|), Picked(t, Right(m), |t|));
        var half := Mismatches(Picked(s, Left(m), |s|), Picked(t, Right(m), |t|)) / 2;
        ScoreSymmetric(|m|, half, |s|, |t|);
      }
    }
  }

  lemma ScoreSymmetric(matches: nat, transpositions: int, len1: nat, len2: nat)
    requires matches > 0 && len1 > 0 && len2 > 0
    ensures Score(matches, transpositions, len1, len2) == Score(matches, transpositions, len2, len1)
  {
  }

  /* ---------- what the score is ---------- */

  /** Equal characters at these positions, at most half the longer length less one apart. */
  predicate Near(s: string, t: string, i: int, j: int) {
    && 0 <= i < |s| && 0 <= j < |t| && s[i] == t[j]
    && 2 * (i - j) + 2 <= (if |s| > |t| then |s| else |t|) && 2 * (j - i) + 2 <= (if |s| > |t| then |s| else |t|)
  }

  lemma NearIff(s: string, t: string, i: int, j: int)
    ensures Near(s, t, i, j) <==> Edge(s, t, i, j)
  {
  }

  /** The strings have something in common at all exactly where they are equal or hold one
      character at positions near enough. */
  lemma PositiveIff(s: string, t: string)
    ensures Similarity(s, t) > 0.0 <==> s == t || exists i, j :: Near(s, t, i, j)
  {
    if s != t && s != "" && t != "" {
      var m := Greedy(s, t, |s|);
      GreedyIsMatching(s, t, |s|);
      GreedyIsStable(s, t, |s|);
      if i, j :| Near(s, t, i, j) {
        NearIff(s, t, i, j);
        assert m != {};
      }
      if m != {} {
        var p :| p in m;
        NearIff(s, t, p.0, p.1);
        MatchedIsPositive(s, t);
      }
    }
  }

  lemma MatchedIsPositive(s: string, t: string)
    requires s != t && s != "" && t != "" && Greedy(s, t, |s|) != {}
    ensures Similarity(s, t) > 0.0
  {
    var m := Greedy(s, t, |s|);
    FlagsAgree(s, t, |s|);
    var x, y := Picked(s, Left(m), |s|), Picked(t, Right(m), |t|);
    SharesArePositive(|m|, Mismatches(x, y) / 2, |s|, |t|);
  }

  lemma SharesArePositive(matches: nat, transpositions: int, len1: nat, len2: nat)
    requires 0 < matches && len1 > 0 && len2 > 0 && 0 <= transpositions <= matches
    ensures Score(matches, transpositions, len1, len2) > 0.0
  {
    QuotientSign(matches, len1);
    QuotientSign(matches, len2);
    QuotientSign(matches - transpositions, matches);
  }

  lemma QuotientSign(a: int, b: int)
    requires a >= 0 && b > 0
    ensures a as real / b as real >= 0.0 && (a > 0 ==> a as real / b as real > 0.0)
  {
    var q := a as real / b as real;
    assert q * b as real == a as real;
  }

  /** Whichever stable matching is looked at, it gives the score: the shares of both strings
      that are matched and the share of the matches that stand in order, each by a third; two
      positions at which the matched characters differ make one transposition. */
  lemma SimilarityOf(s: string, t: string, m: Matching)
    requires IsMatching(s, t, m) && Stable(s, t, m, |s|) && m != {} && s != t
    ensures |s| > 0 && |t| > 0
    ensures var x, y := Picked(s, Left(m), |s|), Picked(t, Right(m), |t|);
            && |x| == |y| == |m|
            && var swapped := |Differing(x, y)|;
            Similarity(s, t) == ThreeShares(|m|, swapped, |s|, |t|)
  {
    StableIsGreedy(s, t, m);
    FlagsAgree(s, t, |s|);
    MatchedIsNotEmpty(s, t, m);
    MismatchesCount(Picked(s, Left(m), |s|), Picked(t, Right(m), |t|));
    SimilarityIsScore(s, t);
    var swapped := Mismatches(Picked(s, Left(m), |s|), Picked(t, Right(m), |t|));
    ScoreIsThreeShares(|m|, swapped, |s|, |t|);
  }

  /** The share of each string that is matched and the share of the matches that stand in
      order, all three alike; two characters out of order make one transposition. */
  function ThreeShares(matches: nat, swapped: nat, len1: nat, len2: nat): real
    requires matches > 0 && len1 > 0 && len2 > 0
  {
    var first, second := matches as real / len1 as real, matches as real / len2 as real;
    var inOrder := (matches - swapped / 2) as real / matches as real;
    (first + second + inOrder) / 3.0
  }

  lemma ScoreIsThreeShares(matches: nat, swapped: nat, len1: nat, len2: nat)
    requires matches > 0 && len1 > 0 && len2 > 0
    ensures Score(matches, swapped / 2, len1, len2) == ThreeShares(matches, swapped, len1, len2)
  {
  }

  lemma StableIsGreedy(s: string, t: string, m: Matching)
    requires IsMatching(s, t, m) && Stable(s, t, m, |s|)
    ensures m == Greedy(s, t, |s|)
  {
    var w := Greedy(s, t, |s|);
    GreedyIsMatching(s, t, |s|);
    GreedyIsStable(s, t, |s|);
    forall p <- m ensures p in w { StableAgree(s, t, m, w, p.0, p.1); }
    forall p <- w ensures p in m { StableAgree(s, t, w, m, p.0, p.1); }
  }

  lemma MatchedIsNotEmpty(s: string, t: string, m: Matching)
    requires IsMatching(s, t, m) && m != {}
    ensures s != "" && t != ""
  {
    var p :| p in m;
    assert Edge(s, t, p.0, p.1);
  }

  lemma SimilarityIsScore(s: string, t: string)
    requires s != t && s != "" && t != "" && Greedy(s, t, |s|) != {}
    ensures var m := Greedy(s, t, |s|);
            && |Picked(s, Left(m), |s|)| == |Picked(t, Right(m), |t|)| == |m| > 0
            && Similarity(s, t) ==
               Score(|m|, Mismatches(Picked(s, Left(m), |s|), Picked(t, Right(m), |t|)) / 2, |s|, |t|)
  {
    FlagsAgree(s, t, |s|);
  }

  /** The places two strings differ in. */
  function Differing(x: string, y: string): set<int>
    requires |x| == |y|
  {
    set i | 0 <= i < |x| && x[i] != y[i]
  }

  lemma LastPlace(x: string, y: string, n: nat)
    requires |x| == |y| == n + 1
    ensures |Differing(x, y)| == |Differing(x[..n], y[..n])| + if x[n] == y[n] then 0 else 1
  {
    assert Differing(x, y) == Differing(x[..n], y[..n]) + if x[n] == y[n] then {} else {n};
  }

  lemma {:induction false} MismatchesCount(x: string, y: string)
    requires |x| == |y|
    ensures Mismatches(x, y) == |Differing(x, y)|
  {
    if x != "" {
      MismatchesCount(x[..|x| - 1], y[..|x| - 1]);
      LastPlace(x, y, |x| - 1);
    }
  }

  /* ---------- two neighbours exchanged ---------- */

  function Exchanged(s: string, k: nat): string
    requires k + 1 < |s|
  {
    s[k := s[k + 1]][k + 1 := s[k]]
  }

  predicate AllDifferent(s: string) { forall i, j :: 0 <= i < j < |s| ==> s[i] != s[j] }

  /** Where position i's character stands after the exchange. */
  function Moved(i: int, k: nat): int { if i == k then k + 1 else if i == k + 1 then k else i }

  function MovedPairs(n: nat, k: nat): (m: Matching)
    ensures forall i, j :: (i, j) in m <==> 0 <= i < n && j == Moved(i, k)
  {
    set i | 0 <= i < n :: (i, Moved(i, k))
  }

  lemma MovedPairsMatch(s: string, k: nat)
    requires k + 1 < |s| && |s| >= 4 && AllDifferent(s)
    ensures var t, m := Exchanged(s, k), MovedPairs(|s|, k); IsMatching(s, t, m) && Stable(s, t, m, |s|)
  {
    var t, m := Exchanged(s, k), MovedPairs(|s|, k);
    forall i, j | Edge(s, t, i, j) ensures (i, j) in m { assert t[j] == s[Moved(j, k)]; }
    forall p <- m ensures p.1 == Moved(p.0, k) && Edge(s, t, p.0, p.1) { assert (p.0, p.1) in m; }
  }

  lemma {:induction false} MovedPairsSize(n: nat, k: nat, i: nat)
    requires i <= n
    ensures |set j | 0 <= j < i :: (j, Moved(j, k))| == i
  {
    if i > 0 {
      MovedPairsSize(n, k, i - 1);
      assert (set j | 0 <= j < i :: (j, Moved(j, k)))
             == (set j | 0 <= j < i - 1 :: (j, Moved(j, k))) + {(i - 1, Moved(i - 1, k))};
    }
  }

  lemma {:induction false} PickedAll(s: string, flags: set<int>, n: nat)
    requires n <= |s| && forall i :: 0 <= i < n ==> i in flags
    ensures Picked(s, flags, n) == s[..n]
  {
    if n > 0 {
      PickedAll(s, flags, n - 1);
      assert s[..n] == s[..n - 1] + [s[n - 1]];
    }
  }

  /** Exchanging two neighbours in a string of four or more different characters costs a third
      of one character's share: all of them match, and two stand out of order. */
  lemma NeighboursExchanged(s: string, k: nat)
    requires |s| >= 4 && k + 1 < |s| && AllDifferent(s)
    ensures Similarity(s, Exchanged(s, k)) == 1.0 - 1.0 / (3 * |s|) as real
  {
    var t, m, n := Exchanged(s, k), MovedPairs(|s|, k), |s|;
    MovedPairsMatch(s, k);
    MovedPairsSize(n, k, n);
    ExchangedPicks(s, k);
    assert (0, Moved(0, k)) in m && s[k] != t[k];
    SimilarityOf(s, t, m);
    ExchangedPlaces(s, k);
    ExchangeScore(n);
  }

  lemma ExchangedPlaces(s: string, k: nat)
    requires k + 1 < |s| && AllDifferent(s)
    ensures |Differing(s, Exchanged(s, k))| == 2
  {
    assert Differing(s, Exchanged(s, k)) == {k, k + 1};
  }

  lemma ExchangedPicks(s: string, k: nat)
    requires k + 1 < |s|
    ensures var t, m := Exchanged(s, k), MovedPairs(|s|, k);
            Picked(s, Left(m), |s|) == s && Picked(t, Right(m), |t|) == t
  {
    var t, m, n := Exchanged(s, k), MovedPairs(|s|, k), |s|;
    forall i | 0 <= i < n ensures i in Left(m) && i in Right(m) {
      assert (i, Moved(i, k)) in m && (Moved(i, k), i) in m;
    }
    PickedAll(s, Left(m), n);
    PickedAll(t, Right(m), n);
    assert s[..n] == s && t[..n] == t;
  }

  lemma ExchangeScore(n: nat)
    requires n >= 4
    ensures ThreeShares(n, 2, n, n) == 1.0 - 1.0 / (3 * n) as real
  {
    var r := n as real;
    assert r / r == 1.0;
    assert (n - 1) as real == r - 1.0 && (3 * n) as real == 3.0 * r;
    assert (r - 1.0) / r == 1.0 - 1.0 / r;
    assert 1.0 / (3.0 * r) == 1.0 / r / 3.0;
  }

  /* ---------- the two passes ---------- */

  /** Flag array a marks exactly the positions in flags. */
  ghost predicate Marks(a: array<bool>, flags: set<int>)
    reads a
  {
    forall k :: 0 <= k < a.Length ==> (a[k] <==> k in flags)
  }

  lemma {:induction false} PickedTail(s: string, flags: set<int>, k: nat, n: nat)
    requires k <= n <= |s|
    requires forall x :: k <= x < n ==> x !in flags
    ensures Picked(s, flags, n) == Picked(s, flags, k)
  {
    if k < n { PickedTail(s, flags, k, n - 1); }
  }

  lemma {:induction false} PickedPrefix(s: string, flags: set<int>, k: nat, n: nat)
    requires k <= n <= |s|
    ensures Picked(s, flags, k) <= Picked(s, flags, n)
  {
    if k < n { PickedPrefix(s, flags, k, n - 1); }
  }

  lemma MismatchesAppend(x: string, y: string, a: char, b: char)
    requires |x| == |y|
    ensures Mismatches(x + [a], y + [b]) == Mismatches(x, y) + if a == b then 0 else 1
  {
    assert (x + [a])[..|x|] == x && (y + [b])[..|y|] == y;
  }

  /** The inner loop of the first pass: the first position of the window that i takes. */
  method ScanWindow(s1: string, s2: string, s2Matches: array<bool>, i: nat, ghost m: Matching) returns (j: nat)
    requires i < |s1| && s2Matches.Length == |s2|
    requires Marks(s2Matches, Right(m))
    ensures j == FirstFree(s1, s2, m, i, 0)
  {
    var matchDistance := Max(|s1|, |s2|) / 2 - 1;
    var start := Max(0, i - matchDistance);
    var end := Min(i + matchDistance + 1, |s2|);
    j := start;
    FreeIsUnflagged(m);
    while j < end
      invariant forall x :: 0 <= x < j && x < |s2| ==> !(Edge(s1, s2, i, x) && Free(m, x))
    {
      if !(s2Matches[j] || s1[i] != s2[j]) {
        return;
      }
      j := j + 1;
    }
    j := |s2|;
  }

  method Flag(a: array<bool>, i: nat, ghost flags: set<int>)
    requires i < a.Length && Marks(a, flags)
    modifies a
    ensures Marks(a, flags + {i})
  {
    a[i] := true;
  }

  /** One round of the first pass: position i takes its partner, if there is one. */
  method MatchOne(s1: string, s2: string, s1Matches: array<bool>, s2Matches: array<bool>, i: nat)
    returns (matched: bool)
    requires i < |s1| && s1Matches.Length == |s1| && s2Matches.Length == |s2| && s1Matches != s2Matches
    requires Marks(s1Matches, Left(Greedy(s1, s2, i))) && Marks(s2Matches, Right(Greedy(s1, s2, i)))
    modifies s1Matches, s2Matches
    ensures Marks(s1Matches, Left(Greedy(s1, s2, i + 1))) && Marks(s2Matches, Right(Greedy(s1, s2, i + 1)))
    ensures |Greedy(s1, s2, i + 1)| == |Greedy(s1, s2, i)| + if matched then 1 else 0
  {
    ghost var m := Greedy(s1, s2, i);
    ghost var left, right := Left(m), Right(m);
    var j := ScanWindow(s1, s2, s2Matches, i, m);
    matched := j < |s2|;
    if matched {
      LeftRightAdd(m, i, j);
      Flag(s1Matches, i, left);
      Flag(s2Matches, j, right);
    }
  }

  /** The first pass: both flag arrays and the number of matches. */
  method MatchPass(s1: string, s2: string, s1Matches: array<bool>, s2Matches: array<bool>) returns (matches: nat)
    requires s1Matches.Length == |s1| && s2Matches.Length == |s2| && s1Matches != s2Matches
    requires Marks(s1Matches, {}) && Marks(s2Matches, {})
    modifies s1Matches, s2Matches
    ensures var m := Greedy(s1, s2, |s1|);
            matches == |m| && Marks(s1Matches, Left(m)) && Marks(s2Matches, Right(m))
  {
    matches := 0;
    assert Left({}) == {} && Right({}) == {};
    for i := 0 to |s1|
      invariant matches == |Greedy(s1, s2, i)|
      invariant Marks(s1Matches, Left(Greedy(s1, s2, i))) && Marks(s2Matches, Right(Greedy(s1, s2, i)))
    {
      var matched := MatchOne(s1, s2, s1Matches, s2Matches, i);
      if matched {
        matches := matches + 1;
      }
    }
  }

  lemma FreeIsUnflagged(m: Matching)
    ensures forall j :: Free(m, j) <==> j !in Right(m)
  {
    forall j ensures Free(m, j) <==> j !in Right(m) {
      if !Free(m, j) { var p :| p in m && p.1 == j; }
    }
  }

  lemma LeftRightAdd(m: Matching, i: int, j: int)
    ensures Left(m + {(i, j)}) == Left(m) + {i} && Right(m + {(i, j)}) == Right(m) + {j}
  {
  }

  /** The inner loop of the second pass: the next flagged position.  It exists, because
      not all of the flagged characters of s2 lie before k. */
  method NextFlag(s2: string, s2Matches: array<bool>, k: nat, ghost flags: set<int>) returns (next: nat)
    requires s2Matches.Length == |s2| && Marks(s2Matches, flags) && k <= |s2|
    requires |Picked(s2, flags, k)| < |Picked(s2, flags, |s2|)|
    ensures k <= next < |s2| && next in flags
    ensures Picked(s2, flags, next) == Picked(s2, flags, k)
  {
    next := k;
    PickedTail(s2, flags, k, next);
    while !s2Matches[next]
      invariant k <= next < |s2|
      invariant forall x :: k <= x < next ==> x !in flags
      decreases |s2| - next
    {
      PickedTail(s2, flags, k, next + 1);
      next := next + 1;
    }
    PickedTail(s2, flags, k, next);
  }

  /** The second pass.  Index k never leaves s2Matches, because both arrays hold equally
      many flags. */
  method TranspositionPass(s1: string, s2: string, s1Matches: array<bool>, s2Matches: array<bool>,
                           ghost left: set<int>, ghost right: set<int>)
    returns (transpositions: nat)
    requires s1Matches.Length == |s1| && s2Matches.Length == |s2|
    requires Marks(s1Matches, left) && Marks(s2Matches, right)
    requires |Picked(s1, left, |s1|)| == |Picked(s2, right, |s2|)|
    ensures transpositions == Mismatches(Picked(s1, left, |s1|), Picked(s2, right, |s2|))
  {
    transpositions := 0;
    var k := 0;
    for i := 0 to |s1|
      invariant 0 <= k <= |s2|
      invariant |Picked(s1, left, i)| == |Picked(s2, right, k)|
      invariant transpositions == Mismatches(Picked(s1, left, i), Picked(s2, right, k))
    {
      if s1Matches[i] {
        PickedPrefix(s1, left, i + 1, |s1|);
        k := NextFlag(s2, s2Matches, k, right);
        MismatchesAppend(Picked(s1, left, i), Picked(s2, right, k), s1[i], s2[k]);
        if s1[i] != s2[k] {
          transpositions := transpositions + 1;
        }
        k := k + 1;
      } else {
        assert Picked(s1, left, i + 1) == Picked(s1, left, i);
      }
    }
    PickedPrefix(s2, right, k, |s2|);
    assert Picked(s2, right, k) == Picked(s2, right, |s2|);
  }

  method JaroSimilarity(s1: string, s2: string) returns (score: real)
    ensures score == Similarity(s1, s2)
  {
    if s1 == s2 {
      return 1.0;
    }
    var len1, len2 := |s1|, |s2|;
    if len1 == 0 || len2 == 0 {
      return 0.0;
    }
    var s1Matches := new bool[len1](_ => false);
    var s2Matches := new bool[len2](_ => false);
    var matches := MatchPass(s1, s2, s1Matches, s2Matches);
    if matches == 0 {
      return 0.0;
    }
    ghost var m := Greedy(s1, s2, len1);
    FlagsAgree(s1, s2, len1);
    var transpositions := TranspositionPass(s1, s2, s1Matches, s2Matches, Left(m), Right(m));
    return Score(matches, transpositions / 2, len1, len2);
  }

  /* ---------- Jaro-Winkler ---------- */

  /** The length of the common prefix, counted up to 4. */
  function PrefixUpTo4(s: string, t: string, from: nat): (n: nat)
    requires from <= 4 && from <= |s| && from <= |t|
    ensures from <= n <= 4 && n <= |s| && n <= |t|
    ensures s[from..n] == t[from..n]
    ensures n == 4 || n == |s| || n == |t| || s[n] != t[n]
    decreases 4 - from
  {
    if from < 4 && from < |s| && from < |t| && s[from] == t[from] then PrefixUpTo4(s, t, from + 1) else from
  }

  function Boost(jaro: real, prefix: nat, prefixWeight: real): real {
    jaro + prefix as real * prefixWeight * (1.0 - jaro)
  }

  function Boosted(s: string, t: string, prefixWeight: real): real {
    Boost(Similarity(s, t), PrefixUpTo4(s, t, 0), prefixWeight)
  }

  method CommonPrefix(s1: string, s2: string) returns (prefix: nat)
    ensures prefix == PrefixUpTo4(s1, s2, 0)
  {
    prefix := 0;
    while prefix < Min(|s1|, |s2|)
      invariant prefix <= 4 && prefix <= Min(|s1|, |s2|)
      invariant PrefixUpTo4(s1, s2, 0) == PrefixUpTo4(s1, s2, prefix)
    {
      if s1[prefix] != s2[prefix] || prefix == 4 {
        break;
      }
      prefix := prefix + 1;
    }
  }

  method JaroWinklerSimilarity(s1: string, s2: string, prefixWeight: real := 0.1) returns (score: real)
    ensures score == Boosted(s1, s2, prefixWeight)
  {
    var jaro := JaroSimilarity(s1, s2);
    var prefix := CommonPrefix(s1, s2);
    return Boost(jaro, prefix, prefixWeight);
  }

  /** For weights up to 1/4 (0.1 by default) the boost stays between Jaro and 1; below 1/4
      it reaches 1 only for equal strings; and it is symmetric like Jaro itself. */
  lemma BoostedRange(s: string, t: string, prefixWeight: real)
    requires 0.0 <= prefixWeight <= 0.25
    ensures Similarity(s, t) <= Boosted(s, t, prefixWeight) <= 1.0
    ensures Boosted(s, t, prefixWeight) == Boosted(t, s, prefixWeight)
    ensures prefixWeight < 0.25 ==> (Boosted(s, t, prefixWeight) == 1.0 <==> s == t)
  {
    SimilarityRange(s, t);
    SimilaritySymmetric(s, t);
    PrefixSymmetric(s, t, 0);
    BoostRange(Similarity(s, t), PrefixUpTo4(s, t, 0), prefixWeight);
  }

  /** The length of the longest common prefix, or 4 where that is longer. */
  predicate IsPrefixLength(s: string, t: string, n: nat) {
    && n <= 4 && n <= |s| && n <= |t| && s[..n] == t[..n]
    && (n == 4 || n == |s| || n == |t| || s[n] != t[n])
  }

  /** The boost takes away, for each character of the common prefix up to the fourth, the share
      `prefixWeight` of what is missing from 1. */
  lemma BoostedOf(s: string, t: string, prefixWeight: real, n: nat)
    requires IsPrefixLength(s, t, n)
    ensures 1.0 - Boosted(s, t, prefixWeight) == (1.0 - n as real * prefixWeight) * (1.0 - Similarity(s, t))
  {
    PrefixIs(s, t, n);
    Remainder(Similarity(s, t), n as real * prefixWeight);
  }

  lemma PrefixIs(s: string, t: string, n: nat)
    requires IsPrefixLength(s, t, n)
    ensures PrefixUpTo4(s, t, 0) == n
  {
    var k := PrefixUpTo4(s, t, 0);
    assert s[0..k] == s[..k] && t[0..k] == t[..k];
    if k < n { assert s[..n][k] == t[..n][k]; }
  }

  lemma Remainder(jaro: real, share: real)
    ensures 1.0 - (jaro + share * (1.0 - jaro)) == (1.0 - share) * (1.0 - jaro)
  {
  }

  lemma BoostRange(jaro: real, prefix: nat, prefixWeight: real)
    requires 0.0 <= jaro <= 1.0 && prefix <= 4 && 0.0 <= prefixWeight <= 0.25
    ensures jaro <= Boost(jaro, prefix, prefixWeight) <= 1.0
    ensures prefixWeight < 0.25 ==> (Boost(jaro, prefix, prefixWeight) == 1.0 <==> jaro == 1.0)
  {
    assert prefix == 0 || prefix == 1 || prefix == 2 || prefix == 3 || prefix == 4;
    var share := prefix as real * prefixWeight;
    assert 0.0 <= share <= 1.0 && (prefixWeight < 0.25 ==> share < 1.0);
    ProductSign(1.0 - share, 1.0 - jaro);
    ProductSign(share, 1.0 - jaro);
  }

  lemma ProductSign(x: real, y: real)
    requires x >= 0.0 && y >= 0.0
    ensures x * y >= 0.0
    ensures x > 0.0 && y > 0.0 ==> x * y > 0.0
  {
  }

  lemma {:induction false} PrefixSymmetric(s: string, t: string, from: nat)
    requires from <= 4 && from <= |s| && from <= |t|
    ensures PrefixUpTo4(s, t, from) == PrefixUpTo4(t, s, from)
    decreases 4 - from
  {
    if from < 4 && from < |s| && from < |t| && s[from] == t[from] {
      PrefixSymmetric(s, t, from + 1);
    }
  }
}
