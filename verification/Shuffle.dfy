/**
  The Fisher-Yates shuffle of the grid order (serveur.c and lib/jeu.c).

  A draw vector `d` holds one draw per index: `d[i]` lies in [0, i] and is the partner of index `i`.
  `Mix` says what the swap loop computes; `Unmix` is its inverse. Together they show that draw vectors
  and permutations correspond one to one, so equally likely draws give equally likely grids.
*/
module Shuffle {

  predicate Distinct(s: seq<int>) {
    forall i, j :: 0 <= i < j < |s| ==> s[i] != s[j]
  }

  predicate IsPermutation(p: seq<int>, n: nat) {
    && |p| == n
    && (forall i :: 0 <= i < n ==> 0 <= p[i] < n)
    && Distinct(p)
  }

  predicate IsDraws(d: seq<nat>, n: nat) {
    |d| == n && forall i :: 0 <= i < n ==> d[i] <= i
  }

  function Identity(n: nat): (s: seq<int>)
    ensures IsPermutation(s, n)
  {
    seq(n, i => i)
  }

  function Swap(s: seq<int>, i: nat, j: nat): (t: seq<int>)
    requires i < |s| && j < |s|
  {
    s[i := s[j]][j := s[i]]
  }

  lemma SwapKeepsElements(s: seq<int>, i: nat, j: nat)
    requires i < |s| && j < |s|
    ensures multiset(Swap(s, i, j)) == multiset(s)
  {
  }

  /** What the swap loop makes of `s`: index |s|-1 trades places with its draw and is then left alone. */
  function Mix(s: seq<int>, d: seq<nat>): (r: seq<int>)
    requires IsDraws(d, |s|)
    ensures |r| == |s|
    decreases |s|
  {
    if |s| <= 1 then s
    else
      var i := |s| - 1;
      var t := Swap(s, i, d[i]);
      Mix(t[..i], d[..i]) + [t[i]]
  }

  /** The position of `x` in `s`. */
  function IndexOf(s: seq<int>, x: int): (k: nat)
    requires x in s
    ensures k < |s| && s[k] == x
  {
    if s[|s| - 1] == x then |s| - 1 else IndexOf(s[..|s| - 1], x)
  }

  /** The draws under which `s` is shuffled into `p`. */
  function Unmix(s: seq<int>, p: seq<int>): (d: seq<nat>)
    requires multiset(s) == multiset(p)
    ensures IsDraws(d, |s|)
    decreases |s|
  {
    assert |s| == |multiset(s)| == |multiset(p)| == |p|;
    if s == [] then []
    else if |s| == 1 then [0]
    else
      var i := |s| - 1;
      LastIsMember(s, p);
      var j := IndexOf(s, p[i]);
      SwapKeepsElements(s, i, j);
      PrefixesAgree(Swap(s, i, j), p);
      Unmix(Swap(s, i, j)[..i], p[..i]) + [j]
  }

  lemma LastIsMember(s: seq<int>, p: seq<int>)
    requires multiset(s) == multiset(p) && |p| > 0
    ensures p[|p| - 1] in s
  {
    assert p[|p| - 1] in multiset(p);
  }

  lemma PrefixesAgree(s: seq<int>, p: seq<int>)
    requires multiset(s) == multiset(p) && |s| == |p| > 0 && s[|s| - 1] == p[|p| - 1]
    ensures multiset(s[..|s| - 1]) == multiset(p[..|p| - 1])
  {
    SplitLast(s);
    SplitLast(p);
  }

  lemma SplitLast(s: seq<int>)
    requires |s| > 0
    ensures s == s[..|s| - 1] + [s[|s| - 1]]
    ensures multiset(s[..|s| - 1]) == multiset(s) - multiset{s[|s| - 1]}
  {
    assert s == s[..|s| - 1] + [s[|s| - 1]];
  }

  /** The loop only reorders. */
  lemma {:induction false} MixIsPermutation(s: seq<int>, d: seq<nat>)
    requires IsDraws(d, |s|)
    ensures multiset(Mix(s, d)) == multiset(s)
    decreases |s|
  {
    if |s| > 1 {
      var i := |s| - 1;
      var t := Swap(s, i, d[i]);
      SwapKeepsElements(s, i, d[i]);
      MixIsPermutation(t[..i], d[..i]);
      assert t == t[..i] + [t[i]];
    }
  }

  /** One pass of the loop, with the last draw split off. */
  lemma MixAppendedDraws(s: seq<int>, d: seq<nat>, j: nat)
    requires |s| > 1 && IsDraws(d, |s| - 1) && j < |s|
    ensures IsDraws(d + [j], |s|)
    ensures Mix(s, d + [j]) == Mix(Swap(s, |s| - 1, j)[..|s| - 1], d) + [s[j]]
  {
    assert (d + [j])[..|s| - 1] == d;
  }

  /** Onto: every reordering of `s` is reached, by the draws `Unmix` computes. */
  lemma {:induction false} MixUndoesUnmix(s: seq<int>, p: seq<int>)
    requires multiset(s) == multiset(p)
    ensures Mix(s, Unmix(s, p)) == p
    decreases |s|
  {
    assert |s| == |multiset(s)| == |multiset(p)| == |p|;
    if |s| == 1 {
      LastIsMember(s, p);
    } else if |s| > 1 {
      var i := |s| - 1;
      LastIsMember(s, p);
      var j := IndexOf(s, p[i]);
      var t := Swap(s, i, j);
      SwapKeepsElements(s, i, j);
      PrefixesAgree(t, p);
      MixUndoesUnmix(t[..i], p[..i]);
      MixAppendedDraws(s, Unmix(t[..i], p[..i]), j);
      SplitLast(p);
    }
  }

  lemma IndexOfIsUnique(s: seq<int>, k: nat)
    requires Distinct(s) && k < |s|
    ensures IndexOf(s, s[k]) == k
  {
  }

  lemma SwapKeepsDistinct(s: seq<int>, i: nat, j: nat)
    requires Distinct(s) && i < |s| && j < |s|
    ensures Distinct(Swap(s, i, j))
  {
    var t := Swap(s, i, j);
    forall a, b | 0 <= a < b < |t| ensures t[a] != t[b] {
      var a' := if a == i then j else if a == j then i else a;
      var b' := if b == i then j else if b == j then i else b;
      assert t[a] == s[a'] && t[b] == s[b'] && a' != b';
    }
  }

  lemma UnmixAppended(s: seq<int>, p: seq<int>, j: nat)
    requires Distinct(s) && |s| > 1 && j < |s| == |p| + 1
    requires multiset(Swap(s, |s| - 1, j)[..|s| - 1]) == multiset(p)
    requires multiset(s) == multiset(p + [s[j]])
    ensures Unmix(s, p + [s[j]]) == Unmix(Swap(s, |s| - 1, j)[..|s| - 1], p) + [j]
  {
    IndexOfIsUnique(s, j);
    assert (p + [s[j]])[..|s| - 1] == p;
  }

  /** One to one: the draws can be read back from the shuffled sequence. */
  lemma {:induction false} UnmixUndoesMix(s: seq<int>, d: seq<nat>)
    requires Distinct(s) && IsDraws(d, |s|)
    ensures multiset(s) == multiset(Mix(s, d))
    ensures Unmix(s, Mix(s, d)) == d
    decreases |s|
  {
    MixIsPermutation(s, d);
    if |s| == 1 {
      assert d == [d[0]] == [0];
    } else if |s| > 1 {
      var i, j, rest := |s| - 1, d[|s| - 1], d[..|s| - 1];
      assert d == rest + [j];
      MixAppendedDraws(s, rest, j);
      SwapKeepsDistinct(s, i, j);
      UnmixUndoesMix(Swap(s, i, j)[..i], rest);
      UnmixLastDraw(s, rest, j);
    }
  }

  lemma UnmixLastDraw(s: seq<int>, rest: seq<nat>, j: nat)
    requires Distinct(s) && |s| > 1 && IsDraws(rest, |s| - 1) && j < |s|
    requires var t := Swap(s, |s| - 1, j)[..|s| - 1];
             && multiset(s) == multiset(Mix(t, rest) + [s[j]])
             && (Distinct(t) ==> multiset(t) == multiset(Mix(t, rest)) && Unmix(t, Mix(t, rest)) == rest)
    ensures Unmix(s, Mix(Swap(s, |s| - 1, j)[..|s| - 1], rest) + [s[j]]) == rest + [j]
  {
    SwapKeepsDistinct(s, |s| - 1, j);
    var t := Swap(s, |s| - 1, j)[..|s| - 1];
    UnmixAppended(s, Mix(t, rest), j);
  }

  /** A sequence is a permutation of 0..n-1 exactly when it holds each of these numbers once. */
  lemma PermutationIsReordering(p: seq<int>, n: nat)
    ensures IsPermutation(p, n) <==> multiset(p) == multiset(Identity(n))
  {
    if IsPermutation(p, n) {
      DistinctCount(p);
      DistinctCount(Identity(n));
      var all := set x | x in Identity(n);
      var here := set x | x in p;
      assert forall x :: x in Identity(n) <==> 0 <= x < n by {
        forall x | 0 <= x < n ensures x in Identity(n) { assert Identity(n)[x] == x; }
      }
      DistinctSize(p);
      DistinctSize(Identity(n));
      assert here <= all;
      SubsetOfSameSize(here, all);
      forall x ensures multiset(p)[x] == multiset(Identity(n))[x] {
        assert x in p <==> x in here;
        assert x in all <==> x in Identity(n);
      }
    }
    if multiset(p) == multiset(Identity(n)) {
      assert |p| == |multiset(p)| == |multiset(Identity(n))| == n;
      DistinctCount(Identity(n));
      forall i | 0 <= i < n ensures 0 <= p[i] < n {
        assert p[i] in multiset(Identity(n));
      }
      forall i, j | 0 <= i < j < n ensures p[i] != p[j] {
        RepeatCountsTwice(p, i, j);
      }
    }
  }

  lemma RepeatCountsTwice(p: seq<int>, i: nat, j: nat)
    requires i < j < |p|
    ensures p[i] == p[j] ==> multiset(p)[p[i]] >= 2
  {
    assert p == p[..j] + [p[j]] + p[j + 1..];
    assert p[i] in p[..j];
  }

  lemma SubsetOfSameSize(a: set<int>, b: set<int>)
    requires a <= b && |a| == |b|
    ensures a == b
  {
    assert b == a + (b - a);
    assert |b - a| == 0;
  }

  lemma {:induction false} DistinctCount(s: seq<int>)
    requires Distinct(s)
    ensures forall x :: multiset(s)[x] == if x in s then 1 else 0
    decreases |s|
  {
    if s != [] {
      var i := |s| - 1;
      DistinctCount(s[..i]);
      assert s == s[..i] + [s[i]];
      assert s[i] !in s[..i];
    }
  }

  lemma {:induction false} DistinctSize(s: seq<int>)
    requires Distinct(s)
    ensures |set x | x in s| == |s|
    decreases |s|
  {
    if s != [] {
      var i := |s| - 1;
      DistinctSize(s[..i]);
      assert s == s[..i] + [s[i]];
      assert (set x | x in s) == (set x | x in s[..i]) + {s[i]};
      assert s[i] !in s[..i];
    }
  }

  /**
    The shuffle of 0..n-1 is a bijection between draw vectors and permutations: each draw vector gives a
    permutation, each permutation comes from a draw vector, and two draw vectors never give the same one.
  */
  lemma ShuffleIsBijection(n: nat)
    ensures forall d :: IsDraws(d, n) ==> IsPermutation(Mix(Identity(n), d), n)
    ensures forall p :: IsPermutation(p, n) ==> exists d :: IsDraws(d, n) && Mix(Identity(n), d) == p
    ensures forall d, e :: IsDraws(d, n) && IsDraws(e, n) && Mix(Identity(n), d) == Mix(Identity(n), e) ==> d == e
  {
    forall d | IsDraws(d, n) ensures IsPermutation(Mix(Identity(n), d), n) {
      MixIsPermutation(Identity(n), d);
      PermutationIsReordering(Mix(Identity(n), d), n);
    }
    forall p | IsPermutation(p, n) ensures exists d :: IsDraws(d, n) && Mix(Identity(n), d) == p {
      PermutationIsReordering(p, n);
      MixUndoesUnmix(Identity(n), p);
      assert IsDraws(Unmix(Identity(n), p), n);
    }
    forall d, e | IsDraws(d, n) && IsDraws(e, n) && Mix(Identity(n), d) == Mix(Identity(n), e) ensures d == e {
      UnmixUndoesMix(Identity(n), d);
      UnmixUndoesMix(Identity(n), e);
    }
  }

  /**
    The draws the loop takes from the values of `rand()`, given in the order of the calls: the first is for the
    last index. What is drawn for index i is congruent to the value of rand() modulo i + 1.
  */
  function DrawsOf(rand: seq<nat>): (d: seq<nat>)
    ensures IsDraws(d, |rand| + 1)
    ensures forall i :: 0 < i <= |rand| ==> Congruent(rand[|rand| - i], d[i], i + 1)
  {
    var d := seq(|rand| + 1, i requires 0 <= i <= |rand| => if i == 0 then 0 else rand[|rand| - i] % (i + 1));
    assert forall i :: 0 < i <= |rand| ==> Congruent(rand[|rand| - i], d[i], i + 1) by {
      forall i | 0 < i <= |rand| ensures Congruent(rand[|rand| - i], d[i], i + 1) {
        RemainderIsCongruent(rand[|rand| - i], i + 1);
      }
    }
    d
  }

  /** a - b is a multiple of m. */
  ghost predicate Congruent(a: int, b: int, m: nat) {
    exists q: int :: a - b == Times(q, m)
  }

  function Times(q: int, m: nat): int {
    q * m
  }

  /** Two numbers below m that are congruent modulo m are the same. */
  lemma CongruentBelow(a: int, b: int, c: int, m: nat)
    requires Congruent(a, b, m) && Congruent(a, c, m) && 0 <= b < m && 0 <= c < m
    ensures b == c
  {
    var q :| a - b == Times(q, m);
    var r :| a - c == Times(r, m);
    assert (r - q) * m == b - c;
    if r - q >= 1 {
      AtLeastOnce(r - q, m);
    } else if q - r >= 1 {
      AtLeastOnce(q - r, m);
    }
  }

  lemma AtLeastOnce(k: int, m: nat)
    requires k >= 1
    ensures k * m >= m
  {
  }

  lemma RemainderIsCongruent(a: nat, m: nat)
    requires m > 0
    ensures Congruent(a, a % m, m)
  {
    assert a - a % m == Times(a / m, m);
  }

  /** These two conditions determine the draws. */
  lemma DrawsAreDetermined(rand: seq<nat>, d: seq<nat>)
    requires IsDraws(d, |rand| + 1)
    requires forall i :: 0 < i <= |rand| ==> Congruent(rand[|rand| - i], d[i], i + 1)
    ensures d == DrawsOf(rand)
  {
    forall i | 0 <= i <= |rand| ensures d[i] == DrawsOf(rand)[i] {
      if i > 0 { CongruentBelow(rand[|rand| - i], d[i], DrawsOf(rand)[i], i + 1); }
    }
  }

  /** The values of rand(), call by call, that give draws d: the draws themselves. */
  function RandFor(d: seq<nat>): (rand: seq<nat>)
    requires d != []
    ensures |rand| == |d| - 1
  {
    seq(|d| - 1, k requires 0 <= k < |d| - 1 => d[|d| - 1 - k])
  }

  lemma DrawsOfRandFor(d: seq<nat>)
    requires d != [] && IsDraws(d, |d|)
    ensures DrawsOf(RandFor(d)) == d
  {
    forall i | 0 < i < |d| ensures Congruent(RandFor(d)[|d| - 1 - i], d[i], i + 1) {
      assert RandFor(d)[|d| - 1 - i] - d[i] == Times(0, i + 1);
    }
    DrawsAreDetermined(RandFor(d), d);
  }

  /** Every board can be dealt: some values of rand() lead to it. */
  lemma EveryOrderIsDealt(n: nat, p: seq<int>)
    requires n > 0 && IsPermutation(p, n)
    ensures exists rand: seq<nat> :: |rand| == n - 1 && Mix(Identity(n), DrawsOf(rand)) == p
  {
    ShuffleIsBijection(n);
    var d :| IsDraws(d, n) && Mix(Identity(n), d) == p;
    assert IsDraws(d, n);
    DrawsOfRandFor(d);
    assert Mix(Identity(n), DrawsOf(RandFor(d))) == p;
  }

  /** Index i keeps its number when the draw for it is i itself: then the last pass moves nothing. */
  lemma {:induction false} OwnDrawsMoveNothing(s: seq<int>, d: seq<nat>)
    requires IsDraws(d, |s|) && forall i :: 0 <= i < |s| ==> d[i] == i
    ensures Mix(s, d) == s
    decreases |s|
  {
    if |s| > 1 {
      var i := |s| - 1;
      OwnDrawsMoveNothing(s[..i], d[..i]);
      assert Swap(s, i, d[i]) == s;
    }
  }

  /** The first draw decides the last place, and the number that was there goes where the drawn one was. */
  lemma FirstDrawDecidesLast(s: seq<int>, d: seq<nat>)
    requires IsDraws(d, |s|) && |s| > 1
    ensures var i := |s| - 1;
            && Mix(s, d)[i] == s[d[i]]
            && (d[i] < i ==> Mix(s, d)[..i] == Mix(s[..i][d[i] := s[i]], d[..i]))
            && (d[i] == i ==> Mix(s, d)[..i] == Mix(s[..i], d[..i]))
  {
    var i := |s| - 1;
    var t := Swap(s, i, d[i]);
    assert d[i] < i ==> t[..i] == s[..i][d[i] := s[i]];
    assert d[i] == i ==> t[..i] == s[..i];
  }

  /** One pass of the swap loop leaves the final result unchanged. */
  lemma MixOnePass(a: seq<int>, d: seq<nat>, i: nat, b: seq<int>)
    requires IsDraws(d, |a|) && 0 < i < |a|
    requires b == Swap(a, i, d[i])
    ensures Mix(a[..i + 1], d[..i + 1]) + a[i + 1..] == Mix(b[..i], d[..i]) + b[i..]
  {
    assert d[..i + 1] == d[..i] + [d[i]];
    MixAppendedDraws(a[..i + 1], d[..i], d[i]);
    assert Swap(a[..i + 1], i, d[i])[..i] == b[..i];
    assert b[i..] == [a[d[i]]] + a[i + 1..];
  }

  lemma MixOfOne(a: seq<int>, d: seq<nat>)
    requires |a| == 1 && |d| == 1 && IsDraws(d, 1)
    ensures Mix(a, d) == a
  {
  }

  /** Fill with the identity, then swap from the last index down to 1; `rand` are the values of the calls in order. */
  method ShuffleIndices(indices: array<int>, rand: seq<nat>)
    requires |rand| + 1 == indices.Length
    modifies indices
    ensures indices[..] == Mix(Identity(indices.Length), DrawsOf(rand))
  {
    hide Mix;
    var n := indices.Length;
    for i := 0 to n
      invariant forall k :: 0 <= k < i ==> indices[k] == k
    {
      indices[i] := i;
    }
    ghost var d := DrawsOf(rand);
    ghost var target := Mix(Identity(n), d);
    var i := n - 1;
    assert indices[..] == Identity(n) && d[..i + 1] == d && indices[..i + 1] == indices[..];
    while i > 0
      invariant 0 <= i < n
      invariant target == Mix(indices[..i + 1], d[..i + 1]) + indices[i + 1..]
    {
      var j := rand[n - 1 - i] % (i + 1);
      RemainderIsCongruent(rand[n - 1 - i], i + 1);
      CongruentBelow(rand[n - 1 - i], j, d[i], i + 1);
      ghost var before := indices[..];
      var temp := indices[i];
      indices[i] := indices[j];
      indices[j] := temp;
      assert indices[..] == before[i := before[j]][j := before[i]] == Swap(before, i, d[i]);
      MixOnePass(before, d, i, indices[..]);
      i := i - 1;
    }
    assert indices[..] == indices[..1] + indices[1..];
    MixOfOne(indices[..1], d[..1]);
  }
}
