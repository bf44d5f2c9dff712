/** The symbol pools `generateLevel` (js/utils/level.js) fills before
    shuffling, and how often each symbol occurs in them. */
module SymbolPools {

  /** `n` copies of `v`. */
  function Repeat(v: nat, n: nat): (r: seq<nat>)
    ensures |r| == n && forall i :: 0 <= i < n ==> r[i] == v
  {
    if n == 0 then [] else Repeat(v, n - 1) + [v]
  }

  /** The number of occurrences of `t` in `s`. */
  function Count(s: seq<nat>, t: nat): nat {
    if s == [] then 0 else Count(s[..|s| - 1], t) + (if s[|s| - 1] == t then 1 else 0)
  }

  /** Counting distributes over concatenation. */
  lemma {:induction false} CountConcat(p: seq<nat>, q: seq<nat>, t: nat)
    ensures Count(p + q, t) == Count(p, t) + Count(q, t)
  {
    if q == [] {
      assert p + q == p;
    } else {
      assert (p + q)[..|p + q| - 1] == p + q[..|q| - 1];
      CountConcat(p, q[..|q| - 1], t);
    }
  }

  /** `Count` is the multiplicity in the multiset of the sequence. */
  lemma {:induction false} CountIsMultiplicity(s: seq<nat>, t: nat)
    ensures Count(s, t) == multiset(s)[t]
  {
    if s != [] {
      var init, last := s[..|s| - 1], [s[|s| - 1]];
      assert s == init + last;
      CountIsMultiplicity(init, t);
      assert multiset(s) == multiset(init) + multiset(last);
    }
  }

  lemma {:induction false} RepeatCount(v: nat, n: nat, t: nat)
    ensures Count(Repeat(v, n), t) == if t == v then n else 0
  {
    if n > 0 {
      RepeatCount(v, n - 1, t);
      assert Repeat(v, n)[..n - 1] == Repeat(v, n - 1);
    }
  }

  /** The tutorial uses the first three symbols, six copies of each. */
  const TutorialSymbols: nat := 3
  const TutorialCopies: nat := 6

  /** The tutorial pool before shuffling, after the first `m` symbols have
      been pushed. */
  function TutorialPool(m: nat): (r: seq<nat>)
    ensures |r| == TutorialCopies * m
    ensures forall i :: 0 <= i < |r| ==> r[i] < m
  {
    if m == 0 then [] else TutorialPool(m - 1) + Repeat(m - 1, TutorialCopies)
  }

  /** Each of the first `m` symbols occurs exactly six times in the tutorial
      pool, and no other symbol occurs. */
  lemma {:induction false} TutorialPoolCount(m: nat, t: nat)
    ensures Count(TutorialPool(m), t) == if t < m then TutorialCopies else 0
  {
    if m > 0 {
      TutorialPoolCount(m - 1, t);
      RepeatCount(m - 1, TutorialCopies, t);
      CountConcat(TutorialPool(m - 1), Repeat(m - 1, TutorialCopies), t);
    }
  }

  /** The symbol of triple `i` of a scaled level: the symbols are used in
      turn, `i % typeCount`. */
  function TripleSymbol(i: nat, typeCount: nat): (v: nat)
    requires typeCount > 0
    ensures v < typeCount
  {
    i % typeCount
  }

  /** The scaled pool before shuffling, after the first `m` triples have been
      pushed. */
  function TriplePool(m: nat, typeCount: nat): (r: seq<nat>)
    requires typeCount > 0
    ensures |r| == 3 * m
    ensures forall i :: 0 <= i < |r| ==> r[i] < typeCount
  {
    if m == 0 then []
    else
      var v := TripleSymbol(m - 1, typeCount);
      TriplePool(m - 1, typeCount) + [v, v, v]
  }

  /** How many of the first `m` triples hold symbol `t`. */
  function TriplesOf(m: nat, typeCount: nat, t: nat): nat
    requires typeCount > 0
  {
    if m == 0 then 0
    else TriplesOf(m - 1, typeCount, t) + (if TripleSymbol(m - 1, typeCount) == t then 1 else 0)
  }

  /** The clearability invariant: a symbol occurs three times for each triple
      that holds it, so a multiple of 3 times in all. */
  lemma {:induction false} TriplePoolCounts(m: nat, typeCount: nat, t: nat)
    requires typeCount > 0
    ensures Count(TriplePool(m, typeCount), t) == 3 * TriplesOf(m, typeCount, t)
  {
    if m > 0 {
      TriplePoolCounts(m - 1, typeCount, t);
      var v := TripleSymbol(m - 1, typeCount);
      RepeatCount(v, 3, t);
      assert [v, v, v] == Repeat(v, 3);
      CountConcat(TriplePool(m - 1, typeCount), [v, v, v], t);
    }
  }
}
