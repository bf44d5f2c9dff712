/** The rules of the slot of js/scenes/GameScene.js, stated on the sequence of
    symbols the slot holds: where a tapped card is inserted, and which symbol
    a match check clears. */
module SlotRules {

  import opened Seqs
  import opened SymbolPools

  /** The slot holds at most seven cards. */
  const MaxSlot: nat := 7
  /** A match clears three cards of one symbol. */
  const MatchSize: nat := 3

  // ---------------------------------------------------------------------
  // Grouping

  /** Every symbol's occurrences form one contiguous run. */
  predicate Grouped(s: seq<nat>) {
    forall i, j, k :: 0 <= i < j < k < |s| && s[i] == s[k] ==> s[j] == s[i]
  }

  /** The end of the run of `t` that starts at or continues from `i`: the
      index-by-index scan of the insertion loop. */
  function RunEnd(s: seq<nat>, i: nat, t: nat): (k: nat)
    requires i <= |s|
    ensures i <= k <= |s|
    ensures forall j :: i <= j < k ==> s[j] == t
    ensures k == |s| || s[k] != t
    decreases |s| - i
  {
    if i < |s| && s[i] == t then RunEnd(s, i + 1, t) else i
  }

  /** Where a tapped card of symbol `t` is inserted: right after the first run
      of `t`, or at the end when `t` is absent. */
  function InsertionPoint(s: seq<nat>, t: nat): (k: nat)
    ensures k <= |s|
    ensures t !in s ==> k == |s|
    ensures t in s ==> 0 <= IndexOf(s, t) < k &&
                       (forall j :: IndexOf(s, t) <= j < k ==> s[j] == t) &&
                       (k == |s| || s[k] != t)
  {
    if t in s then RunEnd(s, IndexOf(s, t), t) else |s|
  }

  /** Inserting at the insertion point keeps a grouped slot grouped. */
  lemma InsertKeepsGrouped(s: seq<nat>, t: nat)
    requires Grouped(s)
    ensures Grouped(InsertAt(s, InsertionPoint(s, t), t))
  {
    var k := InsertionPoint(s, t);
    var r := InsertAt(s, k, t);
    // Every occurrence of `t` in `s` lies in the run that ends at `k`.
    forall p | 0 <= p < |s| && s[p] == t ensures IndexOf(s, t) <= p < k {
    }
    forall i, j, m | 0 <= i < j < m < |r| && r[i] == r[m] ensures r[j] == r[i] {
      var si := if i < k then i else i - 1;
      var sj := if j < k then j else j - 1;
      var sm := if m < k then m else m - 1;
      if i == k || j == k {
        // A run reaching past the new card would put a `t` behind its run.
        assert false;
      } else if m == k {
        assert s[si] == t && IndexOf(s, t) <= si < sj < k;
      } else {
        assert si < sj < sm && s[si] == s[sm];
      }
    }
  }

  /** Removing one entry keeps a grouped slot grouped. */
  lemma RemoveKeepsGrouped(s: seq<nat>, k: nat)
    requires Grouped(s) && k < |s|
    ensures Grouped(RemoveAt(s, k))
  {
    var r := RemoveAt(s, k);
    forall i, j, m | 0 <= i < j < m < |r| && r[i] == r[m] ensures r[j] == r[i] {
      var si := if i < k then i else i + 1;
      var sj := if j < k then j else j + 1;
      var sm := if m < k then m else m + 1;
      assert s[si] == r[i] && s[sj] == r[j] && s[sm] == r[m];
    }
  }

  /** Dropping a prefix keeps a grouped slot grouped. */
  lemma DropKeepsGrouped(s: seq<nat>, m: nat)
    requires Grouped(s) && m <= |s|
    ensures Grouped(s[m..])
  {
    var r := s[m..];
    forall i, j, k | 0 <= i < j < k < |r| && r[i] == r[k] ensures r[j] == r[i] {
      assert s[m + i] == r[i] && s[m + j] == r[j] && s[m + k] == r[k];
    }
  }

  // ---------------------------------------------------------------------
  // Match choice

  /** The distinct symbols of `s` in order of first occurrence: the key order
      of the `counts` object, whose emoji keys keep insertion order. */
  function Dedup(s: seq<nat>): (r: seq<nat>)
    ensures Distinct(r)
    ensures forall x :: x in r <==> x in s
  {
    if s == [] then []
    else
      var p := Dedup(s[..|s| - 1]);
      var last := s[|s| - 1];
      assert forall x :: x in s <==> x in s[..|s| - 1] || x == last by {
        assert s == s[..|s| - 1] + [last];
      }
      if last in p then p else p + [last]
  }

  /** The first key of `keys` whose count in `s` reaches three. */
  function FirstReaching(keys: seq<nat>, s: seq<nat>): (r: Option<nat>)
    ensures r.Some? ==> r.value in keys && Count(s, r.value) >= MatchSize
    ensures r.None? <==> forall i :: 0 <= i < |keys| ==> Count(s, keys[i]) < MatchSize
    ensures r.Some? ==> forall i :: 0 <= i < IndexOf(keys, r.value) ==> Count(s, keys[i]) < MatchSize
  {
    if keys == [] then None
    else if Count(s, keys[0]) >= MatchSize then Some(keys[0])
    else
      var r := FirstReaching(keys[1..], s);
      assert r.Some? ==> IndexOf(keys, r.value) == IndexOf(keys[1..], r.value) + 1 by {
        if r.Some? { IndexOfTail(keys, r.value); }
      }
      r
  }

  /** The symbol `checkMatch` clears, among the symbols `s` of the settled
      slot cards in slot order. */
  function MatchSymbol(s: seq<nat>): Option<nat> {
    FirstReaching(Dedup(s), s)
  }

  lemma IndexOfTail(s: seq<nat>, x: nat)
    requires |s| > 0 && x in s[1..] && s[0] != x
    ensures IndexOf(s, x) == IndexOf(s[1..], x) + 1
  {
    var i := IndexOf(s[1..], x);
    assert s[i + 1] == x;
    assert x !in s[..i + 1] by {
      assert s[..i + 1] == [s[0]] + s[1..][..i];
    }
  }

  lemma IndexOfPrefix(p: seq<nat>, q: seq<nat>, x: nat)
    requires x in p
    ensures IndexOf(p + q, x) == IndexOf(p, x)
  {
    var i := IndexOf(p, x);
    assert (p + q)[..i] == p[..i];
    IndexOfUnique(p + q, x, i);
  }

  /** A symbol first seen before `t` in `s` precedes `t` among the keys. */
  lemma {:induction false} DedupOrder(s: seq<nat>, u: nat, t: nat)
    requires u in s && t in s
    requires IndexOf(s, u) < IndexOf(s, t)
    ensures IndexOf(Dedup(s), u) < IndexOf(Dedup(s), t)
  {
    var init, last := s[..|s| - 1], s[|s| - 1];
    assert s == init + [last];
    var p := Dedup(init);
    if t in init {
      IndexOfPrefix(init, [last], u);
      IndexOfPrefix(init, [last], t);
      DedupOrder(init, u, t);
      if last !in p {
        IndexOfPrefix(p, [last], u);
        IndexOfPrefix(p, [last], t);
      }
    } else {
      // `t` occurs only at the end, so it is a new key behind `u`.
      IndexOfPrefix(init, [last], u);
      assert last == t by { var i := IndexOf(s, t); assert s[i] == t; }
      assert t !in p;
      IndexOfPrefix(p, [last], u);
      assert IndexOf(p + [last], t) == |p| by {
        assert (p + [last])[|p|] == t;
        assert t !in (p + [last])[..|p|] by { assert (p + [last])[..|p|] == p; }
      }
    }
  }

  /** The meaning of the match choice: the chosen symbol occurs at least
      three times, and every symbol seen before it occurs fewer times; no
      symbol is chosen exactly when none occurs three times. */
  lemma MatchSymbolMeaning(s: seq<nat>)
    ensures MatchSymbol(s).Some? ==>
              var t := MatchSymbol(s).value;
              t in s && Count(s, t) >= MatchSize &&
              forall u :: u in s && IndexOf(s, u) < IndexOf(s, t) ==> Count(s, u) < MatchSize
    ensures MatchSymbol(s).None? <==> forall u :: Count(s, u) < MatchSize
  {
    var keys := Dedup(s);
    if MatchSymbol(s).Some? {
      var t := MatchSymbol(s).value;
      forall u | u in s && IndexOf(s, u) < IndexOf(s, t) ensures Count(s, u) < MatchSize {
        DedupOrder(s, u, t);
        assert keys[IndexOf(keys, u)] == u;
      }
    } else {
      forall u ensures Count(s, u) < MatchSize {
        if u in s {
          assert keys[IndexOf(keys, u)] == u;
        } else {
          CountAbsent(s, u);
        }
      }
    }
  }

  lemma {:induction false} CountAbsent(s: seq<nat>, u: nat)
    requires u !in s
    ensures Count(s, u) == 0
  {
    if s != [] {
      assert s[..|s| - 1] <= s;
      CountAbsent(s[..|s| - 1], u);
    }
  }

  /** A count of three needs three entries: a slot with fewer than three
      settled cards never matches. */
  lemma {:induction false} CountBound(s: seq<nat>, u: nat)
    ensures Count(s, u) <= |s|
  {
    if s != [] {
      CountBound(s[..|s| - 1], u);
    }
  }
}
