/** Sequence helpers shared by the board, the slot and the stage: the
    JavaScript array operations the game uses (indexOf, splice) and the
    facts about them that the slot bookkeeping relies on. */
module Seqs {

  datatype Option<T> = None | Some(value: T)

  function Min(a: int, b: int): int { if a < b then a else b }

  function RealMin(a: real, b: real): real { if a < b then a else b }

  function RealMax(a: real, b: real): real { if a < b then b else a }

  function Abs(a: real): real { if a < 0.0 then -a else a }

  /** No element occurs twice. */
  predicate Distinct<T(==)>(s: seq<T>) {
    forall i, j :: 0 <= i < j < |s| ==> s[i] != s[j]
  }

  /** `Array.prototype.indexOf`: the first index holding `x`, or -1. */
  function IndexOf<T(==)>(s: seq<T>, x: T): (r: int)
    ensures r == -1 <==> x !in s
    ensures r != -1 ==> 0 <= r < |s| && s[r] == x && x !in s[..r]
  {
    if s == [] then -1
    else if s[0] == x then 0
    else
      var k := IndexOf(s[1..], x);
      if k == -1 then -1 else k + 1
  }

  /** The first occurrence is unique: an index holding `x` with no `x`
      before it is `IndexOf`. */
  lemma IndexOfUnique<T>(s: seq<T>, x: T, i: nat)
    requires i < |s| && s[i] == x && x !in s[..i]
    ensures IndexOf(s, x) == i
  {
  }

  /** `splice(k, 0, x)`: `x` inserted in front of index `k`. */
  function InsertAt<T>(s: seq<T>, k: nat, x: T): (r: seq<T>)
    requires k <= |s|
    ensures |r| == |s| + 1 && r[k] == x
    ensures forall i :: 0 <= i < k ==> r[i] == s[i]
    ensures forall i :: k < i < |r| ==> r[i] == s[i - 1]
  {
    s[..k] + [x] + s[k..]
  }

  /** `splice(k, 1)`: the element at index `k` taken out. */
  function RemoveAt<T>(s: seq<T>, k: nat): (r: seq<T>)
    requires k < |s|
    ensures |r| == |s| - 1
    ensures forall i :: 0 <= i < k ==> r[i] == s[i]
    ensures forall i :: k <= i < |r| ==> r[i] == s[i + 1]
  {
    s[..k] + s[k + 1..]
  }

  /** The elements of `s` that are not in `drop`, in their order. */
  function Except<T(==)>(s: seq<T>, drop: seq<T>): (r: seq<T>)
    ensures forall i :: 0 <= i < |r| ==> r[i] in s && r[i] !in drop
    ensures forall i :: 0 <= i < |s| && s[i] !in drop ==> s[i] in r
    ensures |r| <= |s|
  {
    if s == [] then []
    else (if s[0] in drop then [] else [s[0]]) + Except(s[1..], drop)
  }

  /** Taking out elements that do not occur changes nothing. */
  lemma {:induction false} ExceptNone<T>(s: seq<T>, drop: seq<T>)
    requires forall i :: 0 <= i < |s| ==> s[i] !in drop
    ensures Except(s, drop) == s
  {
    if s != [] {
      ExceptNone(s[1..], drop);
    }
  }

  /** Taking out `a` and then `b` is taking out `a + b`. */
  lemma {:induction false} ExceptTwice<T>(s: seq<T>, a: seq<T>, b: seq<T>)
    ensures Except(Except(s, a), b) == Except(s, a + b)
  {
    if s != [] {
      ExceptTwice(s[1..], a, b);
      var e := Except(s[1..], a);
      if s[0] in a {
        assert Except(s, a) == e;
      } else {
        assert Except(s, a) == [s[0]] + e;
        assert ([s[0]] + e)[1..] == e;
      }
    }
  }

  /** Taking elements out keeps a sequence without repetitions. */
  lemma {:induction false} ExceptDistinct<T>(s: seq<T>, drop: seq<T>)
    requires Distinct(s)
    ensures Distinct(Except(s, drop))
  {
    if s != [] {
      assert Distinct(s[1..]);
      ExceptDistinct(s[1..], drop);
    }
  }

  /** Taking out one more element of `drop`, the next in order. */
  lemma ExceptStep<T>(s: seq<T>, drop: seq<T>, i: nat)
    requires i < |drop|
    ensures Except(Except(s, drop[..i]), [drop[i]]) == Except(s, drop[..i + 1])
  {
    ExceptTwice(s, drop[..i], [drop[i]]);
    assert drop[..i + 1] == drop[..i] + [drop[i]];
  }

  /** In a sequence without repetitions, splicing out the first occurrence
      of `x` is taking out `x`. */
  lemma {:induction false} RemoveIsExcept<T>(s: seq<T>, x: T)
    requires Distinct(s) && x in s
    ensures RemoveAt(s, IndexOf(s, x)) == Except(s, [x])
  {
    if s[0] == x {
      assert s[1..] == RemoveAt(s, 0);
      assert x !in s[1..];
      ExceptNone(s[1..], [x]);
      assert Except(s, [x]) == Except(s[1..], [x]);
    } else {
      assert x in s[1..];
      var k := IndexOf(s[1..], x);
      assert IndexOf(s, x) == k + 1;
      assert Distinct(s[1..]);
      RemoveIsExcept(s[1..], x);
      var a, b := RemoveAt(s, k + 1), [s[0]] + RemoveAt(s[1..], k);
      forall i | 0 <= i < |a| ensures a[i] == b[i] {
        if 0 < i {
          assert b[i] == RemoveAt(s[1..], k)[i - 1];
        }
      }
      assert a == b;
      assert Except(s, [x]) == [s[0]] + Except(s[1..], [x]);
    }
  }

  /** Splicing in an element that is not there and then splicing out its
      first occurrence restores the sequence. */
  lemma InsertRemoveRoundTrip<T>(s: seq<T>, k: nat, x: T)
    requires k <= |s| && x !in s
    ensures IndexOf(InsertAt(s, k, x), x) == k
    ensures RemoveAt(InsertAt(s, k, x), k) == s
  {
    var r := InsertAt(s, k, x);
    assert r[..k] == s[..k];
    IndexOfUnique(r, x, k);
    assert RemoveAt(r, k) == s[..k] + s[k..];
  }

  lemma DistinctInsert<T>(s: seq<T>, k: nat, x: T)
    requires Distinct(s) && k <= |s| && x !in s
    ensures Distinct(InsertAt(s, k, x))
  {
    var r := InsertAt(s, k, x);
    forall i, j | 0 <= i < j < |r| ensures r[i] != r[j] {
      if i == k || j == k {
        assert r[if i == k then j else i] in s;
      }
    }
  }

  /** Moving the first `m` elements of `s` to the end of `t`, where the two
      share nothing and neither repeats, leaves two such sequences. */
  lemma MoveFront<T>(s: seq<T>, t: seq<T>, m: nat)
    requires Distinct(s) && Distinct(t) && m <= |s|
    requires forall i :: 0 <= i < |s| ==> s[i] !in t
    ensures Distinct(s[m..]) && Distinct(t + s[..m]) && Distinct(s[..m])
    ensures forall i :: 0 <= i < |s| - m ==> s[m..][i] !in t + s[..m]
    ensures forall i :: 0 <= i < m ==> s[i] !in s[m..]
    ensures forall j :: 0 <= j < |s| - m ==> s[m..][j] !in s[..m]
  {
    var h := t + s[..m];
    forall i, j | 0 <= i < j < |h| ensures h[i] != h[j] {
      if j >= |t| && i < |t| {
        assert h[j] == s[j - |t|];
      }
    }
  }

  lemma DistinctRemove<T>(s: seq<T>, k: nat)
    requires Distinct(s) && k < |s|
    ensures Distinct(RemoveAt(s, k))
    ensures forall y :: y in RemoveAt(s, k) <==> y in s && y != s[k]
  {
    var r := RemoveAt(s, k);
    forall y | y in s && y != s[k] ensures y in r {
      var i :| 0 <= i < |s| && s[i] == y;
      if i < k { assert r[i] == y; } else { assert r[i - 1] == y; }
    }
  }
}
