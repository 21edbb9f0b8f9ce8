/** The list operations the engine relies on: `List.remove(Object)`,
    `List.remove(int)`, counting with a filter, and a search for the first
    element that passes a test. */
module Seqs {

  /** The sequence without its element at position `k`. */
  function RemoveAt<T>(s: seq<T>, k: nat): (r: seq<T>)
    requires k < |s|
    ensures |r| == |s| - 1
    ensures forall j :: 0 <= j < k ==> r[j] == s[j]
    ensures forall j :: k <= j < |r| ==> r[j] == s[j + 1]
  {
    s[..k] + s[k + 1..]
  }

  lemma RemoveAtBag<T>(s: seq<T>, k: nat)
    requires k < |s|
    ensures multiset(RemoveAt(s, k)) == multiset(s) - multiset{s[k]}
  {
    assert s == s[..k] + [s[k]] + s[k + 1..];
  }

  /** Position of the first occurrence of `x`. */
  function IndexOf<T(==)>(s: seq<T>, x: T): (k: nat)
    requires x in s
    ensures k < |s| && s[k] == x
    ensures forall j :: 0 <= j < k ==> s[j] != x
  {
    if s[0] == x then 0 else 1 + IndexOf(s[1..], x)
  }

  /** `List.remove(Object)`: drop the first element equal to `x`, if any. */
  function RemoveFirst<T(==)>(s: seq<T>, x: T): (r: seq<T>)
  {
    if x in s then RemoveAt(s, IndexOf(s, x)) else s
  }

  lemma {:induction false} RemoveFirstBag<T>(s: seq<T>, x: T)
    ensures x in s ==> |RemoveFirst(s, x)| == |s| - 1
    ensures x in s ==> multiset(RemoveFirst(s, x)) == multiset(s) - multiset{x}
    ensures x !in s ==> RemoveFirst(s, x) == s
  {
    if x in s {
      RemoveAtBag(s, IndexOf(s, x));
    }
  }

  /** When the first element satisfying some test is the sought value, removing
      by value removes exactly that position. */
  lemma RemoveFirstAt<T>(s: seq<T>, k: nat)
    requires k < |s|
    requires forall j :: 0 <= j < k ==> s[j] != s[k]
    ensures RemoveFirst(s, s[k]) == RemoveAt(s, k)
  {
    var i := IndexOf(s, s[k]);
    assert i <= k;
    assert i == k;
  }

  /** Number of elements that pass the test, as `stream().filter(p).count()`. */
  function Count<T>(s: seq<T>, p: T -> bool): nat
  {
    if s == [] then 0 else (if p(s[0]) then 1 else 0) + Count(s[1..], p)
  }

  lemma {:induction false} CountAppend<T>(s: seq<T>, t: seq<T>, p: T -> bool)
    ensures Count(s + t, p) == Count(s, p) + Count(t, p)
  {
    if s != [] {
      assert (s + t)[0] == s[0];
      assert (s + t)[1..] == s[1..] + t;
      CountAppend(s[1..], t, p);
    } else {
      assert s + t == t;
    }
  }

  /** Position of the first element that passes the test, or the length when
      none does: a `for` loop that returns at the first match. */
  function FirstWhere<T>(s: seq<T>, p: T -> bool): (k: nat)
    ensures k <= |s|
    ensures forall j :: 0 <= j < k ==> !p(s[j])
    ensures k < |s| ==> p(s[k])
  {
    if s == [] then 0 else if p(s[0]) then 0 else 1 + FirstWhere(s[1..], p)
  }

  /** A loop that stopped at `n` after passing over elements that fail the
      test has found the first element that passes it. */
  lemma {:induction false} FirstWhereIs<T>(s: seq<T>, p: T -> bool, n: nat)
    requires n <= |s| && (forall j :: 0 <= j < n ==> !p(s[j])) && (n < |s| ==> p(s[n]))
    ensures FirstWhere(s, p) == n
  {
    if s != [] && n > 0 {
      FirstWhereIs(s[1..], p, n - 1);
    }
  }

  /** Removing one element lowers the count by one exactly when it passes. */
  lemma {:induction false} CountRemoveAt<T>(s: seq<T>, k: nat, p: T -> bool)
    requires k < |s|
    ensures Count(RemoveAt(s, k), p) + (if p(s[k]) then 1 else 0) == Count(s, p)
  {
    if k == 0 {
      assert RemoveAt(s, k) == s[1..];
    } else {
      var r := RemoveAt(s, k);
      assert r[0] == s[0];
      assert r[1..] == RemoveAt(s[1..], k - 1);
      CountRemoveAt(s[1..], k - 1, p);
    }
  }

  lemma RemoveFirstCount<T>(s: seq<T>, x: T, p: T -> bool)
    requires x in s && p(x)
    ensures Count(RemoveFirst(s, x), p) + 1 == Count(s, p)
  {
    CountRemoveAt(s, IndexOf(s, x), p);
  }

  /** `Collections.shuffle`: the same elements in some order. Which order is
      left open; callers may rely on nothing but the elements. */
  method Shuffle<T>(s: seq<T>) returns (r: seq<T>)
    ensures multiset(r) == multiset(s)
  {
    r := s;
  }

  /** A shuffle holds the same elements. */
  lemma ShuffledElements<T>(r: seq<T>, s: seq<T>)
    requires multiset(r) == multiset(s)
    ensures forall x :: x in r <==> x in s
  {
    forall x ensures x in r <==> x in s {
      assert x in r <==> x in multiset(r);
      assert x in s <==> x in multiset(s);
    }
  }

  /** The positions `0 .. n-1`, in order. */
  function Positions(n: nat): (r: seq<nat>)
    ensures |r| == n && forall k :: 0 <= k < n ==> r[k] == k
  {
    seq(n, k => k)
  }

  /** Every position below `n` occurs in any shuffle of the positions. */
  lemma ShuffledPositions(order: seq<nat>, n: nat)
    requires multiset(order) == multiset(Positions(n))
    ensures forall t :: 0 <= t < n <==> t in order
    ensures forall p :: 0 <= p < |order| ==> order[p] < n
  {
    forall p | 0 <= p < |order| ensures order[p] < n {
      assert order[p] in multiset(Positions(n));
    }
    forall t | 0 <= t < n ensures t in order {
      assert Positions(n)[t] == t;
      assert t in multiset(Positions(n));
    }
    forall t | t in order ensures 0 <= t < n {
      assert t in multiset(Positions(n));
    }
  }
}
