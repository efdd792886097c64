/** Sets and sequences of natural numbers, and sorting by a numeric key. */
module Ordering {

  ghost predicate Ascending(s: seq<nat>) {
    forall i, j :: 0 <= i < j < |s| ==> s[i] < s[j]
  }

  ghost predicate Descending(s: seq<nat>) {
    forall i, j :: 0 <= i < j < |s| ==> s[i] > s[j]
  }

  ghost predicate Nondecreasing(s: seq<nat>) {
    forall i, j :: 0 <= i < j < |s| ==> s[i] <= s[j]
  }

  function Elements(s: seq<nat>): set<nat> {
    set x | x in s
  }

  lemma SubsetSize(a: set<nat>, b: set<nat>)
    requires a <= b
    ensures |a| <= |b|
    ensures |a| == |b| ==> a == b
  {
    assert b == a + (b - a);
  }

  lemma {:induction false} DistinctElements(s: seq<nat>)
    requires forall i, j :: 0 <= i < j < |s| ==> s[i] != s[j]
    ensures |Elements(s)| == |s|
  {
    if s != [] {
      var last := s[|s| - 1];
      DistinctElements(s[..|s| - 1]);
      assert Elements(s) == Elements(s[..|s| - 1]) + {last};
    }
  }

  lemma {:induction false} FewElements(s: seq<nat>)
    ensures |Elements(s)| <= |s|
  {
    if s != [] {
      FewElements(s[..|s| - 1]);
      assert Elements(s) == Elements(s[..|s| - 1]) + {s[|s| - 1]};
    }
  }

  function Reversed(s: seq<nat>): seq<nat> {
    seq(|s|, i requires 0 <= i < |s| => s[|s| - 1 - i])
  }

  lemma ReversedElements(s: seq<nat>)
    ensures Elements(Reversed(s)) == Elements(s)
  {
    forall x | x in s ensures x in Reversed(s) {
      var i :| 0 <= i < |s| && s[i] == x;
      assert Reversed(s)[|s| - 1 - i] == x;
    }
  }

  lemma InPrefix(s: seq<nat>, t: seq<nat>, j: nat)
    requires t <= s && j < |t|
    ensures s[j] in t
  {
    assert s[j] == t[j];
  }

  lemma BeyondPrefix(s: seq<nat>, t: seq<nat>, j: nat)
    requires t <= s && j < |s| && s[j] !in t
    ensures |t| <= j
  {
    assert t == s[..|t|];
  }

  ghost predicate InOrder<T>(s: seq<T>, key: T -> nat) {
    forall i, j :: 0 <= i < j < |s| ==> key(s[i]) <= key(s[j])
  }

  lemma InsertKeepsOrder<T>(s: seq<T>, k: nat, e: T, key: T -> nat)
    requires k <= |s| && InOrder(s, key)
    requires k > 0 ==> key(s[k - 1]) <= key(e)
    requires k < |s| ==> key(e) <= key(s[k])
    ensures InOrder(s[..k] + [e] + s[k..], key)
  {
    var t := s[..k] + [e] + s[k..];
    assert forall i :: 0 <= i < |t| ==> t[i] == if i < k then s[i] else if i == k then e else s[i - 1];
    forall i, j | 0 <= i < j < |t| ensures key(t[i]) <= key(t[j]) {
      if j == k {
        assert key(s[i]) <= key(s[k - 1]);
      } else if i == k {
        assert key(s[k]) <= key(s[j - 1]);
      }
    }
  }

  method InsertBy<T>(s: seq<T>, e: T, key: T -> nat) returns (t: seq<T>)
    requires InOrder(s, key)
    ensures InOrder(t, key) && multiset(t) == multiset(s) + multiset{e}
  {
    var k := |s|;
    while k > 0 && key(s[k - 1]) > key(e)
      invariant 0 <= k <= |s|
      invariant k < |s| ==> key(e) <= key(s[k])
    {
      k := k - 1;
    }
    InsertKeepsOrder(s, k, e, key);
    t := s[..k] + [e] + s[k..];
    assert s == s[..k] + s[k..];
  }

  /** What an in-place library sort leaves behind: the same elements, ascending by key. */
  method SortBy<T>(items: seq<T>, key: T -> nat) returns (sorted: seq<T>)
    ensures InOrder(sorted, key) && multiset(sorted) == multiset(items)
  {
    sorted := [];
    for i := 0 to |items|
      invariant InOrder(sorted, key) && multiset(sorted) == multiset(items[..i])
    {
      assert items[..i + 1] == items[..i] + [items[i]];
      sorted := InsertBy(sorted, items[i], key);
    }
    assert items[..|items|] == items;
  }

  lemma RepeatsShrinkElements(s: seq<nat>, i: nat, j: nat)
    requires i < j < |s| && s[i] == s[j]
    ensures |Elements(s)| < |s|
  {
    var t := s[..j] + s[j + 1..];
    forall x | x in s ensures x in t {
      var k :| 0 <= k < |s| && s[k] == x;
      assert t[i] == s[i];
      assert k < j ==> t[k] == x;
      assert k > j ==> t[k - 1] == x;
    }
    assert Elements(s) == Elements(t);
    FewElements(t);
  }

  /** Sorting numbers without repeats gives a strictly ascending sequence of the same set. */
  lemma SortedDistinct(s: seq<nat>, sorted: seq<nat>)
    requires forall i, j :: 0 <= i < j < |s| ==> s[i] != s[j]
    requires multiset(sorted) == multiset(s) && Nondecreasing(sorted)
    ensures Ascending(sorted) && Elements(sorted) == Elements(s)
  {
    forall x ensures x in sorted <==> x in s {
      assert x in sorted <==> x in multiset(sorted);
      assert x in s <==> x in multiset(s);
    }
    assert |multiset(sorted)| == |sorted| && |multiset(s)| == |s|;
    DistinctElements(s);
    assert Elements(sorted) == Elements(s);
    forall i, j | 0 <= i < j < |sorted| ensures sorted[i] < sorted[j] {
      if sorted[i] == sorted[j] {
        RepeatsShrinkElements(sorted, i, j);
      }
    }
  }

  lemma TailElements(s: seq<nat>)
    requires Ascending(s) && s != []
    ensures Elements(s[1..]) == Elements(s) - {s[0]} && Ascending(s[1..])
  {
    forall x | x in Elements(s) - {s[0]} ensures x in s[1..] {
      var i :| 0 <= i < |s| && s[i] == x;
      assert s[1..][i - 1] == x;
    }
  }

  /** A strictly ascending sequence is determined by its elements. */
  lemma {:induction false} AscendingIsUnique(s: seq<nat>, t: seq<nat>)
    requires Ascending(s) && Ascending(t) && Elements(s) == Elements(t)
    ensures s == t
  {
    assert s != [] ==> s[0] in Elements(s);
    assert t != [] ==> t[0] in Elements(t);
    if s != [] && t != [] {
      assert s[0] in Elements(t) && t[0] in Elements(s);
      assert s[0] == t[0];
      TailElements(s);
      TailElements(t);
      AscendingIsUnique(s[1..], t[1..]);
    }
  }
}
