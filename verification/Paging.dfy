/**
 History and catch-up pages. A page is assembled from two collections that
 were each cut off before merging; pages are chained by the caller while
 other clients keep inserting.
 */
module Paging {
  import opened Ordering

  function EffectiveLimit(limit: int): (n: nat)
    ensures 1 <= n <= 100
  {
    if limit <= 0 || limit > 100 then 50 else limit
  }

  /** The numbers a backward query may return; `end == 0` asks for the latest. */
  function Below(u: set<nat>, end: nat): set<nat> {
    set x | x in u && (end == 0 || x < end)
  }

  function Above(u: set<nat>, last: nat): set<nat> {
    set x | x in u && last < x
  }

  /** `p` are the `n` largest members of `u`, or all of them. */
  ghost predicate IsTop(p: set<nat>, u: set<nat>, n: nat) {
    && p <= u
    && |p| == (if |u| < n then |u| else n)
    && forall x, y :: x in p && y in u && y !in p ==> y < x
  }

  /** `p` are the `n` smallest members of `u`, or all of them. */
  ghost predicate IsBottom(p: set<nat>, u: set<nat>, n: nat) {
    && p <= u
    && |p| == (if |u| < n then |u| else n)
    && forall x, y :: x in p && y in u && y !in p ==> x < y
  }

  // ------------------------------------------------------------------ cutting and merging

  lemma CutUnionSize(a: set<nat>, b: set<nat>, pa: set<nat>, pb: set<nat>, n: nat)
    requires IsTop(pa, a, n + 1) && IsTop(pb, b, n + 1)
    ensures |a + b| > n ==> |pa + pb| > n
    ensures |a + b| <= n ==> pa + pb == a + b
  {
    SubsetSize(pa, pa + pb);
    SubsetSize(pb, pa + pb);
    SubsetSize(a, a + b);
    SubsetSize(b, a + b);
    SubsetSize(pa, a);
    SubsetSize(pb, b);
  }

  /** A member cut from one source lies below everything on the page. */
  lemma OmittedIsSmaller(a: set<nat>, pa: set<nat>, t: set<nat>, p: set<nat>, n: nat, x: nat, y: nat)
    requires IsTop(pa, a, n + 1) && pa <= t && IsTop(p, t, n)
    requires x in p && y in a && y !in pa
    ensures y < x
  {
    if x <= y {
      SubsetSize(pa, a);
      assert pa <= p;
      SubsetSize(pa, p);
    }
  }

  /**
   Cutting each source at one more than the page size loses nothing: the page
   taken from the cut sources is the page of the whole union, and whether more
   is left can be told from the cut sources.
   */
  lemma TopOfCutUnion(a: set<nat>, b: set<nat>, pa: set<nat>, pb: set<nat>, p: set<nat>, n: nat)
    requires IsTop(pa, a, n + 1) && IsTop(pb, b, n + 1) && IsTop(p, pa + pb, n)
    ensures IsTop(p, a + b, n)
    ensures |pa + pb| > n <==> |a + b| > n
  {
    CutUnionSize(a, b, pa, pb, n);
    SubsetSize(pa + pb, a + b);
    forall x, y | x in p && y in a + b && y !in p ensures y < x {
      if y !in pa + pb {
        if y in a {
          OmittedIsSmaller(a, pa, pa + pb, p, n, x, y);
        } else {
          OmittedIsSmaller(b, pb, pa + pb, p, n, x, y);
        }
      }
    }
  }

  // ------------------------------------------------------------------ queries

  method Largest(u: set<nat>) returns (m: nat)
    requires u != {}
    ensures m in u && forall x :: x in u ==> x <= m
  {
    m :| m in u;
    var rest := u - {m};
    while rest != {}
      invariant m in u && rest <= u
      invariant forall x :: x in u && x !in rest ==> x <= m
      decreases rest
    {
      var x :| x in rest;
      if x > m {
        m := x;
      }
      rest := rest - {x};
    }
  }

  lemma ExtendTop(found: seq<nat>, u: set<nat>, m: nat)
    requires Descending(found) && |found| <= |u| && IsTop(Elements(found), u, |found|)
    requires m in u - Elements(found) && forall x :: x in u - Elements(found) ==> x <= m
    ensures Descending(found + [m]) && |found| + 1 <= |u| && IsTop(Elements(found + [m]), u, |found| + 1)
  {
    assert Elements(found + [m]) == Elements(found) + {m};
    assert forall i :: 0 <= i < |found| ==> found[i] in Elements(found);
    DistinctElements(found);
    SubsetSize(Elements(found) + {m}, u);
    forall x, y | x in Elements(found) + {m} && y in u && y !in Elements(found) + {m} ensures y < x {
      assert y in u - Elements(found);
    }
  }

  /** A query sorted by descending number with a limit. */
  method FindNewest(u: set<nat>, n: nat) returns (found: seq<nat>)
    ensures Descending(found) && IsTop(Elements(found), u, n)
    ensures |found| == if |u| < n then |u| else n
  {
    found := [];
    var rest := u;
    while rest != {} && |found| < n
      invariant rest == u - Elements(found)
      invariant |found| <= n && |found| <= |u| && Descending(found) && IsTop(Elements(found), u, |found|)
      decreases rest
    {
      var m := Largest(rest);
      ExtendTop(found, u, m);
      assert Elements(found + [m]) == Elements(found) + {m};
      found := found + [m];
      rest := rest - {m};
    }
    if rest == {} {
      SubsetSize(Elements(found), u);
    }
    DistinctElements(found);
  }

  lemma FirstAreSmallest(s: seq<nat>, t: seq<nat>)
    requires Ascending(s) && t <= s
    ensures Elements(t) <= Elements(s) && forall x, y :: x in t && y in s && y !in t ==> x < y
  {
    forall x, y | x in t && y in s && y !in t ensures x < y {
      var i :| 0 <= i < |t| && t[i] == x;
      var j :| 0 <= j < |s| && s[j] == y;
      BeyondPrefix(s, t, j);
      assert s[i] == x;
    }
  }

  /** A query sorted by ascending number with a limit. */
  method FindOldest(u: set<nat>, n: nat) returns (found: seq<nat>)
    ensures Ascending(found) && IsBottom(Elements(found), u, n)
    ensures |found| == if |u| < n then |u| else n
  {
    var all := FindNewest(u, |u|);
    SubsetSize(Elements(all), u);
    ReversedElements(all);
    found := Reversed(all)[..if |u| < n then |u| else n];
    DistinctElements(found);
    FirstAreSmallest(Reversed(all), found);
  }

  // ------------------------------------------------------------------ backward pages

  /** One message of a page: its number and its stored content. */
  datatype Entry<V> = Entry(seqNo: nat, value: V)

  /** An entry carries the stored message of its number, or else the mention. */
  ghost predicate ValueOk<V>(stored: map<nat, V>, mentions: map<nat, V>, e: Entry<V>) {
    if e.seqNo in stored then e.value == stored[e.seqNo]
    else e.seqNo in mentions && e.value == mentions[e.seqNo]
  }

  ghost predicate HasValue<V>(source: map<nat, V>, e: Entry<V>) {
    e.seqNo in source && e.value == source[e.seqNo]
  }

  function Numbers<V>(page: seq<Entry<V>>): seq<nat> {
    seq(|page|, i requires 0 <= i < |page| => page[i].seqNo)
  }

  /** Adds rows found by a query to the merge map, without replacing what is there. */
  method MergeRows<V>(merged: map<nat, V>, source: map<nat, V>, found: seq<nat>) returns (result: map<nat, V>)
    requires Elements(found) <= source.Keys
    ensures result.Keys == merged.Keys + Elements(found)
    ensures forall x :: x in result ==> result[x] == if x in merged then merged[x] else source[x]
  {
    result := merged;
    for i := 0 to |found|
      invariant result.Keys == merged.Keys + Elements(found[..i])
      invariant forall x :: x in result ==> x in merged || x in source
      invariant forall x :: x in result ==> result[x] == if x in merged then merged[x] else source[x]
    {
      assert found[i] in Elements(found) && Elements(found[..i + 1]) == Elements(found[..i]) + {found[i]};
      if found[i] !in result {
        result := result[found[i] := source[found[i]]];
      }
    }
    assert found[..|found|] == found;
  }

  /** Reverses the slice in place, as the storage does before returning a page. */
  method Reverse(a: array<nat>)
    modifies a
    ensures forall k :: 0 <= k < a.Length ==> a[k] == old(a[a.Length - 1 - k])
  {
    var i, j := 0, a.Length - 1;
    while i < j
      invariant 0 <= i && i + j == a.Length - 1 && -1 <= j
      invariant forall k :: 0 <= k < i || j < k < a.Length ==> a[k] == old(a[a.Length - 1 - k])
      invariant forall k :: i <= k <= j ==> a[k] == old(a[k])
    {
      a[i], a[j] := a[j], a[i];
      i, j := i + 1, j - 1;
    }
  }

  /** A stored number that comes from the mentions query was not cut from the page by mistake. */
  lemma MentionedBelow(u: set<nat>, end: nat, n: nat, pa: set<nat>, pb: set<nat>, p: set<nat>)
    requires IsTop(pa, Below(u, end), n + 1) && IsTop(p, pa + pb, n)
    requires forall x :: x in pb ==> end == 0 || x < end
    ensures forall x :: x in p && x in u ==> x in pa
  {
    forall x | x in p && x in u ensures x in pa {
      if x !in pa {
        assert x in Below(u, end);
        OmittedIsSmaller(Below(u, end), pa, pa + pb, p, n, x, x);
      }
    }
  }

  lemma MergedValues<V>(stored: map<nat, V>, mentions: map<nat, V>, end: nat, n: nat,
                        merged: map<nat, V>, pa: set<nat>, pb: set<nat>, page: seq<Entry<V>>)
    requires IsTop(pa, Below(stored.Keys, end), n + 1) && pb <= Below(mentions.Keys, end)
    requires merged.Keys == pa + pb && IsTop(Elements(Numbers(page)), merged.Keys, n)
    requires forall x :: x in merged ==> merged[x] == if x in pa then stored[x] else mentions[x]
    requires forall i :: 0 <= i < |page| ==> page[i].seqNo in merged && page[i].value == merged[page[i].seqNo]
    ensures forall i :: 0 <= i < |page| ==> ValueOk(stored, mentions, page[i])
  {
    MentionedBelow(stored.Keys, end, n, pa, pb, Elements(Numbers(page)));
    forall i | 0 <= i < |page| ensures ValueOk(stored, mentions, page[i]) {
      assert Numbers(page)[i] in Elements(Numbers(page));
    }
  }

  /** Both queries, each cut at one more than the page, merged by number. */
  method MergeNewest<V>(stored: map<nat, V>, mentions: map<nat, V>, end: nat, n: nat)
    returns (merged: map<nat, V>, ghost pa: set<nat>, ghost pb: set<nat>)
    ensures IsTop(pa, Below(stored.Keys, end), n + 1) && IsTop(pb, Below(mentions.Keys, end), n + 1)
    ensures merged.Keys == pa + pb
    ensures forall x :: x in merged ==> merged[x] == if x in pa then stored[x] else mentions[x]
  {
    var fromStored := FindNewest(Below(stored.Keys, end), n + 1);
    merged := MergeRows(map[], stored, fromStored);
    assert merged.Keys == Elements(fromStored) && forall x :: x in merged ==> merged[x] == stored[x];
    var fromMentions := FindNewest(Below(mentions.Keys, end), n + 1);
    merged := MergeRows(merged, mentions, fromMentions);
    pa, pb := Elements(fromStored), Elements(fromMentions);
  }

  lemma CutIsTop(sorted: seq<nat>, u: set<nat>, kept: seq<nat>, n: nat)
    requires Descending(sorted) && Elements(sorted) == u && |sorted| == |u|
    requires kept == if |sorted| > n then sorted[..n] else sorted
    ensures Descending(kept) && IsTop(Elements(kept), u, n)
  {
    DistinctElements(kept);
    forall x, y | x in kept && y in u && y !in kept ensures y < x {
      var i :| 0 <= i < |kept| && kept[i] == x;
      var j :| 0 <= j < |sorted| && sorted[j] == y;
      BeyondPrefix(sorted, kept, j);
      assert sorted[i] == x;
    }
  }

  /** Sort descending, cut, reverse in place. */
  method NewestNumbers(u: set<nat>, n: nat) returns (numbers: seq<nat>, more: bool)
    ensures Ascending(numbers) && IsTop(Elements(numbers), u, n)
    ensures more <==> |u| > n
  {
    var sorted := FindNewest(u, |u|);
    SubsetSize(Elements(sorted), u);
    more := |sorted| > n;
    var kept := if more then sorted[..n] else sorted;
    CutIsTop(sorted, u, kept, n);
    var slice := new nat[|kept|](i requires 0 <= i < |kept| => kept[i]);
    Reverse(slice);
    numbers := slice[..];
    assert numbers == Reversed(kept);
    ReversedElements(kept);
  }

  /** The part after merging. */
  method NewestEntries<V>(merged: map<nat, V>, n: nat) returns (page: seq<Entry<V>>, more: bool)
    ensures Ascending(Numbers(page)) && IsTop(Elements(Numbers(page)), merged.Keys, n)
    ensures more <==> |merged.Keys| > n
    ensures forall i :: 0 <= i < |page| ==> page[i].seqNo in merged && page[i].value == merged[page[i].seqNo]
  {
    var numbers: seq<nat>;
    numbers, more := NewestNumbers(merged.Keys, n);
    page := [];
    for i := 0 to |numbers|
      invariant |page| == i
      invariant forall k :: 0 <= k < i ==> numbers[k] in merged && page[k] == Entry(numbers[k], merged[numbers[k]])
    {
      assert numbers[i] in Elements(numbers);
      page := page + [Entry(numbers[i], merged[numbers[i]])];
    }
    assert Numbers(page) == numbers;
  }

  /**
   GetHistoryMessages over two sources: group messages and the user's
   mentions, or an inbox and nothing. The page is exactly the `limit` largest
   numbers below `end` of the union, in ascending order, messages winning over
   mentions; `more` tells exactly whether the union holds others. A limit that
   is not between 1 and 100 counts as 50.
   */
  method GetHistory<V>(stored: map<nat, V>, mentions: map<nat, V>, end: nat, limit: int)
    returns (page: seq<Entry<V>>, more: bool)
    ensures Ascending(Numbers(page))
    ensures
      var n, u := if 1 <= limit <= 100 then limit else 50, Below(stored.Keys + mentions.Keys, end);
      IsTop(Elements(Numbers(page)), u, n) && (more <==> |u| > n)
    ensures forall i :: 0 <= i < |page| ==> ValueOk(stored, mentions, page[i])
  {
    var n := EffectiveLimit(limit);
    var merged, pa, pb := MergeNewest(stored, mentions, end, n);
    page, more := NewestEntries(merged, n);
    assert Below(stored.Keys, end) + Below(mentions.Keys, end) == Below(stored.Keys + mentions.Keys, end);
    TopOfCutUnion(Below(stored.Keys, end), Below(mentions.Keys, end), pa, pb, Elements(Numbers(page)), n);
    MergedValues(stored, mentions, end, n, merged, pa, pb, page);
  }

  // ------------------------------------------------------------------ forward pages

  /** A catch-up page after `last`: in order, nothing left out up to its end, and everything if it is short. */
  ghost predicate CatchUp(page: seq<nat>, u: set<nat>, last: nat, n: nat) {
    && Nondecreasing(page) && |page| <= n
    && (forall y :: y in page ==> y in Above(u, last))
    && (forall x :: x in Above(u, last) && |page| < n ==> x in page)
    && (forall x, y :: x in Above(u, last) && x !in page && y in page ==> y < x)
  }

  lemma NotSkipped(u: set<nat>, la: seq<nat>, all: seq<nat>, page: seq<nat>, n: nat, x: nat, y: nat)
    requires IsBottom(Elements(la), u, n) && Elements(la) <= Elements(all) && Nondecreasing(all)
    requires page == if |all| > n then all[..n] else all
    requires x in u && x !in page && y in page
    ensures y < x
  {
    var i :| 0 <= i < |page| && page[i] == y;
    assert all[i] == y;
    if x in Elements(la) {
      assert x in Elements(all);
      var j :| 0 <= j < |all| && all[j] == x;
      BeyondPrefix(all, page, j);
    } else if x <= y {
      SubsetSize(Elements(la), u);
      forall z | z in Elements(la) ensures z in all[..i] {
        assert z in Elements(all);
        var k :| 0 <= k < |all| && all[k] == z;
        assert k < i;
        InPrefix(all, all[..i], k);
      }
      SubsetSize(Elements(la), Elements(all[..i]));
      FewElements(all[..i]);
    }
  }

  /** Two ascending lists, each cut at `n`, concatenated with repeats, sorted and cut again. */
  lemma MergedPageCatchesUp(a: set<nat>, b: set<nat>, last: nat, n: nat, la: seq<nat>, lb: seq<nat>,
                            all: seq<nat>, page: seq<nat>)
    requires IsBottom(Elements(la), Above(a, last), n) && IsBottom(Elements(lb), Above(b, last), n)
    requires Nondecreasing(all) && |all| == |la| + |lb| && Elements(all) == Elements(la) + Elements(lb)
    requires page == if |all| > n then all[..n] else all
    ensures CatchUp(page, a + b, last, n)
  {
    assert forall y :: y in page ==> y in all && y in Elements(all);
    forall x | x in Above(a + b, last) ensures |page| < n ==> x in page {
      if |page| < n {
        FewElements(la);
        FewElements(lb);
        SubsetSize(Elements(la), Above(a, last));
        SubsetSize(Elements(lb), Above(b, last));
        assert x in Elements(all);
      }
    }
    forall x, y | x in Above(a + b, last) && x !in page && y in page ensures y < x {
      if x in Above(a, last) {
        NotSkipped(Above(a, last), la, all, page, n, x, y);
      } else {
        NotSkipped(Above(b, last), lb, all, page, n, x, y);
      }
    }
  }

  /** Rows of a query as page entries. */
  method Entries<V>(source: map<nat, V>, found: seq<nat>) returns (es: seq<Entry<V>>)
    requires Elements(found) <= source.Keys
    ensures Numbers(es) == found
    ensures forall e :: e in es ==> e.seqNo in source && e.value == source[e.seqNo]
  {
    es := [];
    for i := 0 to |found|
      invariant |es| == i
      invariant forall k :: 0 <= k < i ==> es[k].seqNo == found[k]
      invariant forall e :: e in es ==> e.seqNo in source && e.value == source[e.seqNo]
    {
      assert found[i] in Elements(found);
      es := es + [Entry(found[i], source[found[i]])];
    }
  }

  lemma MemberNumbers<V>(s: seq<Entry<V>>)
    ensures forall x :: x in Elements(Numbers(s)) <==> exists e :: e in s && e.seqNo == x
  {
    forall x | x in Elements(Numbers(s)) ensures exists e :: e in s && e.seqNo == x {
      var i :| 0 <= i < |s| && Numbers(s)[i] == x;
      assert s[i] in s;
    }
    forall e | e in s ensures e.seqNo in Elements(Numbers(s)) {
      var i :| 0 <= i < |s| && s[i] == e;
      assert Numbers(s)[i] == e.seqNo;
    }
  }

  lemma SameNumbers<V>(ea: seq<Entry<V>>, eb: seq<Entry<V>>, all: seq<Entry<V>>)
    requires multiset(all) == multiset(ea + eb)
    requires forall i, j :: 0 <= i < j < |all| ==> all[i].seqNo <= all[j].seqNo
    ensures |all| == |ea| + |eb| && Nondecreasing(Numbers(all))
    ensures Elements(Numbers(all)) == Elements(Numbers(ea)) + Elements(Numbers(eb))
  {
    assert |multiset(all)| == |all| && |multiset(ea + eb)| == |ea + eb|;
    MemberNumbers(all);
    MemberNumbers(ea);
    MemberNumbers(eb);
    forall e ensures e in all <==> e in ea || e in eb {
      assert e in all <==> e in multiset(all);
      assert e in ea + eb <==> e in multiset(ea + eb);
    }
  }

  /** Concatenate, sort by number and cut; `all` are the numbers before the cut. */
  method MergeAndSort<V>(ea: seq<Entry<V>>, eb: seq<Entry<V>>, n: nat) returns (page: seq<Entry<V>>, ghost all: seq<nat>)
    ensures |all| == |ea| + |eb| && Nondecreasing(all)
    ensures Elements(all) == Elements(Numbers(ea)) + Elements(Numbers(eb))
    ensures Numbers(page) == if |all| > n then all[..n] else all
    ensures forall e :: e in page ==> e in ea || e in eb
  {
    var sorted := SortBy(ea + eb, (e: Entry<V>) => e.seqNo);
    SameNumbers(ea, eb, sorted);
    page := if |sorted| > n then sorted[..n] else sorted;
    all := Numbers(sorted);
    forall e | e in page ensures e in ea || e in eb {
      assert e in sorted && e in multiset(sorted);
      assert e in multiset(ea + eb);
    }
  }

  /**
   The forward pull: both sources after `last`, each cut at the limit, merged
   with repeats, sorted and cut. `more` is a guess from the page length.
   */
  method GetNewer<V>(stored: map<nat, V>, mentions: map<nat, V>, last: nat, limit: int)
    returns (page: seq<Entry<V>>, more: bool)
    ensures
      var n := if 1 <= limit <= 100 then limit else 50;
      CatchUp(Numbers(page), stored.Keys + mentions.Keys, last, n) && (more <==> |page| == n)
    ensures forall e :: e in page ==>
              (e.seqNo in stored && e.value == stored[e.seqNo]) || (e.seqNo in mentions && e.value == mentions[e.seqNo])
  {
    var n := EffectiveLimit(limit);
    var la := FindOldest(Above(stored.Keys, last), n);
    var lb := FindOldest(Above(mentions.Keys, last), n);
    var ea := Entries(stored, la);
    var eb := Entries(mentions, lb);
    ghost var all;
    page, all := MergeAndSort(ea, eb, n);
    more := |page| >= n;
    MergedPageCatchesUp(stored.Keys, mentions.Keys, last, n, la, lb, all, Numbers(page));
  }

  // ------------------------------------------------------------------ the service

  /**
   PullMessages: a backward page when `end` is given or neither anchor is, a
   forward page otherwise. `next` is the anchor for going on backward, and one
   past the last number forward. A failed mention query counts as no mentions
   in forward mode; any other failed query gives the empty reply.
   */
  method PullMessages<V>(group: bool, inbox: map<nat, V>, stored: map<nat, V>, mentions: map<nat, V>,
                         last: nat, end: nat, limit: int, up: bool, mentionsUp: bool)
    returns (page: seq<Entry<V>>, more: bool, next: nat)
    ensures !up ==> page == [] && !more && next == 0
    ensures up && (end > 0 || last == 0) ==>
              var u := if group then stored.Keys + mentions.Keys else inbox.Keys;
              var n := if 1 <= limit <= 100 then limit else 50;
              && Ascending(Numbers(page)) && IsTop(Elements(Numbers(page)), Below(u, end), n)
              && (more <==> |Below(u, end)| > n)
              && (next == if page == [] then 0 else page[0].seqNo)
              && forall e :: e in page ==>
                   ValueOk(if group then stored else inbox, if group then mentions else map[], e)
    ensures up && end == 0 && last > 0 ==>
              var u := if !group then inbox.Keys else if mentionsUp then stored.Keys + mentions.Keys else stored.Keys;
              var n := if 1 <= limit <= 100 then limit else 50;
              && CatchUp(Numbers(page), u, last, n) && (more <==> |page| == n)
              && (next == if page == [] then 0 else page[|page| - 1].seqNo + 1)
              && forall e :: e in page ==>
                   || HasValue(if group then stored else inbox, e)
                   || (group && mentionsUp && HasValue(mentions, e))
  {
    page, more, next := [], false, 0;
    if !up {
      return;
    }
    var first := if group then stored else inbox;
    if end > 0 || last == 0 {
      var second := if group then mentions else map[];
      assert first.Keys + second.Keys == if group then stored.Keys + mentions.Keys else inbox.Keys;
      page, more := GetHistory(first, second, end, limit);
      next := if page == [] then 0 else page[0].seqNo;
    } else {
      var second := if group && mentionsUp then mentions else map[];
      assert first.Keys + second.Keys ==
        if !group then inbox.Keys else if mentionsUp then stored.Keys + mentions.Keys else stored.Keys;
      page, more := GetNewer(first, second, last, limit);
      next := if page == [] then 0 else page[|page| - 1].seqNo + 1;
    }
  }

  // ------------------------------------------------------------------ chains of pages

  /**
   A complete backward walk: page `i` is taken from whatever the two queries
   of that request saw (`seen[i]`), the next request ends at the oldest number
   returned, and the walk stops when nothing more is reported.
   */
  ghost predicate BackwardWalk(seen: seq<set<nat>>, pages: seq<seq<nat>>, end: nat, n: nat) {
    && |seen| == |pages| >= 1
    && Ascending(pages[0]) && IsTop(Elements(pages[0]), Below(seen[0], end), n)
    && if |Below(seen[0], end)| <= n then |pages| == 1
       else |pages[0]| > 0 && BackwardWalk(seen[1..], pages[1..], pages[0][0], n)
  }

  /** All numbers of the later pages are below the anchor they were asked with. */
  lemma {:induction false} WalkStaysBelow(seen: seq<set<nat>>, pages: seq<seq<nat>>, end: nat, n: nat, i: nat, x: nat)
    requires BackwardWalk(seen, pages, end, n) && end > 0 && i < |pages| && x in pages[i]
    requires forall k, y :: 0 <= k < |seen| && y in seen[k] ==> y > 0
    ensures x < end
  {
    if i > 0 {
      assert pages[0][0] in Elements(pages[0]);
      assert pages[1..][i - 1] == pages[i];
      WalkStaysBelow(seen[1..], pages[1..], pages[0][0], n, i - 1, x);
    } else {
      assert x in Elements(pages[0]);
    }
  }

  /** No number is returned on two pages. */
  lemma {:induction false} WalkNeverRepeats(seen: seq<set<nat>>, pages: seq<seq<nat>>, end: nat, n: nat,
                                            i: nat, j: nat, x: nat)
    requires BackwardWalk(seen, pages, end, n) && i < j < |pages| && x in pages[i]
    requires forall k, y :: 0 <= k < |seen| && y in seen[k] ==> y > 0
    ensures x !in pages[j]
  {
    var oldest := pages[0][0];
    assert oldest in Elements(pages[0]);
    assert pages[1..][j - 1] == pages[j];
    if i > 0 {
      assert pages[1..][i - 1] == pages[i];
      WalkNeverRepeats(seen[1..], pages[1..], oldest, n, i - 1, j - 1, x);
    } else if x in pages[j] {
      WalkStaysBelow(seen[1..], pages[1..], oldest, n, j - 1, x);
    }
  }

  /** Everything that was there throughout the walk is returned, whatever was inserted meanwhile. */
  lemma {:induction false} WalkCoversAll(seen: seq<set<nat>>, pages: seq<seq<nat>>, end: nat, n: nat, x: nat)
    requires BackwardWalk(seen, pages, end, n)
    requires end == 0 || x < end
    requires forall k :: 0 <= k < |seen| ==> x in seen[k]
    ensures exists i :: 0 <= i < |pages| && x in pages[i]
  {
    if x in pages[0] {
    } else {
      assert x in Below(seen[0], end) && x !in Elements(pages[0]);
      SubsetSize(Elements(pages[0]), Below(seen[0], end));
      assert pages[0][0] in Elements(pages[0]);
      WalkCoversAll(seen[1..], pages[1..], pages[0][0], n, x);
      var i :| 0 <= i < |pages[1..]| && x in pages[1..][i];
      assert pages[i + 1] == pages[1..][i];
    }
  }

  /** A walk that may go on: every page but the last reported more. */
  ghost predicate BackwardChain(seen: seq<set<nat>>, pages: seq<seq<nat>>, end: nat, n: nat) {
    && |seen| == |pages| >= 1
    && Ascending(pages[0]) && IsTop(Elements(pages[0]), Below(seen[0], end), n)
    && (|pages| > 1 ==>
          |Below(seen[0], end)| > n && |pages[0]| > 0 && BackwardChain(seen[1..], pages[1..], pages[0][0], n))
  }

  /** No chain goes on for ever: after the first page there are at most as many pages as its oldest number. */
  lemma {:induction false} WalkTerminates(seen: seq<set<nat>>, pages: seq<seq<nat>>, end: nat, n: nat)
    requires BackwardChain(seen, pages, end, n)
    requires forall k, y :: 0 <= k < |seen| && y in seen[k] ==> y > 0
    ensures end > 0 ==> |pages| <= end
    ensures |pages| > 1 ==> |pages| <= 1 + pages[0][0]
  {
    if |pages| > 1 {
      assert pages[0][0] in Elements(pages[0]);
      WalkTerminates(seen[1..], pages[1..], pages[0][0], n);
    }
  }

  /** A complete forward walk, anchored at the last number returned. */
  ghost predicate ForwardWalk(seen: seq<set<nat>>, pages: seq<seq<nat>>, last: nat, n: nat) {
    && |seen| == |pages| >= 1
    && CatchUp(pages[0], seen[0], last, n)
    && if |pages[0]| < n then |pages| == 1
       else |pages[0]| > 0 && ForwardWalk(seen[1..], pages[1..], pages[0][|pages[0]| - 1], n)
  }

  lemma {:induction false} ForwardCoversAll(seen: seq<set<nat>>, pages: seq<seq<nat>>, last: nat, n: nat, x: nat)
    requires ForwardWalk(seen, pages, last, n)
    requires last < x
    requires forall k :: 0 <= k < |seen| ==> x in seen[k]
    ensures exists i :: 0 <= i < |pages| && x in pages[i]
  {
    if x !in pages[0] {
      assert x in Above(seen[0], last);
      var newest := pages[0][|pages[0]| - 1];
      assert newest in pages[0];
      ForwardCoversAll(seen[1..], pages[1..], newest, n, x);
      var i :| 0 <= i < |pages[1..]| && x in pages[1..][i];
      assert pages[i + 1] == pages[1..][i];
    }
  }

  /** A forward walk that may go on: every page but the last was full. */
  ghost predicate ForwardChain(seen: seq<set<nat>>, pages: seq<seq<nat>>, last: nat, n: nat) {
    && |seen| == |pages| >= 1
    && CatchUp(pages[0], seen[0], last, n)
    && (|pages| > 1 ==>
          |pages[0]| == n > 0 && ForwardChain(seen[1..], pages[1..], pages[0][|pages[0]| - 1], n))
  }

  /** The walk moves strictly up from page to page, and no chain goes on once it passes every number stored. */
  lemma {:induction false} ForwardTerminates(seen: seq<set<nat>>, pages: seq<seq<nat>>, last: nat, n: nat, max: nat)
    requires ForwardChain(seen, pages, last, n) && last <= max
    requires forall k, y :: 0 <= k < |seen| && y in seen[k] ==> y <= max
    ensures |pages| <= max - last + 1
    ensures forall i, x :: 0 <= i < |pages| && x in pages[i] ==> last < x <= max
    ensures forall i, j, x, y :: 0 <= i < j < |pages| && x in pages[i] && y in pages[j] ==> x < y
  {
    assert forall x :: x in pages[0] ==> x in Above(seen[0], last);
    if |pages| > 1 {
      var newest := pages[0][|pages[0]| - 1];
      assert newest in pages[0];
      assert forall x :: x in pages[0] ==> x <= newest;
      ForwardTerminates(seen[1..], pages[1..], newest, n, max);
      assert forall i :: 1 <= i < |pages| ==> pages[i] == pages[1..][i - 1];
    }
  }

  // ------------------------------------------------------------------ clients

  /** What the queries of one request see. */
  datatype View<V> = View(inbox: map<nat, V>, stored: map<nat, V>, mentions: map<nat, V>)

  function Visible<V>(group: bool, v: View<V>): set<nat> {
    if group then v.stored.Keys + v.mentions.Keys else v.inbox.Keys
  }

  function AllNumbers<V>(pages: seq<seq<Entry<V>>>): (ns: seq<seq<nat>>)
    ensures |ns| == |pages| && forall i :: 0 <= i < |pages| ==> ns[i] == Numbers(pages[i])
  {
    seq(|pages|, i requires 0 <= i < |pages| => Numbers(pages[i]))
  }

  /** The sets the requests from number i on saw. */
  ghost predicate Saw<V(!new)>(group: bool, views: nat -> View<V>, i: nat, seen: seq<set<nat>>) {
    forall j :: 0 <= j < |seen| ==> seen[j] == Visible(group, views(i + j))
  }

  /** Every request could see the number. */
  ghost predicate AlwaysVisible<V(!new)>(group: bool, views: nat -> View<V>, x: nat) {
    forall j: nat :: x in Visible(group, views(j))
  }

  ghost predicate AtMost<V(!new)>(group: bool, views: nat -> View<V>, max: nat) {
    forall j: nat, x :: x in Visible(group, views(j)) ==> x <= max
  }

  ghost predicate Positive<V(!new)>(group: bool, views: nat -> View<V>) {
    forall j: nat, x :: x in Visible(group, views(j)) ==> x >= 1
  }

  lemma FirstOfAll<V(!new)>(group: bool, views: nat -> View<V>, i: nat, page: seq<Entry<V>>, pages: seq<seq<Entry<V>>>,
                            seen: seq<set<nat>>)
    requires Saw(group, views, i + 1, seen)
    ensures AllNumbers([page] + pages) == [Numbers(page)] + AllNumbers(pages)
    ensures Saw(group, views, i, [Visible(group, views(i))] + seen)
  {
    var all := [Visible(group, views(i))] + seen;
    forall j | 0 <= j < |all| ensures all[j] == Visible(group, views(i + j)) {
      if j > 0 {
        assert seen[j - 1] == Visible(group, views(i + 1 + (j - 1)));
      }
    }
  }

  lemma OnlyPageOfAll<V(!new)>(group: bool, views: nat -> View<V>, i: nat, page: seq<Entry<V>>)
    ensures AllNumbers([page]) == [Numbers(page)] && Saw(group, views, i, [Visible(group, views(i))])
  {
  }

  lemma WalkBackOn(u: set<nat>, p: seq<nat>, seen: seq<set<nat>>, pages: seq<seq<nat>>, end: nat, n: nat)
    requires Ascending(p) && IsTop(Elements(p), Below(u, end), n) && |Below(u, end)| > n && |p| > 0
    requires BackwardWalk(seen, pages, p[0], n)
    ensures BackwardWalk([u] + seen, [p] + pages, end, n)
  {
    assert ([u] + seen)[1..] == seen && ([p] + pages)[1..] == pages;
  }

  lemma LastPage(u: set<nat>, p: seq<nat>, last: nat, n: nat)
    requires CatchUp(p, u, last, n) && |p| < n
    ensures ForwardWalk([u], [p], last, n)
  {
  }

  lemma NewestIsAnchor<V>(page: seq<Entry<V>>, u: set<nat>, last: nat, n: nat, max: nat)
    requires CatchUp(Numbers(page), u, last, n) && page != [] && forall x :: x in u ==> x <= max
    ensures last < page[|page| - 1].seqNo <= max
  {
    assert Numbers(page)[|page| - 1] in Numbers(page);
  }

  lemma WalkForwardOn(u: set<nat>, p: seq<nat>, seen: seq<set<nat>>, pages: seq<seq<nat>>, last: nat, n: nat)
    requires CatchUp(p, u, last, n) && |p| == n > 0
    requires ForwardWalk(seen, pages, p[|p| - 1], n)
    ensures ForwardWalk([u] + seen, [p] + pages, last, n)
  {
    assert ([u] + seen)[1..] == seen && ([p] + pages)[1..] == pages;
  }

  /** One backward request of a client. */
  method AskBack<V>(group: bool, v: View<V>, end: nat, limit: int) returns (page: seq<Entry<V>>, more: bool, next: nat)
    ensures
      var n, u := if 1 <= limit <= 100 then limit else 50, Below(Visible(group, v), end);
      Ascending(Numbers(page)) && IsTop(Elements(Numbers(page)), u, n) && (more <==> |u| > n)
    ensures page != [] ==> next == page[0].seqNo
  {
    page, more, next := PullMessages(group, v.inbox, v.stored, v.mentions, 0, end, limit, true, true);
  }

  /** One forward request of a client. */
  method AskForward<V>(group: bool, v: View<V>, last: nat, limit: int) returns (page: seq<Entry<V>>, more: bool)
    requires last > 0
    ensures
      var n := if 1 <= limit <= 100 then limit else 50;
      CatchUp(Numbers(page), Visible(group, v), last, n) && (more <==> |page| == n)
  {
    var next;
    page, more, next := PullMessages(group, v.inbox, v.stored, v.mentions, last, 0, limit, true, true);
  }

  lemma OldestIsAnchor<V>(page: seq<Entry<V>>, u: set<nat>, end: nat, n: nat)
    requires IsTop(Elements(Numbers(page)), Below(u, end), n) && n > 0 && |Below(u, end)| > n
    requires forall x :: x in u ==> x > 0
    ensures page != [] && page[0].seqNo > 0 && (end > 0 ==> page[0].seqNo < end)
  {
    assert page == [] ==> Elements(Numbers(page)) == {};
    assert Numbers(page)[0] in Elements(Numbers(page));
  }

  /** Asking on with next_seq as end_seq until has_more is false is a complete backward walk. */
  method PageBack<V(!new)>(group: bool, views: nat -> View<V>, i: nat, end: nat, limit: int)
    returns (pages: seq<seq<Entry<V>>>, ghost seen: seq<set<nat>>)
    requires Positive(group, views)
    ensures BackwardWalk(seen, AllNumbers(pages), end, if 1 <= limit <= 100 then limit else 50)
    ensures Saw(group, views, i, seen)
    decreases end == 0, end
  {
    var v := views(i);
    var page, more, next := AskBack(group, v, end, limit);
    OnlyPageOfAll(group, views, i, page);
    pages, seen := [page], [Visible(group, v)];
    if more {
      ghost var u, n := Visible(group, v), EffectiveLimit(limit);
      OldestIsAnchor(page, u, end, n);
      pages, seen := PageBack(group, views, i + 1, next, limit);
      WalkBackOn(u, Numbers(page), seen, AllNumbers(pages), end, n);
      FirstOfAll(group, views, i, page, pages, seen);
      pages, seen := [page] + pages, [u] + seen;
    }
  }

  ghost predicate OnlyPage(pages: seq<seq<nat>>, i: int, x: nat) {
    0 <= i < |pages| && x in pages[i] && forall j :: 0 <= j < |pages| && x in pages[j] ==> j == i
  }

  /** Everything that was there throughout is on exactly one page of a complete walk. */
  lemma OnePageHolds(seen: seq<set<nat>>, pages: seq<seq<nat>>, n: nat, x: nat)
    requires BackwardWalk(seen, pages, 0, n)
    requires forall k :: 0 <= k < |seen| ==> x in seen[k]
    requires forall k, y :: 0 <= k < |seen| && y in seen[k] ==> y > 0
    ensures exists i :: OnlyPage(pages, i, x)
  {
    WalkCoversAll(seen, pages, 0, n, x);
    var i :| 0 <= i < |pages| && x in pages[i];
    forall j | 0 <= j < |pages| && x in pages[j] ensures j == i {
      if i < j {
        WalkNeverRepeats(seen, pages, 0, n, i, j, x);
      } else if j < i {
        WalkNeverRepeats(seen, pages, 0, n, j, i, x);
      }
    }
    assert OnlyPage(pages, i, x);
  }

  /**
   Reading the whole history back from the newest message, while others go on
   inserting: every number that all requests could see is on exactly one page.
   */
  method ReadHistory<V(!new)>(group: bool, views: nat -> View<V>, limit: int)
    returns (pages: seq<seq<Entry<V>>>)
    requires Positive(group, views)
    ensures forall x :: AlwaysVisible(group, views, x) ==> exists i :: OnlyPage(AllNumbers(pages), i, x)
  {
    ghost var seen;
    pages, seen := PageBack(group, views, 0, 0, limit);
    forall x | AlwaysVisible(group, views, x) ensures exists i :: OnlyPage(AllNumbers(pages), i, x) {
      OnePageHolds(seen, AllNumbers(pages), EffectiveLimit(limit), x);
    }
  }

  /** Asking on after the last number returned until has_more is false is a complete forward walk. */
  method PageForward<V(!new)>(group: bool, views: nat -> View<V>, i: nat, last: nat, limit: int, ghost max: nat)
    returns (pages: seq<seq<Entry<V>>>, ghost seen: seq<set<nat>>)
    requires last > 0 && AtMost(group, views, max)
    ensures ForwardWalk(seen, AllNumbers(pages), last, if 1 <= limit <= 100 then limit else 50)
    ensures Saw(group, views, i, seen)
    decreases if max > last then max - last else 0
  {
    var v := views(i);
    var page, more := AskForward(group, v, last, limit);
    ghost var u, n := Visible(group, v), EffectiveLimit(limit);
    pages, seen := [page], [u];
    OnlyPageOfAll(group, views, i, page);
    if !more {
      LastPage(u, Numbers(page), last, n);
    } else {
      NewestIsAnchor(page, u, last, n, max);
      pages, seen := PageForward(group, views, i + 1, page[|page| - 1].seqNo, limit, max);
      WalkForwardOn(u, Numbers(page), seen, AllNumbers(pages), last, n);
      FirstOfAll(group, views, i, page, pages, seen);
      pages, seen := [page] + pages, [u] + seen;
    }
  }

  /** Catching up after `last`: no number that all requests could see is skipped. */
  method CatchUpAll<V(!new)>(group: bool, views: nat -> View<V>, last: nat, limit: int, ghost max: nat)
    returns (pages: seq<seq<Entry<V>>>)
    requires last > 0 && AtMost(group, views, max)
    ensures forall x :: last < x && AlwaysVisible(group, views, x) ==>
              exists i :: 0 <= i < |pages| && x in AllNumbers(pages)[i]
  {
    ghost var seen;
    pages, seen := PageForward(group, views, 0, last, limit, max);
    forall x | last < x && AlwaysVisible(group, views, x)
      ensures exists i :: 0 <= i < |pages| && x in AllNumbers(pages)[i]
    {
      ForwardCoversAll(seen, AllNumbers(pages), last, EffectiveLimit(limit), x);
    }
  }
}
