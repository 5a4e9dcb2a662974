/** The list of ports of two configured ranges, sorted and compacted in place. */
module PortList {
  import opened Sequences

  predicate Sorted(s: seq<int>) {
    forall i, j :: 0 <= i < j < |s| ==> s[i] <= s[j]
  }

  predicate SameElements(s: seq<int>, t: seq<int>) {
    (forall x <- s :: x in t) && (forall x <- t :: x in s)
  }

  function Insert(x: int, s: seq<int>): seq<int> {
    if s == [] || x <= s[0] then [x] + s else [s[0]] + Insert(x, s[1..])
  }

  function Sort(s: seq<int>): seq<int> {
    if s == [] then [] else Insert(s[0], Sort(s[1..]))
  }

  lemma InsertCounts(x: int, s: seq<int>)
    ensures multiset(Insert(x, s)) == multiset(s) + multiset{x}
  {
    if s != [] {
      assert s == [s[0]] + s[1..];
    }
  }

  lemma SortedMore(x: int, s: seq<int>)
    requires Sorted(s) && forall y <- s :: x <= y
    ensures Sorted([x] + s)
  {
    var t := [x] + s;
    forall i, j | 0 <= i < j < |t| ensures t[i] <= t[j] {
      assert t[j] == s[j - 1] && s[j - 1] in s && (i > 0 ==> t[i] == s[i - 1]);
    }
  }

  lemma {:induction false} InsertSorts(x: int, s: seq<int>)
    requires Sorted(s)
    ensures Sorted(Insert(x, s))
  {
    if s == [] || x <= s[0] {
      SortedMore(x, s);
    } else {
      var t := Insert(x, s[1..]);
      InsertSorts(x, s[1..]);
      InsertCounts(x, s[1..]);
      forall y | y in t ensures s[0] <= y {
        assert y in multiset(t);
      }
      SortedMore(s[0], t);
    }
  }

  lemma {:induction false} SortSorts(s: seq<int>)
    ensures Sorted(Sort(s)) && multiset(Sort(s)) == multiset(s)
  {
    if s != [] {
      SortSorts(s[1..]);
      InsertSorts(s[0], Sort(s[1..]));
      InsertCounts(s[0], Sort(s[1..]));
      assert s == [s[0]] + s[1..];
    }
  }

  /** A strictly increasing list is determined by its elements, so the contracts below leave one result. */
  lemma {:induction false} IncreasingIsUnique(s: seq<int>, t: seq<int>)
    requires Increasing(s) && Increasing(t) && SameElements(s, t)
    ensures s == t
  {
    assert |t| > 0 ==> t[0] in t;
    if s != [] {
      assert s[0] in s && s[0] in t;
      assert t[0] in t && t[0] in s;
      assert s[0] == t[0];
      forall x | x in s[1..] ensures x in t[1..] {
        assert x in s && x in t;
      }
      forall x | x in t[1..] ensures x in s[1..] {
        assert x in t && x in s;
      }
      IncreasingIsUnique(s[1..], t[1..]);
    }
  }

  /** `sort.Ints`, by its contract: the same numbers in ascending order. */
  method SortInts(a: array<int>)
    modifies a
    ensures Sorted(a[..]) && multiset(a[..]) == multiset(old(a[..]))
  {
    var s := Sort(a[..]);
    SortSorts(a[..]);
    assert |s| == |multiset(s)| == |multiset(a[..])| == a.Length;
    forall i | 0 <= i < a.Length {
      a[i] := s[i];
    }
    assert a[..] == s;
  }

  /** Every element that differs from the one before it. */
  function Compacted(s: seq<int>): seq<int> {
    if |s| <= 1 then s
    else
      var init, n := s[..|s| - 1], |s| - 1;
      if s[n] == s[n - 1] then Compacted(init) else Compacted(init) + [s[n]]
  }

  lemma {:induction false} CompactedElements(s: seq<int>)
    ensures SameElements(Compacted(s), s)
    ensures s != [] ==> Compacted(s) != [] && Compacted(s)[|Compacted(s)| - 1] == s[|s| - 1]
  {
    if |s| > 1 {
      var init, n := s[..|s| - 1], |s| - 1;
      CompactedElements(init);
      assert s == init + [s[n]];
      assert init[n - 1] in Compacted(init);
    }
  }

  lemma IncreasingEnd(s: seq<int>, x: int)
    requires Increasing(s) && s != [] && s[|s| - 1] < x
    ensures Increasing(s + [x])
  {
    forall y | y in s ensures y < x {
      var i :| 0 <= i < |s| && s[i] == y;
      assert i == |s| - 1 || s[i] < s[|s| - 1];
    }
    IncreasingMore(s, x);
  }

  lemma {:induction false} CompactedIncreases(s: seq<int>)
    requires Sorted(s)
    ensures Increasing(Compacted(s)) && SameElements(Compacted(s), s)
  {
    CompactedElements(s);
    if |s| > 1 {
      var init, n := s[..|s| - 1], |s| - 1;
      CompactedIncreases(init);
      CompactedElements(init);
      if s[n] != s[n - 1] {
        IncreasingEnd(Compacted(init), s[n]);
      }
    }
  }

  /** The loop writes behind the position it reads, into the same array. */
  method Compact(a: array<int>) returns (k: nat)
    modifies a
    ensures k <= a.Length && a[..k] == Compacted(old(a[..]))
  {
    k := 0;
    var last := 0;
    for i := 0 to a.Length
      invariant k <= i && a[..k] == Compacted(old(a[..i]))
      invariant forall j :: i <= j < a.Length ==> a[j] == old(a[j])
      invariant i > 0 ==> last == old(a[i - 1])
    {
      var v := a[i];
      assert old(a[..i + 1])[..i] == old(a[..i]);
      if i == 0 || v != last {
        ghost var done := a[..k];
        a[k] := v;
        assert a[..k + 1] == done + [v];
        k := k + 1;
        last := v;
      }
    }
    assert old(a[..a.Length]) == old(a[..]);
  }

  method DedupInts(a: array<int>) returns (k: nat)
    modifies a
    ensures k <= a.Length && Increasing(a[..k])
    ensures SameElements(a[..k], old(a[..]))
  {
    if a.Length == 0 {
      return 0;
    }
    SortInts(a);
    SameCounts(old(a[..]), a[..]);
    CompactedIncreases(a[..]);
    k := Compact(a);
  }

  lemma SameCounts(s: seq<int>, t: seq<int>)
    requires multiset(s) == multiset(t)
    ensures SameElements(s, t)
  {
    forall x | x in s ensures x in t {
      assert x in multiset(t);
    }
    forall x | x in t ensures x in s {
      assert x in multiset(s);
    }
  }

  /** The ports of a configured range; a range with a missing or reversed bound has none. */
  predicate InRange(x: int, start: int, end: int) {
    start > 0 && end > 0 && start <= x <= end
  }

  method AddRange(out: seq<int>, start: int, end: int) returns (r: seq<int>)
    ensures out <= r
    ensures forall x :: x in r <==> x in out || InRange(x, start, end)
  {
    r := out;
    if start <= 0 || end <= 0 || start > end {
      return;
    }
    for i := start to end + 1
      invariant out <= r
      invariant forall x :: x in r <==> x in out || start <= x < i
    {
      r := r + [i];
    }
  }

  method UnionPortsFromRanges(zmqStart: int, zmqEnd: int, srtStart: int, srtEnd: int) returns (out: seq<int>)
    ensures Increasing(out)
    ensures forall x :: x in out <==>
              || (zmqStart > 0 && zmqEnd > 0 && zmqStart <= x <= zmqEnd)
              || (srtStart > 0 && srtEnd > 0 && srtStart <= x <= srtEnd)
  {
    out := AddRange([], zmqStart, zmqEnd);
    out := AddRange(out, srtStart, srtEnd);
    var a := new int[|out|](i requires 0 <= i < |out| => out[i]);
    assert a[..] == out;
    var k := DedupInts(a);
    out := a[..k];
  }
}
