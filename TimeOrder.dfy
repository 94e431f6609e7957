/**
 * `labels.sort((a, b) => time(a) - time(b))`: ordering the chart's date
 * labels by the instant each denotes. `time` stands for
 * `new Date(label).getTime()`. The sort is modelled as a stable insertion
 * sort, as `Array.prototype.sort` is stable.
 */
module TimeOrder {

  /** Each label's instant is no later than that of any label after it. */
  predicate SortedBy(ks: seq<string>, time: string -> int) {
    forall i, j :: 0 <= i < j < |ks| ==> time(ks[i]) <= time(ks[j])
  }

  /** `x` placed after every label of `s` whose instant is not later than its own. */
  function Insert(s: seq<string>, x: string, time: string -> int): (r: seq<string>)
    ensures |r| == |s| + 1
    ensures multiset(r) == multiset(s) + multiset{x}
  {
    if s == [] then [x]
    else if time(s[|s| - 1]) <= time(x) then s + [x]
    else
      assert s == s[..|s| - 1] + [s[|s| - 1]];
      Insert(s[..|s| - 1], x, time) + [s[|s| - 1]]
  }

  /** Inserting into a sorted list keeps it sorted. */
  lemma {:induction false} InsertKeepsSorted(s: seq<string>, x: string, time: string -> int)
    requires SortedBy(s, time)
    ensures SortedBy(Insert(s, x, time), time)
  {
    if s != [] && time(x) < time(s[|s| - 1]) {
      var front := s[..|s| - 1];
      var last := s[|s| - 1];
      InsertKeepsSorted(front, x, time);
      InsertBounded(front, x, time, time(last));
      assert Insert(s, x, time) == Insert(front, x, time) + [last];
    }
  }

  /** Inserting a label no later than a bound into labels no later than it stays below it. */
  lemma {:induction false} InsertBounded(s: seq<string>, x: string, time: string -> int, bound: int)
    requires forall i :: 0 <= i < |s| ==> time(s[i]) <= bound
    requires time(x) <= bound
    ensures forall i :: 0 <= i < |Insert(s, x, time)| ==> time(Insert(s, x, time)[i]) <= bound
  {
    if s != [] && time(x) < time(s[|s| - 1]) {
      var front := s[..|s| - 1];
      InsertBounded(front, x, time, bound);
      assert Insert(s, x, time) == Insert(front, x, time) + [s[|s| - 1]];
    }
  }

  /** The labels sorted by instant. */
  function SortByTime(ks: seq<string>, time: string -> int): (r: seq<string>)
    ensures |r| == |ks|
    ensures multiset(r) == multiset(ks)
    ensures SortedBy(r, time)
  {
    if ks == [] then []
    else
      assert ks == ks[..|ks| - 1] + [ks[|ks| - 1]];
      InsertKeepsSorted(SortByTime(ks[..|ks| - 1], time), ks[|ks| - 1], time);
      Insert(SortByTime(ks[..|ks| - 1], time), ks[|ks| - 1], time)
  }

  /** The sort changes the labels exactly when they are not already in order. */
  lemma {:induction false} SortByTimeFixesSorted(ks: seq<string>, time: string -> int)
    ensures SortByTime(ks, time) == ks <==> SortedBy(ks, time)
  {
    if !SortedBy(ks, time) {
      assert SortedBy(SortByTime(ks, time), time);
    } else if ks != [] {
      var front := ks[..|ks| - 1];
      var last := ks[|ks| - 1];
      SortedPrefix(ks, time);
      SortByTimeFixesSorted(front, time);
      if |ks| >= 2 {
        LastNotLater(ks, time);
      }
      InsertAtEnd(front, last, time);
      calc {
        SortByTime(ks, time);
        Insert(SortByTime(front, time), last, time);
        Insert(front, last, time);
        front + [last];
        { assert ks == front + [last]; }
        ks;
      }
    }
  }

  /** A label no earlier than the last of the list goes at the end. */
  lemma InsertAtEnd(s: seq<string>, x: string, time: string -> int)
    requires s == [] || time(s[|s| - 1]) <= time(x)
    ensures Insert(s, x, time) == s + [x]
  {
  }

  /** In sorted labels the one before the last is not later than the last. */
  lemma LastNotLater(ks: seq<string>, time: string -> int)
    requires |ks| >= 2 && SortedBy(ks, time)
    ensures time(ks[..|ks| - 1][|ks| - 2]) <= time(ks[|ks| - 1])
  {
  }

  /** Dropping the last label keeps labels sorted. */
  lemma SortedPrefix(ks: seq<string>, time: string -> int)
    requires ks != [] && SortedBy(ks, time)
    ensures SortedBy(ks[..|ks| - 1], time)
  {
  }

  /** A permutation of distinct labels is distinct. */
  lemma SortKeepsDistinct(ks: seq<string>, time: string -> int)
    requires forall i, j :: 0 <= i < j < |ks| ==> ks[i] != ks[j]
    ensures forall i, j :: 0 <= i < j < |SortByTime(ks, time)| ==> SortByTime(ks, time)[i] != SortByTime(ks, time)[j]
  {
    var r := SortByTime(ks, time);
    forall i, j | 0 <= i < j < |r| ensures r[i] != r[j] {
      if r[i] == r[j] {
        RepeatCountsTwo(r, i, j);
        DistinctCountsOne(ks, r[i]);
      }
    }
  }

  /** An element found at two positions occurs at least twice. */
  lemma RepeatCountsTwo(r: seq<string>, i: nat, j: nat)
    requires i < j < |r| && r[i] == r[j]
    ensures multiset(r)[r[i]] >= 2
  {
    assert r == r[..j] + r[j..];
    assert r[i] in r[..j];
    assert r[j..][0] == r[j];
  }

  /** In a list without repeats every element occurs at most once. */
  lemma {:induction false} DistinctCountsOne(ks: seq<string>, x: string)
    requires forall i, j :: 0 <= i < j < |ks| ==> ks[i] != ks[j]
    ensures multiset(ks)[x] <= 1
  {
    if ks != [] {
      var front := ks[..|ks| - 1];
      assert ks == front + [ks[|ks| - 1]];
      DistinctCountsOne(front, x);
      if ks[|ks| - 1] == x {
        assert x !in front;
      }
    }
  }
}
