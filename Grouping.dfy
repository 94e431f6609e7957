/**
 * The grouping both expense charts perform: a `reduce` over the expenses
 * whose accumulator object maps each key to the running sum of the amounts
 * filed under it, followed by `Object.keys` and `Object.values`, which list
 * the keys and their sums in the order the keys were first added.
 */
module Grouping {

  /** One expense as the reduce sees it: its grouping key and its amount in centavos. */
  datatype Entry = Entry(key: string, amount: int)

  /** `k` is the key of some entry. */
  predicate HasKey(es: seq<Entry>, k: string) {
    exists i :: 0 <= i < |es| && es[i].key == k
  }

  /** No key is listed twice. */
  predicate Distinct(ks: seq<string>) {
    forall i, j :: 0 <= i < j < |ks| ==> ks[i] != ks[j]
  }

  /** The keys of `es`, each once, in the order of their first entry. */
  function FirstAppearance(es: seq<Entry>): (ks: seq<string>)
    ensures Distinct(ks)
    ensures forall k :: k in ks <==> HasKey(es, k)
  {
    if es == [] then []
    else
      var front := es[..|es| - 1];
      var ks := FirstAppearance(front);
      var k := es[|es| - 1].key;
      assert forall k' :: HasKey(front, k') ==> HasKey(es, k') by {
        forall k' | HasKey(front, k') ensures HasKey(es, k') {
          var i :| 0 <= i < |front| && front[i].key == k';
          assert es[i].key == k';
        }
      }
      assert forall k' :: HasKey(es, k') && k' != k ==> HasKey(front, k') by {
        forall k' | HasKey(es, k') && k' != k ensures HasKey(front, k') {
          var i :| 0 <= i < |es| && es[i].key == k';
          assert front[i].key == k';
        }
      }
      if k in ks then ks else ks + [k]
  }

  /** The sum of the amounts of the entries filed under `k`. */
  function GroupTotal(es: seq<Entry>, k: string): int
  {
    if es == [] then 0
    else GroupTotal(es[..|es| - 1], k) + (if es[|es| - 1].key == k then es[|es| - 1].amount else 0)
  }

  /** The sum of all amounts. */
  function TotalAmount(es: seq<Entry>): int
  {
    if es == [] then 0 else TotalAmount(es[..|es| - 1]) + es[|es| - 1].amount
  }

  /** The group sums of `es` for the keys `ks`, position by position. */
  function Totals(es: seq<Entry>, ks: seq<string>): seq<int>
  {
    seq(|ks|, i requires 0 <= i < |ks| => GroupTotal(es, ks[i]))
  }

  /** The sum of a list of numbers. */
  function Sum(xs: seq<int>): int
  {
    if xs == [] then 0 else Sum(xs[..|xs| - 1]) + xs[|xs| - 1]
  }

  /** A key without entries sums to zero. */
  lemma {:induction false} GroupTotalAbsent(es: seq<Entry>, k: string)
    requires !HasKey(es, k)
    ensures GroupTotal(es, k) == 0
  {
    if es != [] {
      var front := es[..|es| - 1];
      GroupTotalAbsent(front, k);
    }
  }

  /**
   * Adding an entry to the list raises the summed totals of a list of
   * distinct keys by its amount when its key is among them, and not otherwise.
   */
  lemma {:induction false} SumTotalsAppend(es: seq<Entry>, e: Entry, ks: seq<string>)
    requires Distinct(ks)
    ensures Sum(Totals(es + [e], ks)) == Sum(Totals(es, ks)) + (if e.key in ks then e.amount else 0)
  {
    assert (es + [e])[..|es|] == es;
    if ks != [] {
      var front := ks[..|ks| - 1];
      var k := ks[|ks| - 1];
      assert Totals(es + [e], ks)[..|front|] == Totals(es + [e], front);
      assert Totals(es, ks)[..|front|] == Totals(es, front);
      SumTotalsAppend(es, e, front);
      assert e.key in ks <==> e.key in front || e.key == k;
      assert !(e.key in front && e.key == k);
    }
  }

  /**
   * Nothing is lost or counted twice: the group sums, over the listed keys,
   * add up to the total of all amounts.
   */
  lemma {:induction false} TotalsConserveAmount(es: seq<Entry>)
    ensures Sum(Totals(es, FirstAppearance(es))) == TotalAmount(es)
  {
    if es != [] {
      var front := es[..|es| - 1];
      var e := es[|es| - 1];
      var ks := FirstAppearance(front);
      assert es == front + [e];
      TotalsConserveAmount(front);
      SumTotalsAppend(front, e, ks);
      if e.key !in ks {
        var ks' := ks + [e.key];
        assert Totals(es, ks')[..|ks|] == Totals(es, ks);
        GroupTotalAbsent(front, e.key);
      }
    }
  }

  /** Extending a prefix by one entry lists its key if it is new. */
  lemma FirstAppearanceStep(es: seq<Entry>, i: nat)
    requires i < |es|
    ensures FirstAppearance(es[..i + 1]) ==
      if es[i].key in FirstAppearance(es[..i]) then FirstAppearance(es[..i])
      else FirstAppearance(es[..i]) + [es[i].key]
  {
    assert es[..i + 1][..i] == es[..i];
  }

  /** Extending a prefix by one entry adds its amount to its key's sum only. */
  lemma GroupTotalStep(es: seq<Entry>, i: nat, k: string)
    requires i < |es|
    ensures GroupTotal(es[..i + 1], k) == GroupTotal(es[..i], k) + (if es[i].key == k then es[i].amount else 0)
  {
    assert es[..i + 1][..i] == es[..i];
  }

  /**
   * One call of the reduce callback, on the entry at index `i`. A key whose
   * running sum is falsy (zero) is assigned the amount instead of being added
   * to, as the `if (acc[key])` test does; a key is listed once, when first added.
   */
  method AddEntry(entries: seq<Entry>, i: nat, order: seq<string>, acc: map<string, int>)
    returns (order': seq<string>, acc': map<string, int>)
    requires i < |entries|
    requires order == FirstAppearance(entries[..i])
    requires forall k :: k in acc <==> k in order
    requires forall k :: k in acc ==> acc[k] == GroupTotal(entries[..i], k)
    ensures order' == FirstAppearance(entries[..i + 1])
    ensures forall k :: k in acc' <==> k in order'
    ensures forall k :: k in acc' ==> acc'[k] == GroupTotal(entries[..i + 1], k)
  {
    var e := entries[i];
    FirstAppearanceStep(entries, i);
    if e.key !in acc {
      GroupTotalAbsent(entries[..i], e.key);
    }
    order' := order;
    if e.key in acc && acc[e.key] != 0 {
      acc' := acc[e.key := acc[e.key] + e.amount];
    } else {
      if e.key !in acc {
        order' := order + [e.key];
      }
      acc' := acc[e.key := e.amount];
    }
    forall k | k in acc' ensures acc'[k] == GroupTotal(entries[..i + 1], k) {
      GroupTotalStep(entries, i, k);
      if k != e.key {
        assert acc'[k] == acc[k];
      }
    }
  }

  /**
   * The reduce over all entries, then the key and value extraction: the keys
   * in order of first appearance, each with the sum of its amounts.
   */
  method GroupSum(entries: seq<Entry>) returns (labels: seq<string>, data: seq<int>)
    ensures labels == FirstAppearance(entries)
    ensures data == Totals(entries, labels)
  {
    var order: seq<string> := [];
    var acc: map<string, int> := map[];
    for i := 0 to |entries|
      invariant order == FirstAppearance(entries[..i])
      invariant forall k :: k in acc <==> k in order
      invariant forall k :: k in acc ==> acc[k] == GroupTotal(entries[..i], k)
    {
      order, acc := AddEntry(entries, i, order, acc);
    }
    assert entries[..|entries|] == entries;
    labels := order;
    data := [];
    for j := 0 to |labels|
      invariant |data| == j
      invariant forall t :: 0 <= t < j ==> data[t] == GroupTotal(entries, labels[t])
    {
      data := data + [acc[labels[j]]];
    }
  }
}
