/** The bar chart of expenses grouped by description (`ExpensesChart`). */
module ExpensesChart {
  import opened ExpenseTypes
  import opened Grouping

  /** Each expense filed under its description. */
  function ByDescription(es: seq<Expense>): (r: seq<Entry>)
    ensures |r| == |es|
    ensures forall i :: 0 <= i < |es| ==> r[i].key == es[i].description && r[i].amount == es[i].amount
    ensures forall d :: HasKey(r, d) <==> exists i :: 0 <= i < |es| && es[i].description == d
  {
    var r := seq(|es|, i requires 0 <= i < |es| => Entry(es[i].description, es[i].amount));
    assert forall d :: HasKey(r, d) <==> exists i :: 0 <= i < |es| && es[i].description == d by {
      forall d ensures HasKey(r, d) <==> exists i :: 0 <= i < |es| && es[i].description == d {
        if exists i :: 0 <= i < |es| && es[i].description == d {
          var i :| 0 <= i < |es| && es[i].description == d;
          assert r[i].key == d;
        }
      }
    }
    r
  }

  /** Filing by description keeps every amount: the entries add up to the expenses. */
  lemma {:induction false} ByDescriptionTotal(es: seq<Expense>)
    ensures TotalAmount(ByDescription(es)) == SumAmounts(es)
  {
    if es != [] {
      var front := es[..|es| - 1];
      assert ByDescription(es)[..|es| - 1] == ByDescription(front);
      ByDescriptionTotal(front);
    }
  }

  /**
   * The chart's labels and bar heights: one bar per distinct description, in
   * the order each description first appears, whose height is the sum of
   * the amounts of the expenses with that description. The bars add up to
   * the sum of all expenses.
   */
  method DescriptionChart(expenses: seq<Expense>) returns (labels: seq<string>, data: seq<int>)
    ensures Distinct(labels)
    ensures forall d :: d in labels <==> exists i :: 0 <= i < |expenses| && expenses[i].description == d
    ensures labels == FirstAppearance(ByDescription(expenses))
    ensures |data| == |labels|
    ensures forall i :: 0 <= i < |labels| ==> data[i] == GroupTotal(ByDescription(expenses), labels[i])
    ensures Sum(data) == SumAmounts(expenses)
    ensures expenses == [] ==> labels == [] && data == []
  {
    var entries := ByDescription(expenses);
    labels, data := GroupSum(entries);
    TotalsConserveAmount(entries);
    ByDescriptionTotal(expenses);
  }
}
