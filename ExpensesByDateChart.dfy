/**
 * The line chart of expenses grouped by day (`ExpensesByDateChart`). Each
 * expense is filed under the day part of its date in ISO form; the labels
 * are then sorted by time, while the sums keep the order in which the days
 * first appear.
 */
module ExpensesByDateChart {
  import opened Wrappers
  import opened JsString
  import opened ExpenseTypes
  import opened Grouping
  import opened TimeOrder

  /** The labels and the values of a chart, paired by position. */
  datatype Chart = Chart(labels: seq<string>, data: seq<int>)

  /** `iso.split("T")[0]`: the day part of an ISO timestamp. */
  function DayKey(iso: string): string
  {
    BeforeFirst(iso, "T")
  }

  /**
   * The day part is the text before the first "T", holding none itself: it
   * is followed by a "T", or is all of the timestamp.
   */
  lemma DayKeySpec(iso: string)
    ensures DayKey(iso) <= iso && 'T' !in DayKey(iso)
    ensures DayKey(iso) == iso || (|DayKey(iso)| < |iso| && iso[|DayKey(iso)|] == 'T')
  {
    BeforeFirstSpec(iso, "T");
    var day := DayKey(iso);
    forall j | 0 <= j < |day| ensures day[j] != 'T' {
      OccursAtChar(iso, 'T', j);
    }
    if day != iso {
      OccursAtChar(iso, 'T', |day|);
    }
  }

  /**
   * Each expense filed under its day. `toIso` stands for
   * `new Date(date).toISOString()`, `None` where that throws (an invalid
   * date); one such expense makes the whole grouping fail.
   */
  function ByDate(es: seq<Expense>, toIso: string -> Option<string>): (r: Option<seq<Entry>>)
    ensures r.Some? <==> forall i :: 0 <= i < |es| ==> toIso(es[i].date).Some?
    ensures r.Some? ==> |r.value| == |es|
    ensures r.Some? ==> forall i :: 0 <= i < |es| ==>
      r.value[i] == Entry(DayKey(toIso(es[i].date).value), es[i].amount)
  {
    if es == [] then Some([])
    else
      var last := es[|es| - 1];
      match ByDate(es[..|es| - 1], toIso)
      case None => None
      case Some(front) =>
        match toIso(last.date)
        case None => None
        case Some(iso) => Some(front + [Entry(DayKey(iso), last.amount)])
  }

  /** Filing by day keeps every amount. */
  lemma {:induction false} ByDateTotal(es: seq<Expense>, toIso: string -> Option<string>)
    requires ByDate(es, toIso).Some?
    ensures TotalAmount(ByDate(es, toIso).value) == SumAmounts(es)
  {
    if es != [] {
      var front := es[..|es| - 1];
      ByDateTotal(front, toIso);
      assert ByDate(es, toIso).value[..|es| - 1] == ByDate(front, toIso).value;
    }
  }

  /**
   * The chart as the component builds it: the days in the order they first
   * appear, with their sums, after which only the days are sorted by `time`.
   * The result is `None` when a date is invalid (the render throws).
   */
  method DateChart(expenses: seq<Expense>, toIso: string -> Option<string>, time: string -> int)
    returns (r: Option<Chart>)
    ensures r.None? <==> exists i :: 0 <= i < |expenses| && toIso(expenses[i].date).None?
    ensures r.Some? ==>
      var entries := ByDate(expenses, toIso).value;
      && r.value.labels == SortByTime(FirstAppearance(entries), time)
      && r.value.data == Totals(entries, FirstAppearance(entries))
    ensures r.Some? ==> SortedBy(r.value.labels, time) && Distinct(r.value.labels)
    ensures r.Some? ==> |r.value.data| == |r.value.labels| && Sum(r.value.data) == SumAmounts(expenses)
  {
    var entries := ByDate(expenses, toIso);
    if entries.None? {
      return None;
    }
    var firstLabels, data := GroupSum(entries.value);
    TotalsConserveAmount(entries.value);
    ByDateTotal(expenses, toIso);
    SortKeepsDistinct(firstLabels, time);
    r := Some(Chart(SortByTime(firstLabels, time), data));
  }

  /**
   * The value plotted at each label is that day's sum whenever the days
   * first appear already in time order.
   */
  lemma AlignedWhenInOrder(es: seq<Entry>, time: string -> int)
    requires SortedBy(FirstAppearance(es), time)
    ensures forall i :: 0 <= i < |FirstAppearance(es)| ==>
      Totals(es, FirstAppearance(es))[i] == GroupTotal(es, SortByTime(FirstAppearance(es), time)[i])
  {
    SortByTimeFixesSorted(FirstAppearance(es), time);
  }

  /** Two entries with different keys: both keys, in order, with their own amounts as totals. */
  lemma TwoEntries(k1: string, k2: string, x: int, y: int)
    requires k1 != k2
    ensures FirstAppearance([Entry(k1, x), Entry(k2, y)]) == [k1, k2]
    ensures Totals([Entry(k1, x), Entry(k2, y)], [k1, k2]) == [x, y]
  {
    var es := [Entry(k1, x), Entry(k2, y)];
    assert es[..1] == [Entry(k1, x)];
    assert es[..1][..0] == [];
    assert FirstAppearance(es[..1]) == [k1];
    assert GroupTotal(es[..1], k1) == x && GroupTotal(es[..1], k2) == 0;
    assert GroupTotal(es, k1) == x;
  }

  /** Two labels out of time order are swapped by the sort. */
  lemma SortSwapsTwo(later: string, earlier: string, time: string -> int)
    requires time(earlier) < time(later)
    ensures SortByTime([later, earlier], time) == [earlier, later]
  {
    assert [later, earlier][..1] == [later];
    assert [later][..0] == [];
    assert SortByTime([later], time) == [later];
  }

  /**
   * Otherwise values and labels part ways: with a later day first and an
   * earlier day second, the labels come out earlier day first while the
   * values stay in arrival order, so each day is shown with the other's sum.
   */
  lemma MisalignedWhenOutOfOrder(later: string, earlier: string, x: int, y: int, time: string -> int)
    requires time(earlier) < time(later)
    ensures SortByTime(FirstAppearance([Entry(later, x), Entry(earlier, y)]), time) == [earlier, later]
    ensures Totals([Entry(later, x), Entry(earlier, y)], FirstAppearance([Entry(later, x), Entry(earlier, y)])) == [x, y]
  {
    TwoEntries(later, earlier, x, y);
    SortSwapsTwo(later, earlier, time);
  }
}
