/** The in-memory expense list of the expenses page and its delete-by-id filter. */
module ExpenseList {
  import opened ExpenseTypes

  /** `expenses.filter((expense) => expense.id !== id)`. */
  function WithoutId(es: seq<Expense>, id: string): (r: seq<Expense>)
    ensures |r| <= |es|
    ensures forall i :: 0 <= i < |r| ==> r[i].id != id && r[i] in es
    ensures forall e :: e in es && e.id != id ==> e in r
  {
    if es == [] then []
    else (if es[0].id == id then [] else [es[0]]) + WithoutId(es[1..], id)
  }

  /** The filter keeps relative order: filtering a concatenation filters each part. */
  lemma {:induction false} WithoutIdConcat(a: seq<Expense>, b: seq<Expense>, id: string)
    ensures WithoutId(a + b, id) == WithoutId(a, id) + WithoutId(b, id)
  {
    if a == [] {
      assert a + b == b;
    } else {
      assert (a + b)[1..] == a[1..] + b;
      WithoutIdConcat(a[1..], b, id);
    }
  }

  /** A list with no element of that id is left exactly as it was. */
  lemma {:induction false} WithoutIdAbsent(es: seq<Expense>, id: string)
    requires forall i :: 0 <= i < |es| ==> es[i].id != id
    ensures WithoutId(es, id) == es
  {
    if es != [] {
      WithoutIdAbsent(es[1..], id);
    }
  }

  /** Deleting twice by the same id removes nothing more. */
  lemma {:induction false} WithoutIdIdempotent(es: seq<Expense>, id: string)
    ensures WithoutId(WithoutId(es, id), id) == WithoutId(es, id)
  {
    WithoutIdAbsent(WithoutId(es, id), id);
  }

  /**
   * Deleting the expense just appended, when its id was new, gives back the
   * list as it was before the append.
   */
  lemma DeleteUndoesAppend(es: seq<Expense>, e: Expense)
    requires forall i :: 0 <= i < |es| ==> es[i].id != e.id
    ensures WithoutId(es + [e], e.id) == es
  {
    WithoutIdConcat(es, [e], e.id);
    WithoutIdAbsent(es, e.id);
    assert WithoutId([e], e.id) == [];
  }
}
