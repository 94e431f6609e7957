/**
 * The expenses page (`ExpensesPage`): the list of expenses it shows, the
 * error message it displays and the new-expense form, with the handlers that
 * change them. Each server call is replaced by its outcome, passed in as a
 * parameter: `None` stands for a call that threw.
 */
module ExpensesPage {
  import opened Wrappers
  import opened ExpenseTypes
  import opened ExpenseForm
  import opened ExpenseList
  import opened CsvImport

  const FetchError := "Erro ao buscar despesas."
  const CreateError := "Erro ao criar despesa."
  const DeleteError := "Erro ao deletar despesa."
  const CsvError := "Erro ao processar CSV. Verifique o formato das datas e valores."

  /** The per-row check of the import, with the page's date functions. */
  function RowCheck(validDate: string -> bool, toIso: string -> string): Row -> Option<CsvPayload>
  {
    row => PrepareRow(row, validDate, toIso)
  }

  /**
   * Every create call of the import carries its row's cells: call `j` is made
   * for row `j`, whose date is present, non-empty and valid and whose amount
   * is present, with the row's description cell as it is, the cleaned amount
   * and the ISO form of the date.
   */
  lemma ImportSendsRowCells(rows: seq<Row>, validDate: string -> bool, toIso: string -> string,
                            create: (nat, CsvPayload) -> bool)
    ensures forall j :: 0 <= j < |Submissions(rows, RowCheck(validDate, toIso), create, 0)| ==>
      && "date" in rows[j] && rows[j]["date"] != "" && validDate(rows[j]["date"]) && "amount" in rows[j]
      && Submissions(rows, RowCheck(validDate, toIso), create, 0)[j] ==
           CsvPayload(if "description" in rows[j] then Some(rows[j]["description"]) else None,
                      CleanAmount(rows[j]["amount"]), toIso(rows[j]["date"]))
  {
    var check := RowCheck(validDate, toIso);
    var calls := Submissions(rows, check, create, 0);
    forall j | 0 <= j < |calls|
      ensures "date" in rows[j] && rows[j]["date"] != "" && validDate(rows[j]["date"]) && "amount" in rows[j]
      ensures calls[j] == CsvPayload(if "description" in rows[j] then Some(rows[j]["description"]) else None,
                                     CleanAmount(rows[j]["amount"]), toIso(rows[j]["date"]))
    {
      SubmittedRow(rows, check, create, j);
      assert check(rows[j]) == PrepareRow(rows[j], validDate, toIso);
    }
  }

  /**
   * A row whose date is missing, empty or invalid, or whose amount is
   * missing, ends the import: when every earlier row passed its checks and was
   * created, exactly the earlier rows were sent and nothing from that row on.
   */
  lemma ImportStopsAtBadRow(rows: seq<Row>, validDate: string -> bool, toIso: string -> string,
                            create: (nat, CsvPayload) -> bool, bad: nat)
    requires bad < |rows|
    requires "date" !in rows[bad] || rows[bad]["date"] == "" || !validDate(rows[bad]["date"]) || "amount" !in rows[bad]
    requires forall j :: 0 <= j < bad ==>
      RowCheck(validDate, toIso)(rows[j]).Some? && create(j, RowCheck(validDate, toIso)(rows[j]).value)
    ensures |Submissions(rows, RowCheck(validDate, toIso), create, 0)| == bad
  {
    BadRowAborts(rows, RowCheck(validDate, toIso), create, 0, bad);
  }

  class Page {
    /** The expenses shown (`expenses`). */
    var expenses: seq<Expense>
    /** The error message shown, if any (`error`). */
    var error: Option<string>
    /** The new-expense form (`newExpense`). */
    var draft: Draft

    /** The page's initial state: no expenses, no error, an empty form. */
    constructor ()
      ensures expenses == [] && error == None && draft == EmptyDraft
    {
      expenses := [];
      error := None;
      draft := EmptyDraft;
    }

    /**
     * The fetch on mount: the fetched list replaces the shown one; a failed
     * fetch leaves the list and sets the fetch error.
     */
    method LoadExpenses(fetched: Option<seq<Expense>>)
      modifies this
      ensures fetched.Some? ==> expenses == fetched.value && error == old(error)
      ensures fetched.None? ==> expenses == old(expenses) && error == Some(FetchError)
      ensures draft == old(draft)
    {
      if fetched.Some? {
        expenses := fetched.value;
      } else {
        error := Some(FetchError);
      }
    }

    /**
     * A change to the form field called `name`: the amount field keeps only
     * the digits typed, read as centavos; every other field takes the text.
     */
    method HandleInputChange(name: string, value: string)
      modifies this
      ensures draft == EditField(old(draft), name, value)
      ensures expenses == old(expenses) && error == old(error)
    {
      draft := EditField(draft, name, value);
    }

    /** A change to the date picker sets the form's date. */
    method HandleDateChange(value: string)
      modifies this
      ensures draft == old(draft).(date := value)
      ensures expenses == old(expenses) && error == old(error)
    {
      draft := draft.(date := value);
    }

    /**
     * Submitting the form sends the current draft (returned as `sent`). The
     * expense the server returns is appended and the form is reset; when the
     * call fails the list and the form stay and the create error is set. A
     * success does not clear an earlier error.
     */
    method HandleCreateExpense(created: Option<Expense>) returns (sent: Draft)
      modifies this
      ensures sent == old(draft)
      ensures created.Some? ==>
        expenses == old(expenses) + [created.value] && draft == EmptyDraft && error == old(error)
      ensures created.None? ==>
        expenses == old(expenses) && draft == old(draft) && error == Some(CreateError)
    {
      sent := draft;
      if created.Some? {
        expenses := expenses + [created.value];
        draft := EmptyDraft;
      } else {
        error := Some(CreateError);
      }
    }

    /**
     * Deleting the expense with `id`: once the server call succeeds, every
     * expense with that id leaves the list; when it fails the list stays and
     * the delete error is set.
     */
    method HandleDeleteExpense(id: string, deleted: bool)
      modifies this
      ensures deleted ==> expenses == WithoutId(old(expenses), id) && error == old(error)
      ensures !deleted ==> expenses == old(expenses) && error == Some(DeleteError)
      ensures draft == old(draft)
    {
      if deleted {
        expenses := WithoutId(expenses, id);
      } else {
        error := Some(DeleteError);
      }
    }

    /**
     * The CSV upload. Without a chosen file nothing happens. Otherwise the
     * rows are sent one by one (`SubmitRows`); when every row was created the
     * list is fetched again and replaces the shown one. A row that fails its
     * checks, a failed create call or a failed fetch leaves the list as it was
     * (rows created before the failure stay on the server) and sets the CSV
     * error. `calls` are the create calls made.
     */
    method HandleFileUpload(file: Option<seq<Row>>, validDate: string -> bool, toIso: string -> string,
                            create: (nat, CsvPayload) -> bool, refetched: Option<seq<Expense>>)
      returns (calls: seq<CsvPayload>)
      modifies this
      ensures file.None? ==> calls == [] && expenses == old(expenses) && error == old(error)
      ensures file.Some? ==> calls == Submissions(file.value, RowCheck(validDate, toIso), create, 0)
      ensures file.Some? && AllCreated(file.value, create, calls) && refetched.Some? ==>
        expenses == refetched.value && error == old(error)
      ensures file.Some? && !(AllCreated(file.value, create, calls) && refetched.Some?) ==>
        expenses == old(expenses) && error == Some(CsvError)
      ensures draft == old(draft)
    {
      if file.None? {
        return [];
      }
      var allCreated;
      calls, allCreated := SubmitRows(file.value, RowCheck(validDate, toIso), create);
      if allCreated && refetched.Some? {
        expenses := refetched.value;
      } else {
        error := Some(CsvError);
      }
    }
  }

  /**
   * Creating an expense whose id is new and then deleting it by that id
   * leaves the page showing the list it showed before.
   */
  method CreateThenDelete(shown: seq<Expense>, e: Expense) returns (after: seq<Expense>)
    requires forall i :: 0 <= i < |shown| ==> shown[i].id != e.id
    ensures after == shown
  {
    var page := new Page();
    page.LoadExpenses(Some(shown));
    var _ := page.HandleCreateExpense(Some(e));
    page.HandleDeleteExpense(e.id, true);
    DeleteUndoesAppend(shown, e);
    after := page.expenses;
  }
}
