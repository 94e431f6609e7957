/**
 * The CSV import of the expenses page (`handleFileUpload`): each parsed row is
 * checked and cleaned, then sent to the create endpoint, one row at a time,
 * stopping at the first row that fails.
 */
module CsvImport {
  import opened Wrappers
  import opened JsString

  /**
   * One row as the CSV parser hands it over: column name to cell text. A
   * short row lacks its last columns.
   */
  type Row = map<string, string>

  /**
   * What the import sends to the create endpoint for one row: the description
   * cell as it is (absent when the row has none), the cleaned amount text
   * (the text handed to `parseFloat`) and the ISO form of the date.
   */
  datatype CsvPayload = CsvPayload(description: Option<string>, amountText: string, isoDate: string)

  /**
   * The amount cleaning of the import: remove the first "R$", then the first
   * ".", then turn the first "," into ".", then trim.
   */
  function CleanAmount(amount: string): string
  {
    Trim(ReplaceFirst(ReplaceFirst(ReplaceFirst(amount, "R$", ""), ".", ""), ",", "."))
  }

  /** One `replace` changes the count of a character by at most the pattern's and the replacement's counts. */
  lemma {:induction false} ReplaceFirstCountBounds(s: string, pat: string, rep: string, c: char)
    ensures multiset(s)[c] as int - multiset(pat)[c] as int <= multiset(ReplaceFirst(s, pat, rep))[c] as int
    ensures multiset(ReplaceFirst(s, pat, rep))[c] <= multiset(s)[c] + multiset(rep)[c]
  {
    if |s| < |pat| {
    } else if s[..|pat|] == pat {
      assert s == pat + s[|pat|..];
    } else {
      ReplaceFirstCountBounds(s[1..], pat, rep, c);
      assert s == [s[0]] + s[1..];
    }
  }

  /**
   * The cleaning removes at most one "." from the amount text: in "1.234.567,89"
   * the second thousands separator survives.
   */
  lemma CleanAmountDropsAtMostOneDot(amount: string)
    ensures multiset(CleanAmount(amount))['.'] as int >= multiset(amount)['.'] as int - 1
  {
    var s1 := ReplaceFirst(amount, "R$", "");
    var s2 := ReplaceFirst(s1, ".", "");
    var s3 := ReplaceFirst(s2, ",", ".");
    ReplaceFirstCountBounds(amount, "R$", "", '.');
    ReplaceFirstCountBounds(s1, ".", "", '.');
    ReplaceFirstCountBounds(s2, ",", ".", '.');
    assert multiset("R$")['.'] == 0 && multiset(".")['.'] == 1 && multiset(",")['.'] == 0;
    TrimKeepsCount(s3, '.');
  }

  /** A slice holds every occurrence of a character that does not occur outside it. */
  lemma SliceKeepsCount(s: string, k: nat, len: nat, c: char)
    requires k + len <= |s|
    requires forall i :: 0 <= i < k ==> s[i] != c
    requires forall i :: k + len <= i < |s| ==> s[i] != c
    ensures multiset(s[k..k + len])[c] == multiset(s)[c]
  {
    assert s == s[..k] + s[k..k + len] + s[k + len..];
    assert c !in s[..k];
    assert c !in s[k + len..];
  }

  /** Trimming removes white space only: every other character keeps its count. */
  lemma TrimKeepsCount(s: string, c: char)
    requires !IsWhitespace(c)
    ensures multiset(Trim(s))[c] == multiset(s)[c]
  {
    TrimIsSlice(s);
    var k := |s| - |TrimStart(s)|;
    var len := |Trim(s)|;
    assert Trim(s) == s[k..k + len];
    forall i | 0 <= i < k ensures s[i] != c {
      assert IsWhitespace(s[i]);
    }
    forall i | k + len <= i < |s| ensures s[i] != c {
      assert IsWhitespace(s[i]);
    }
    SliceKeepsCount(s, k, len, c);
  }

  predicate AllDigits(s: string) {
    forall i :: 0 <= i < |s| ==> IsDigit(s[i])
  }

  /** The currency symbol at the start is what the first `replace` removes. */
  lemma DropSymbol(rest: string)
    ensures ReplaceFirst("R$" + rest, "R$", "") == rest
  {
    ReplaceFirstAt("R$" + rest, "R$", "", 0);
    assert ("R$" + rest)[2..] == rest;
  }

  /** A one-character `replace` acts on the first occurrence of that character. */
  lemma ReplaceCharAfter(pre: string, c: char, post: string, rep: string)
    requires c !in pre
    ensures ReplaceFirst(pre + [c] + post, [c], rep) == pre + rep + post
  {
    var s := pre + [c] + post;
    ReplaceFirstChar(s, c, rep, |pre|);
    assert s[..|pre|] == pre;
    assert s[|pre| + 1..] == post;
  }

  /** A digit string holds neither separator. */
  lemma DigitsHoldNoSeparator(a: string)
    requires AllDigits(a)
    ensures '.' !in a && ',' !in a
  {
  }

  /** The symbol step: "R$ " + t loses its "R$". */
  lemma SymbolStep(a: string, t: string)
    ensures ReplaceFirst("R$ " + a + t, "R$", "") == " " + a + t
  {
    assert "R$ " + a + t == "R$" + (" " + a + t);
    DropSymbol(" " + a + t);
  }

  /** The thousands step: the first "." after the leading digits is dropped. */
  lemma ThousandsStep(a: string, t: string)
    requires AllDigits(a)
    ensures ReplaceFirst(" " + a + "." + t, ".", "") == " " + a + t
  {
    DigitsHoldNoSeparator(a);
    assert " " + a + "." + t == (" " + a) + ['.'] + t;
    ReplaceCharAfter(" " + a, '.', t, "");
  }

  /** The decimal step: the first "," becomes ".". */
  lemma DecimalStep(pre: string, c: string)
    requires ',' !in pre
    ensures ReplaceFirst(pre + "," + c, ",", ".") == pre + "." + c
  {
    assert pre + "," + c == pre + [','] + c;
    ReplaceCharAfter(pre, ',', c, ".");
  }

  /**
   * The trim step: the space left where the symbol was is all `trim` removes
   * from text that starts and ends with a digit.
   */
  lemma TrimStep(r: string)
    requires r != [] && IsDigit(r[0]) && IsDigit(r[|r| - 1])
    ensures Trim(" " + r) == r
  {
    assert " " + r == [' '] + r;
    TrimDropsLeading(' ', r);
    TrimUnchanged(r);
  }

  /**
   * The shape both formats share: "R$ " and digits, a ".", a middle part
   * without ",", then "," and digits is cleaned to the digits, the middle
   * part, "." and the last digits.
   */
  lemma CleanAmountShape(s: string, a: string, m: string, c: string)
    requires AllDigits(a) && AllDigits(c) && a != [] && c != [] && ',' !in m
    requires s == "R$ " + a + "." + m + "," + c
    ensures CleanAmount(s) == a + m + "." + c
  {
    assert s == "R$ " + a + ("." + m + "," + c);
    SymbolStep(a, "." + m + "," + c);
    assert " " + a + ("." + m + "," + c) == " " + a + "." + (m + "," + c);
    ThousandsStep(a, m + "," + c);
    DigitsHoldNoSeparator(a);
    assert " " + a + (m + "," + c) == (" " + a + m) + "," + c;
    DecimalStep(" " + a + m, c);
    assert (" " + a + m) + "." + c == " " + (a + m + "." + c);
    TrimStep(a + m + "." + c);
  }

  /**
   * An amount in the Brazilian format "R$ a.b,c" is cleaned to "ab.c": the
   * symbol, the space and the thousands separator go, the decimal comma
   * becomes a point. For instance "R$ 1.234,56" becomes "1234.56".
   */
  lemma CleanAmountBrazilian(a: string, b: string, c: string)
    requires AllDigits(a) && AllDigits(b) && AllDigits(c) && a != [] && c != []
    ensures CleanAmount("R$ " + a + "." + b + "," + c) == a + b + "." + c
  {
    DigitsHoldNoSeparator(b);
    CleanAmountShape("R$ " + a + "." + b + "," + c, a, b, c);
  }

  /**
   * With two thousands separators, "R$ a.b.d,c" is cleaned to "ab.d.c": the
   * second "." survives, so "R$ 1.234.567,89" becomes "1234.567.89".
   */
  lemma CleanAmountSecondDotKept(a: string, b: string, d: string, c: string)
    requires AllDigits(a) && AllDigits(b) && AllDigits(d) && AllDigits(c) && a != [] && c != []
    ensures CleanAmount("R$ " + a + "." + b + "." + d + "," + c) == a + b + "." + d + "." + c
  {
    DigitsHoldNoSeparator(b);
    DigitsHoldNoSeparator(d);
    var m := b + "." + d;
    assert ',' !in m;
    var p := "R$ " + a + ".";
    calc {
      p + b + "." + d;
      { ConcatAssoc(p, b, "."); }
      p + (b + ".") + d;
      { ConcatAssoc(p, b + ".", d); }
      p + m;
    }
    CleanAmountShape("R$ " + a + "." + b + "." + d + "," + c, a, m, c);
    calc {
      a + m + "." + c;
      { ConcatAssoc(a, b + ".", d); ConcatAssoc(a, b, "."); }
      a + b + "." + d + "." + c;
    }
  }

  /** Concatenation is associative. */
  lemma ConcatAssoc<T>(x: seq<T>, y: seq<T>, z: seq<T>)
    ensures x + y + z == x + (y + z)
  {
  }

  /**
   * The checks made on one row before its create call: the date cell must be
   * present and non-empty and accepted by the date constructor (`validDate`),
   * and the amount cell must be present. `toIso` stands for
   * `new Date(d).toISOString()`.
   */
  function PrepareRow(row: Row, validDate: string -> bool, toIso: string -> string): (r: Option<CsvPayload>)
  {
    if "date" !in row || row["date"] == "" || !validDate(row["date"]) || "amount" !in row then None
    else
      var description := if "description" in row then Some(row["description"]) else None;
      Some(CsvPayload(description, CleanAmount(row["amount"]), toIso(row["date"])))
  }

  /**
   * The create calls the import makes from row `i` on: the payload of each
   * row in file order, up to and including the first whose create fails, and
   * none from the first row that fails its checks. `prepare` is the per-row
   * check and cleaning (`PrepareRow` with the page's date functions);
   * `create(n, p)` is the outcome of the n-th create call, made with payload `p`.
   */
  function Submissions(rows: seq<Row>, prepare: Row -> Option<CsvPayload>,
                       create: (nat, CsvPayload) -> bool, i: nat): (calls: seq<CsvPayload>)
    requires i <= |rows|
    ensures |calls| <= |rows| - i
    decreases |rows| - i
  {
    if i == |rows| then []
    else match prepare(rows[i])
      case None => []
      case Some(p) =>
        if create(i, p) then [p] + Submissions(rows, prepare, create, i + 1) else [p]
  }

  /** Every row was sent and every create call was accepted. */
  predicate AllCreated(rows: seq<Row>, create: (nat, CsvPayload) -> bool, calls: seq<CsvPayload>)
  {
    |calls| == |rows| && forall j :: 0 <= j < |calls| ==> create(j, calls[j])
  }

  /**
   * Rows are sent in file order, one call per row, and the call for a row is
   * made only after the calls for all earlier rows succeeded.
   */
  lemma {:induction false} SubmissionsInFileOrder(rows: seq<Row>, prepare: Row -> Option<CsvPayload>,
      create: (nat, CsvPayload) -> bool, i: nat)
    requires i <= |rows|
    ensures forall j :: 0 <= j < |Submissions(rows, prepare, create, i)| ==>
      prepare(rows[i + j]) == Some(Submissions(rows, prepare, create, i)[j])
    ensures forall j :: 0 <= j < |Submissions(rows, prepare, create, i)| - 1 ==>
      create(i + j, Submissions(rows, prepare, create, i)[j])
    decreases |rows| - i
  {
    if i < |rows| && prepare(rows[i]).Some? {
      var p := prepare(rows[i]).value;
      if create(i, p) {
        SubmissionsInFileOrder(rows, prepare, create, i + 1);
        var rest := Submissions(rows, prepare, create, i + 1);
        assert forall j :: 0 <= j < |rest| ==> prepare(rows[i + 1 + j]) == Some(rest[j]);
        assert forall j :: 0 <= j < |rest| - 1 ==> create(i + 1 + j, rest[j]);
        var calls := [p] + rest;
        assert Submissions(rows, prepare, create, i) == calls;
        forall j | 1 <= j < |calls|
          ensures prepare(rows[i + j]) == Some(calls[j])
          ensures j < |calls| - 1 ==> create(i + j, calls[j])
        {
          assert i + j == (i + 1) + (j - 1) && calls[j] == rest[j - 1];
        }
      }
    }
  }

  /** The call at position `j` of a whole import carries the prepared payload of row `j`. */
  lemma SubmittedRow(rows: seq<Row>, prepare: Row -> Option<CsvPayload>,
      create: (nat, CsvPayload) -> bool, j: nat)
    requires j < |Submissions(rows, prepare, create, 0)|
    ensures j < |rows| && prepare(rows[j]) == Some(Submissions(rows, prepare, create, 0)[j])
  {
    SubmissionsInFileOrder(rows, prepare, create, 0);
    assert rows[0 + j] == rows[j];
  }

  /**
   * Why the calls stop: every row was sent and accepted, or the last call
   * failed, or the next row failed its checks.
   */
  lemma {:induction false} SubmissionsStop(rows: seq<Row>, prepare: Row -> Option<CsvPayload>,
      create: (nat, CsvPayload) -> bool, i: nat)
    requires i <= |rows|
    ensures var calls := Submissions(rows, prepare, create, i);
      var k := |calls|;
      || (i + k == |rows| && forall j :: 0 <= j < k ==> create(i + j, calls[j]))
      || (k > 0 && !create(i + k - 1, calls[k - 1]))
      || (i + k < |rows| && prepare(rows[i + k]).None?)
    decreases |rows| - i
  {
    if i < |rows| {
      match prepare(rows[i])
      case None =>
      case Some(p) =>
        if create(i, p) {
          SubmissionsStop(rows, prepare, create, i + 1);
          var rest := Submissions(rows, prepare, create, i + 1);
          var calls := [p] + rest;
          assert Submissions(rows, prepare, create, i) == calls;
          if i + 1 + |rest| == |rows| && forall j :: 0 <= j < |rest| ==> create(i + 1 + j, rest[j]) {
            forall j | 0 <= j < |calls| ensures create(i + j, calls[j]) {
              if j > 0 {
                assert i + j == i + 1 + (j - 1) && calls[j] == rest[j - 1];
              }
            }
          }
        }
    }
  }

  /**
   * A row that fails its checks, reached after every earlier row was created,
   * ends the import: exactly the earlier rows were sent, that row and every
   * later one are not, and the earlier creates stand.
   */
  lemma {:induction false} BadRowAborts(rows: seq<Row>, prepare: Row -> Option<CsvPayload>,
      create: (nat, CsvPayload) -> bool, i: nat, bad: nat)
    requires i <= bad < |rows|
    requires prepare(rows[bad]).None?
    requires forall j :: i <= j < bad ==> prepare(rows[j]).Some? && create(j, prepare(rows[j]).value)
    ensures |Submissions(rows, prepare, create, i)| == bad - i
    decreases bad - i
  {
    if i < bad {
      BadRowAborts(rows, prepare, create, i + 1, bad);
    }
  }

  /**
   * Every row from `i` on is sent and accepted exactly when every such row
   * passes its checks and its create call succeeds.
   */
  lemma {:induction false} SubmissionsAllAccepted(rows: seq<Row>, prepare: Row -> Option<CsvPayload>,
      create: (nat, CsvPayload) -> bool, i: nat)
    requires i <= |rows|
    ensures (&& |Submissions(rows, prepare, create, i)| == |rows| - i
             && forall j :: 0 <= j < |Submissions(rows, prepare, create, i)| ==>
                  create(i + j, Submissions(rows, prepare, create, i)[j]))
        <==> forall j :: i <= j < |rows| ==> prepare(rows[j]).Some? && create(j, prepare(rows[j]).value)
    decreases |rows| - i
  {
    if i < |rows| {
      match prepare(rows[i])
      case None =>
      case Some(p) =>
        if create(i, p) {
          SubmissionsAllAccepted(rows, prepare, create, i + 1);
          var rest := Submissions(rows, prepare, create, i + 1);
          var calls := [p] + rest;
          assert Submissions(rows, prepare, create, i) == calls;
          if forall j :: 0 <= j < |rest| ==> create(i + 1 + j, rest[j]) {
            forall j | 0 <= j < |calls| ensures create(i + j, calls[j]) {
              if j > 0 {
                assert i + j == i + 1 + (j - 1) && calls[j] == rest[j - 1];
              }
            }
          }
          if forall j :: 0 <= j < |calls| ==> create(i + j, calls[j]) {
            forall j | 0 <= j < |rest| ensures create(i + 1 + j, rest[j]) {
              assert calls[j + 1] == rest[j];
            }
          }
        } else {
          assert Submissions(rows, prepare, create, i)[0] == p;
        }
    }
  }

  /** The import creates every row exactly when every row is valid and every create call succeeds. */
  lemma ImportAllCreated(rows: seq<Row>, prepare: Row -> Option<CsvPayload>, create: (nat, CsvPayload) -> bool)
    ensures AllCreated(rows, create, Submissions(rows, prepare, create, 0))
        <==> forall j :: 0 <= j < |rows| ==> prepare(rows[j]).Some? && create(j, prepare(rows[j]).value)
  {
    SubmissionsAllAccepted(rows, prepare, create, 0);
  }

  /** One step of the import: what the calls from row `i` on are, by the outcome at row `i`. */
  lemma SubmissionsStep(rows: seq<Row>, prepare: Row -> Option<CsvPayload>,
      create: (nat, CsvPayload) -> bool, i: nat)
    requires i < |rows|
    ensures prepare(rows[i]).None? ==> Submissions(rows, prepare, create, i) == []
    ensures prepare(rows[i]).Some? && create(i, prepare(rows[i]).value) ==>
      Submissions(rows, prepare, create, i) == [prepare(rows[i]).value] + Submissions(rows, prepare, create, i + 1)
    ensures prepare(rows[i]).Some? && !create(i, prepare(rows[i]).value) ==>
      Submissions(rows, prepare, create, i) == [prepare(rows[i]).value]
  {
  }

  /**
   * The import loop: for each row in file order, check and clean it, then
   * await its create call; stop at the first row that fails. Returns the
   * payloads of the create calls made, in order, and whether all succeeded.
   */
  method SubmitRows(rows: seq<Row>, prepare: Row -> Option<CsvPayload>, create: (nat, CsvPayload) -> bool)
    returns (calls: seq<CsvPayload>, allCreated: bool)
    ensures calls == Submissions(rows, prepare, create, 0)
    ensures allCreated <==> AllCreated(rows, create, calls)
  {
    calls := [];
    var i := 0;
    while i < |rows|
      invariant 0 <= i <= |rows| && |calls| == i
      invariant forall j :: 0 <= j < i ==> create(j, calls[j])
      invariant Submissions(rows, prepare, create, 0) == calls + Submissions(rows, prepare, create, i)
    {
      var payload := prepare(rows[i]);
      SubmissionsStep(rows, prepare, create, i);
      if payload.None? {
        assert calls + [] == calls;
        return calls, false;
      }
      var ok := create(i, payload.value);
      ConcatAssoc(calls, [payload.value], Submissions(rows, prepare, create, i + 1));
      calls := calls + [payload.value];
      if !ok {
        assert !create(i, calls[i]);
        return calls, false;
      }
      i := i + 1;
    }
    assert calls + [] == calls;
    return calls, true;
  }
}
