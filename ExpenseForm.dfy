/**
 * The new-expense form of the expenses page: how a change event on one of its
 * inputs rewrites the draft (`handleInputChange`, `handleDateChange`).
 */
module ExpenseForm {
  import opened JsString
  import opened ExpenseTypes

  /** The value of a decimal digit. */
  function DigitValue(c: char): nat
    requires IsDigit(c)
  {
    (c as int) - ('0' as int)
  }

  function Pow10(n: nat): nat
  {
    if n == 0 then 1 else 10 * Pow10(n - 1)
  }

  /** A string of decimal digits read as a whole number (leading zeros allowed). */
  function DecimalValue(ds: string): (n: nat)
    requires forall i :: 0 <= i < |ds| ==> IsDigit(ds[i])
    ensures n < Pow10(|ds|)
  {
    if ds == [] then 0
    else
      var m := DecimalValue(ds[..|ds| - 1]);
      assert m * 10 <= (Pow10(|ds| - 1) - 1) * 10;
      m * 10 + DigitValue(ds[|ds| - 1])
  }

  /**
   * What typing `value` into the amount input stores: the digits of `value`
   * read as centavos, so "R$ 12,34" is 1234 centavos. With no digit at all
   * `parseFloat("")` is NaN, and so is the stored amount.
   */
  function TypedAmount(value: string): (a: Amount)
    ensures a.NotANumber? <==> forall i :: 0 <= i < |value| ==> !IsDigit(value[i])
    ensures a.Cents? ==> a.cents == DecimalValue(DigitsOnly(value)) < Pow10(|DigitsOnly(value)|)
  {
    var digits := DigitsOnly(value);
    DigitsOnlyKeepsDigits(value);
    if digits == [] then
      assert forall i :: 0 <= i < |value| ==> !IsDigit(value[i]) by {
        forall i | 0 <= i < |value| ensures !IsDigit(value[i]) {
          assert value[i] in multiset(value);
        }
      }
      NotANumber
    else
      assert IsDigit(digits[0]) && digits[0] in multiset(value);
      Cents(DecimalValue(digits))
  }

  /** Appending a digit to a numeral shifts its value one place left and adds the digit. */
  lemma DecimalValueAppend(ds: string, c: char)
    requires forall i :: 0 <= i < |ds| ==> IsDigit(ds[i])
    requires IsDigit(c)
    ensures DecimalValue(ds + [c]) == DecimalValue(ds) * 10 + DigitValue(c)
  {
    assert (ds + [c])[..|ds|] == ds;
  }

  /** Typing one more digit shifts the centavos one place left and adds that digit. */
  lemma TypedAmountAppendDigit(value: string, c: char)
    requires IsDigit(c)
    ensures TypedAmount(value + [c]) ==
      Cents((match TypedAmount(value) case Cents(n) => n case NotANumber => 0) * 10 + DigitValue(c))
  {
    var d := DigitsOnly(value);
    DigitsOnlyConcat(value, [c]);
    assert DigitsOnly([c]) == [c] by {
      assert [c][1..] == [];
    }
    DecimalValueAppend(d, c);
  }

  /** A character that is not a digit leaves the typed amount as it was. */
  lemma TypedAmountIgnoresNonDigit(value: string, c: char)
    requires !IsDigit(c)
    ensures TypedAmount(value + [c]) == TypedAmount(value)
  {
    DigitsOnlyConcat(value, [c]);
    assert DigitsOnly([c]) == [];
    assert DigitsOnly(value) + [] == DigitsOnly(value);
  }

  /** The currency-formatted text "R$ 12,34" is read as 1234 centavos. */
  lemma TypedAmountExample()
    ensures TypedAmount("R$ 12,34") == Cents(1234)
  {
    ExampleDigits();
    ExampleValue();
  }

  /** The digits of the example text, one character at a time. */
  lemma ExampleDigits()
    ensures DigitsOnly("R$ 12,34") == "1234"
  {
    var s := "R$ 12,34";
    assert s[1..] == "$ 12,34";
    assert s[1..][1..] == " 12,34";
    assert s[1..][1..][1..] == "12,34";
    assert s[1..][1..][1..][1..] == "2,34";
    assert s[1..][1..][1..][1..][1..] == ",34";
    assert s[1..][1..][1..][1..][1..][1..] == "34";
    assert s[1..][1..][1..][1..][1..][1..][1..] == "4";
    assert s[1..][1..][1..][1..][1..][1..][1..][1..] == [];
  }

  /** The example numeral read digit by digit. */
  lemma ExampleValue()
    ensures DecimalValue("1234") == 1234
  {
    assert "1234"[..3] == "123" && "123"[..2] == "12" && "12"[..1] == "1" && "1"[..0] == [];
  }

  /**
   * `handleInputChange`: the input named "amount" stores the typed amount,
   * any other input stores its text under its own name.
   */
  function EditField(d: Draft, name: string, value: string): (r: Draft)
    ensures r.description == (if name == "description" then value else d.description)
    ensures r.amount == (if name == "amount" then TypedAmount(value) else d.amount)
    ensures r.date == (if name == "date" then value else d.date)
  {
    if name == "amount" then d.(amount := TypedAmount(value))
    else if name == "description" then d.(description := value)
    else if name == "date" then d.(date := value)
    else d
  }

  /** Edits of two different inputs do not interfere: their order does not matter. */
  lemma EditsCommute(d: Draft, n1: string, v1: string, n2: string, v2: string)
    requires n1 != n2
    ensures EditField(EditField(d, n1, v1), n2, v2) == EditField(EditField(d, n2, v2), n1, v1)
  {
  }

  /** A second edit of the same input overrides the first. */
  lemma LastEditWins(d: Draft, name: string, v1: string, v2: string)
    ensures EditField(EditField(d, name, v1), name, v2) == EditField(d, name, v2)
  {
  }
}
