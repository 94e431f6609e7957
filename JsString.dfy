/**
 * The JavaScript string built-ins the dashboard relies on: `replace` with a
 * string pattern (first occurrence only), `replace(/\D/g, "")`, `trim` and
 * `split(sep)[0]`. Strings are sequences of characters.
 */
module JsString {
  import opened Wrappers

  /** A decimal digit: the class that `\d` matches and `\D` excludes. */
  predicate IsDigit(c: char) {
    '0' <= c <= '9'
  }

  /** The white space and line terminator characters that `String.prototype.trim` strips. */
  predicate IsWhitespace(c: char) {
    if c <= ' ' then
      c == '\t' || c == '\n' || c == '\U{B}' || c == '\U{C}' || c == '\r' || c == ' '
    else
      && '\U{A0}' <= c
      && (|| c == '\U{A0}' || c == '\U{1680}' || ('\U{2000}' <= c <= '\U{200A}')
          || c == '\U{2028}' || c == '\U{2029}' || c == '\U{202F}' || c == '\U{205F}'
          || c == '\U{3000}' || c == '\U{FEFF}')
  }

  /** `pat` occurs in `s` starting at index `i`. */
  predicate OccursAt(s: string, pat: string, i: nat) {
    i + |pat| <= |s| && s[i..i + |pat|] == pat
  }

  /** `i` is the leftmost index at which `pat` occurs in `s`. */
  predicate IsFirstOccurrence(s: string, pat: string, i: nat) {
    OccursAt(s, pat, i) && forall j: nat :: j < i ==> !OccursAt(s, pat, j)
  }

  /** An occurrence in `s[1..]` is an occurrence in `s` one place further on. */
  lemma OccursAtShift(s: string, pat: string, j: nat)
    requires s != []
    ensures OccursAt(s[1..], pat, j) <==> OccursAt(s, pat, j + 1)
  {
    if j + 1 + |pat| <= |s| {
      assert s[1..][j..j + |pat|] == s[j + 1..j + 1 + |pat|];
    }
  }

  /**
   * `s.replace(pat, rep)` with a string pattern and a replacement holding no
   * "$" (so no `$&`-style substitution pattern): only the leftmost occurrence
   * is replaced (an empty pattern matches at the start).
   */
  function ReplaceFirst(s: string, pat: string, rep: string): string
  {
    if |s| < |pat| then s
    else if s[..|pat|] == pat then rep + s[|pat|..]
    else [s[0]] + ReplaceFirst(s[1..], pat, rep)
  }

  /** `replace` splices the replacement in at the leftmost occurrence. */
  lemma {:induction false} ReplaceFirstAt(s: string, pat: string, rep: string, i: nat)
    requires IsFirstOccurrence(s, pat, i)
    ensures ReplaceFirst(s, pat, rep) == s[..i] + rep + s[i + |pat|..]
  {
    if i == 0 {
      assert s[..|pat|] == pat;
    } else {
      assert s[..|pat|] != pat by {
        assert !OccursAt(s, pat, 0);
      }
      var t := s[1..];
      assert IsFirstOccurrence(t, pat, i - 1) by {
        OccursAtShift(s, pat, i - 1);
        forall j: nat | j < i - 1 ensures !OccursAt(t, pat, j) {
          OccursAtShift(s, pat, j);
        }
      }
      ReplaceFirstAt(t, pat, rep, i - 1);
      calc {
        ReplaceFirst(s, pat, rep);
        [s[0]] + ReplaceFirst(t, pat, rep);
        [s[0]] + (t[..i - 1] + rep + t[i - 1 + |pat|..]);
        { assert [s[0]] + t[..i - 1] == s[..i];
          assert t[i - 1 + |pat|..] == s[i + |pat|..]; }
        s[..i] + rep + s[i + |pat|..];
      }
    }
  }

  /** Without an occurrence `replace` returns the string unchanged. */
  lemma {:induction false} ReplaceFirstNoMatch(s: string, pat: string, rep: string)
    requires forall j: nat :: !OccursAt(s, pat, j)
    ensures ReplaceFirst(s, pat, rep) == s
  {
    if |s| >= |pat| {
      assert !OccursAt(s, pat, 0);
      forall j: nat ensures !OccursAt(s[1..], pat, j) {
        OccursAtShift(s, pat, j);
      }
      ReplaceFirstNoMatch(s[1..], pat, rep);
    }
  }

  /** `replace` of a one-character pattern acts at the leftmost position holding that character. */
  lemma ReplaceFirstChar(s: string, c: char, rep: string, i: nat)
    requires i < |s| && s[i] == c
    requires forall j :: 0 <= j < i ==> s[j] != c
    ensures ReplaceFirst(s, [c], rep) == s[..i] + rep + s[i + 1..]
  {
    assert IsFirstOccurrence(s, [c], i) by {
      OccursAtChar(s, c, i);
      forall j: nat | j < i ensures !OccursAt(s, [c], j) {
        OccursAtChar(s, c, j);
      }
    }
    ReplaceFirstAt(s, [c], rep, i);
  }

  /**
   * `s.split(sep)[0]` for a non-empty separator: the text before the leftmost
   * `sep`, or all of `s` when there is none. (An empty separator splits into
   * single characters, which this does not model.)
   */
  function BeforeFirst(s: string, sep: string): string
  {
    if |s| < |sep| then s
    else if s[..|sep|] == sep then []
    else [s[0]] + BeforeFirst(s[1..], sep)
  }

  /**
   * The first piece of a split is a prefix of the string holding no separator,
   * and it ends at the leftmost separator or at the end of the string.
   */
  lemma {:induction false} BeforeFirstSpec(s: string, sep: string)
    ensures BeforeFirst(s, sep) <= s
    ensures forall j: nat :: j < |BeforeFirst(s, sep)| ==> !OccursAt(s, sep, j)
    ensures BeforeFirst(s, sep) == s || IsFirstOccurrence(s, sep, |BeforeFirst(s, sep)|)
  {
    if |s| >= |sep| && s[..|sep|] != sep {
      var r := BeforeFirst(s[1..], sep);
      BeforeFirstSpec(s[1..], sep);
      assert BeforeFirst(s, sep) == [s[0]] + r;
      forall j: nat | j < |r| + 1 ensures !OccursAt(s, sep, j) {
        if j > 0 {
          OccursAtShift(s, sep, j - 1);
        }
      }
      if r != s[1..] {
        OccursAtShift(s, sep, |r|);
      }
    }
  }

  /** `s.replace(/\D/g, "")`: the digit characters of `s`, in their original order. */
  function DigitsOnly(s: string): (r: string)
    ensures forall i :: 0 <= i < |r| ==> IsDigit(r[i])
  {
    if s == [] then []
    else (if IsDigit(s[0]) then [s[0]] else []) + DigitsOnly(s[1..])
  }

  /** Every digit of `s` is kept, as many times as it occurs: nothing else is dropped. */
  lemma {:induction false} DigitsOnlyKeepsDigits(s: string)
    ensures forall c :: IsDigit(c) ==> multiset(DigitsOnly(s))[c] == multiset(s)[c]
  {
    if s != [] {
      assert s == [s[0]] + s[1..];
      DigitsOnlyKeepsDigits(s[1..]);
    }
  }

  /** Removing the non-digits of a concatenation is removing them from each part. */
  lemma {:induction false} DigitsOnlyConcat(a: string, b: string)
    ensures DigitsOnly(a + b) == DigitsOnly(a) + DigitsOnly(b)
  {
    if a != [] {
      assert (a + b)[1..] == a[1..] + b;
      DigitsOnlyConcat(a[1..], b);
    } else {
      assert a + b == b;
    }
  }

  /** Leading white space removed. */
  function TrimStart(s: string): (r: string)
    ensures |r| <= |s| && r == s[|s| - |r|..]
    ensures forall i :: 0 <= i < |s| - |r| ==> IsWhitespace(s[i])
    ensures r == [] || !IsWhitespace(r[0])
  {
    if s != [] && IsWhitespace(s[0]) then TrimStart(s[1..]) else s
  }

  /** Trailing white space removed. */
  function TrimEnd(s: string): (r: string)
    ensures |r| <= |s| && r == s[..|r|]
    ensures forall i :: |r| <= i < |s| ==> IsWhitespace(s[i])
    ensures r == [] || !IsWhitespace(r[|r| - 1])
  {
    if s != [] && IsWhitespace(s[|s| - 1]) then TrimEnd(s[..|s| - 1]) else s
  }

  /** `s.trim()`: `s` with the white space at both ends stripped. */
  function Trim(s: string): (r: string)
    ensures r == [] || (!IsWhitespace(r[0]) && !IsWhitespace(r[|r| - 1]))
  {
    TrimEnd(TrimStart(s))
  }

  /** What `trim` strips is white space only: the result is a slice of `s` with white space around it. */
  lemma TrimIsSlice(s: string)
    ensures |s| - |TrimStart(s)| + |Trim(s)| <= |s|
    ensures Trim(s) == s[|s| - |TrimStart(s)|..|s| - |TrimStart(s)| + |Trim(s)|]
    ensures forall i :: 0 <= i < |s| - |TrimStart(s)| ==> IsWhitespace(s[i])
    ensures forall i :: |s| - |TrimStart(s)| + |Trim(s)| <= i < |s| ==> IsWhitespace(s[i])
  {
  }

  /** A string without white space at either end is left as it is. */
  lemma TrimUnchanged(s: string)
    requires s == [] || (!IsWhitespace(s[0]) && !IsWhitespace(s[|s| - 1]))
    ensures Trim(s) == s
  {
  }

  /** A leading white-space character is stripped. */
  lemma TrimDropsLeading(c: char, s: string)
    requires IsWhitespace(c)
    ensures Trim([c] + s) == Trim(s)
  {
    assert ([c] + s)[1..] == s;
  }

  /** A one-character pattern occurs exactly where that character stands. */
  lemma OccursAtChar(s: string, c: char, i: nat)
    ensures OccursAt(s, [c], i) <==> i < |s| && s[i] == c
  {
    if i < |s| {
      assert s[i..i + 1] == [s[i]];
    }
  }
}
