/**
 * The identifier normaliser (`padronizar_cnpj`): turns the text of a spreadsheet
 * cell into a 14-digit CNPJ, or rejects it.
 */
module Normalizer {
  import opened Wrappers

  /** Length of a CNPJ: 14 decimal digits. */
  const CnpjLength := 14

  /**
   * One spreadsheet cell. `Missing` is every value `pd.isna` recognises (None,
   * NaN, NaT); `Text(s)` carries `str(value)` of any other cell. A float cell
   * such as 11222333000181.0 stringifies with a ".0" suffix, so its text holds
   * one digit more than the number itself.
   */
  datatype Cell = Missing | Text(s: string)

  /** ASCII decimal digit: what `\d` matches in the model. */
  predicate IsDigit(c: char) {
    '0' <= c <= '9'
  }

  predicate AllDigits(s: string) {
    forall i :: 0 <= i < |s| ==> IsDigit(s[i])
  }

  /** A well-formed identifier: exactly 14 digits. */
  predicate IsCnpj(s: string) {
    |s| == CnpjLength && AllDigits(s)
  }

  /** `re.sub(r"\D", "", s)`: the digits of `s`, in order. */
  function Digits(s: string): (r: string)
    ensures |r| <= |s|
  {
    if s == [] then []
    else (if IsDigit(s[0]) then [s[0]] else []) + Digits(s[1..])
  }

  /** Only digits survive. */
  lemma {:induction false} DigitsAreDigits(s: string)
    ensures AllDigits(Digits(s))
  {
    if s != [] {
      DigitsAreDigits(s[1..]);
    }
  }

  /** Removing non-digits distributes over concatenation. */
  lemma {:induction false} DigitsAppend(a: string, b: string)
    ensures Digits(a + b) == Digits(a) + Digits(b)
  {
    if a == [] {
      assert a + b == b;
    } else {
      var head := if IsDigit(a[0]) then [a[0]] else [];
      assert (a + b)[0] == a[0] && (a + b)[1..] == a[1..] + b;
      assert Digits(a + b) == head + Digits(a[1..] + b);
      DigitsAppend(a[1..], b);
      assert Digits(a) == head + Digits(a[1..]);
      assert head + (Digits(a[1..]) + Digits(b)) == (head + Digits(a[1..])) + Digits(b);
    }
  }

  /** A string keeps all its characters exactly when it is made of digits only. */
  lemma {:induction false} DigitsFixesExactlyDigitStrings(s: string)
    ensures Digits(s) == s <==> AllDigits(s)
  {
    DigitsAreDigits(s);
    if s != [] {
      DigitsFixesExactlyDigitStrings(s[1..]);
      if !IsDigit(s[0]) {
        // Digits(s) is then no longer than s[1..], so it cannot be s.
        assert |Digits(s)| < |s|;
      }
    }
  }

  /**
   * `padronizar_cnpj`: a missing cell gives None; otherwise the digits of the
   * text, with one "0" put in front of a 13-digit result, and None for every
   * other length. The lemmas below state what a result is.
   */
  function Normalize(cell: Cell): (r: Option<string>)
    ensures cell.Missing? ==> r == None
    ensures r.Some? ==> |r.value| == CnpjLength
  {
    match cell
    case Missing => None
    case Text(s) =>
      var d := Digits(s);
      var padded := if |d| == 13 then "0" + d else d;
      if |padded| != CnpjLength then None else Some(padded)
  }

  /**
   * A text is accepted exactly when it holds 13 or 14 digits, and the result
   * is then its digits, in order, left-padded with zeros to 14: a well-formed
   * CNPJ.
   */
  lemma NormalizeText(s: string)
    ensures Normalize(Text(s)).Some? <==> |Digits(s)| == 13 || |Digits(s)| == 14
    ensures Normalize(Text(s)).Some? ==> var r, d := Normalize(Text(s)).value, Digits(s);
      && IsCnpj(r)
      && r[CnpjLength - |d|..] == d
      && forall i :: 0 <= i < CnpjLength - |d| ==> r[i] == '0'
  {
    DigitsAreDigits(s);
  }

  /** Every accepted identifier is a well-formed CNPJ. */
  lemma NormalizeGivesCnpj(cell: Cell)
    requires Normalize(cell).Some?
    ensures IsCnpj(Normalize(cell).value)
  {
    NormalizeText(cell.s);
  }

  /** Normalising an identifier the normaliser produced gives it back unchanged. */
  lemma NormalizeIdempotent(cell: Cell)
    requires Normalize(cell).Some?
    ensures Normalize(Text(Normalize(cell).value)) == Normalize(cell)
  {
    NormalizeGivesCnpj(cell);
    DigitsFixesExactlyDigitStrings(Normalize(cell).value);
  }

  /** Every 14-digit string is a fixed point of the normaliser. */
  lemma NormalizeAcceptsCnpj(s: string)
    requires IsCnpj(s)
    ensures Normalize(Text(s)) == Some(s)
  {
    DigitsFixesExactlyDigitStrings(s);
  }

  /** Separators such as '.', '/' and '-' never change the outcome. */
  lemma NormalizeIgnoresNonDigit(a: string, c: char, b: string)
    requires !IsDigit(c)
    ensures Normalize(Text(a + [c] + b)) == Normalize(Text(a + b))
  {
    DigitsSkipNonDigit(a, c, b);
  }

  lemma DigitsSkipNonDigit(a: string, c: char, b: string)
    requires !IsDigit(c)
    ensures Digits(a + [c] + b) == Digits(a + b)
  {
    assert Digits([c]) == [];
    calc {
      Digits(a + [c] + b);
      { DigitsAppend(a + [c], b); }
      Digits(a + [c]) + Digits(b);
      { DigitsAppend(a, [c]); }
      Digits(a) + Digits(b);
      { DigitsAppend(a, b); }
      Digits(a + b);
    }
  }

  /** A 13-digit identifier, as read from a numeric cell, gets its leading zero back. */
  lemma NormalizeRestoresLeadingZero(s: string)
    requires |s| == CnpjLength - 1 && AllDigits(s)
    ensures Normalize(Text(s)) == Some("0" + s)
  {
    DigitsFixesExactlyDigitStrings(s);
    assert Digits(s) == s;
  }

  /** Too few digits, and a missing cell, are rejected. */
  lemma NormalizeRejects(s: string)
    requires s == "123"
    ensures Normalize(Text(s)) == None
    ensures Normalize(Missing) == None
  {
    DigitsFixesExactlyDigitStrings(s);
  }

  /** `str()` of a float cell ends in ".0", and that zero counts as a digit. */
  lemma FloatSuffixDigits(s: string)
    requires AllDigits(s)
    ensures Digits(s + ".0") == s + "0"
  {
    DigitsAppend(s, ".0");
    DigitsFixesExactlyDigitStrings(s);
    assert ".0"[1..] == "0" && "0"[1..] == [];
  }

  /** A 14-digit identifier read as a float is rejected: its text holds 15 digits. */
  lemma FloatCellOfCnpjRejected(s: string)
    requires IsCnpj(s)
    ensures Normalize(Text(s + ".0")) == None
  {
    FloatSuffixDigits(s);
  }

  /**
   * A 13-digit identifier read as a float is accepted, but as its digits
   * followed by "0" rather than preceded by it (compare NormalizeRestoresLeadingZero).
   */
  lemma FloatCellOfShortCnpj(s: string)
    requires |s| == CnpjLength - 1 && AllDigits(s)
    ensures Normalize(Text(s + ".0")) == Some(s + "0")
  {
    FloatSuffixDigits(s);
  }
}
