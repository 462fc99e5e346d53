/**
 * How the wizard turns a choice into its `amount`: a preset option's value
 * with the unit appended, or the trimmed text of the custom-amount box when
 * it denotes a number above zero.
 */
module Amount {
  import opened JsText

  /** The currency unit both amount handlers append. */
  const Unit := " CUP"

  predicate AllDigits(t: string) {
    forall i :: 0 <= i < |t| ==> IsDigit(t[i])
  }

  /** An unsigned decimal literal: `\d+(\.\d*)?` or `\.\d+`. */
  predicate IsUnsignedDecimal(t: string) {
    var k := RunLength(t, Digits);
    if k == |t| then k > 0
    else t[k] == '.' && AllDigits(t[k + 1..]) && (k > 0 || k + 1 < |t|)
  }

  /** A decimal literal with an optional sign, the part of JavaScript's numeric string grammar this model covers. */
  predicate IsDecimalLiteral(t: string) {
    if t != [] && (t[0] == '+' || t[0] == '-') then IsUnsignedDecimal(t[1..]) else IsUnsignedDecimal(t)
  }

  function DigitValue(c: char): nat
    requires IsDigit(c)
  {
    (c as int) - ('0' as int)
  }

  /** The number a string of decimal digits denotes. */
  function DigitsValue(ds: string): nat
    requires AllDigits(ds)
  {
    if ds == [] then 0 else 10 * DigitsValue(ds[..|ds| - 1]) + DigitValue(ds[|ds| - 1])
  }

  /**
   * `!isNaN(t) && Number(t) > 0` for a decimal literal `t`: the sign is not
   * `-` and the digits, read without the point, denote a number above zero
   * (the point only divides that number by a power of ten).
   */
  predicate IsPositiveNumber(t: string)
    ensures IsPositiveNumber(t) <==> IsDecimalLiteral(t) && t[0] != '-' && HasNonZeroDigit(t)
  {
    DigitsValuePositive(DigitsOnly(t));
    DigitsOnlyKeepsNonZero(t);
    IsDecimalLiteral(t) && t[0] != '-' && DigitsValue(DigitsOnly(t)) > 0
  }

  predicate HasNonZeroDigit(t: string) {
    exists i :: 0 <= i < |t| && '1' <= t[i] <= '9'
  }

  /** A digit string denotes a number above zero exactly when one of its digits is not `0`. */
  lemma {:induction false} DigitsValuePositive(ds: string)
    requires AllDigits(ds)
    ensures DigitsValue(ds) > 0 <==> HasNonZeroDigit(ds)
  {
    if ds != [] {
      var init := ds[..|ds| - 1];
      DigitsValuePositive(init);
      if HasNonZeroDigit(init) {
        var i :| 0 <= i < |init| && '1' <= init[i] <= '9';
        assert ds[i] == init[i];
      }
      if HasNonZeroDigit(ds) && ds[|ds| - 1] == '0' {
        var i :| 0 <= i < |ds| && '1' <= ds[i] <= '9';
        assert init[i] == ds[i];
      }
    }
  }

  /** Deleting the non-digits of a string keeps its non-zero digits. */
  lemma DigitsOnlyKeepsNonZero(t: string)
    ensures HasNonZeroDigit(DigitsOnly(t)) <==> HasNonZeroDigit(t)
  {
    var d := DigitsOnly(t);
    if HasNonZeroDigit(d) {
      var i :| 0 <= i < |d| && '1' <= d[i] <= '9';
      KeepCounts(t, Digits, d[i]);
      assert d[i] in multiset(d);
      assert d[i] in multiset(t);
    }
    if HasNonZeroDigit(t) {
      var i :| 0 <= i < |t| && '1' <= t[i] <= '9';
      KeepCounts(t, Digits, t[i]);
      assert t[i] in multiset(t);
      assert t[i] in multiset(d);
    }
  }

  /** A preset click's amount: the option's value with the unit. It is always truthy. */
  function PresetAmount(value: string): (a: JsStr)
    ensures a.Truthy()
  {
    Str(value + Unit)
  }

  /**
   * The custom-amount input handler's amount: the trimmed text with the unit
   * when it is a non-empty number above zero, and `null` otherwise.
   */
  function CustomAmount(input: string): (a: JsStr)
    ensures a == Null || a.Truthy()
  {
    var val := Trim(input);
    if val != "" && IsPositiveNumber(val) then Str(val + Unit) else Null
  }

  /**
   * The custom amount is set exactly when the trimmed text is a decimal
   * literal, not negative, with a non-zero digit; it is then that text with
   * the unit, and otherwise `null` (never the empty string).
   */
  lemma CustomAmountRule(input: string)
    ensures var val := Trim(input); var a := CustomAmount(input);
      && (a.Truthy() <==> IsDecimalLiteral(val) && val[0] != '-' && HasNonZeroDigit(val))
      && (a.Truthy() ==> a == Str(val + " CUP"))
      && (!a.Truthy() ==> a == Null)
  {
    var val := Trim(input);
    DigitsValuePositive(DigitsOnly(val));
    DigitsOnlyKeepsNonZero(val);
  }

  /** Whitespace around the number is dropped. */
  lemma CustomAmountTrims(t: string)
    requires t == " 250 "
    ensures CustomAmount(t) == Str("250 CUP")
  {
    TrimPadded(t);
    var w := t[1..4];
    assert w[0] == '2' && w[1] == '5' && w[2] == '0';
    assert RunLength(w, Digits) == 3;
    assert IsDecimalLiteral(w) && HasNonZeroDigit(w);
    CustomAmountRule(t);
    assert w + " CUP" == "250 CUP";
  }

  /** The padded text of the example above trims to its middle. */
  lemma TrimPadded(t: string)
    requires t == " 250 "
    ensures Trim(t) == t[1..4]
  {
    var u := t[1..];
    assert IsJsWhitespace(t[0]) && !IsJsWhitespace(u[0]);
    assert TrimStart(u) == u;
    assert TrimStart(t) == u;
    var w := u[..3];
    assert IsJsWhitespace(u[3]) && !IsJsWhitespace(w[2]);
    assert TrimEnd(w) == w;
    assert TrimEnd(u) == w;
    assert w == t[1..4];
  }

  /** A value that is zero is refused. */
  lemma CustomAmountRefusesZero(t: string)
    requires t == "0.00"
    ensures CustomAmount(t) == Null
  {
    assert forall k :: 0 <= k < |t| ==> t[k] == '0' || t[k] == '.' by {
      forall k | 0 <= k < |t| ensures t[k] == '0' || t[k] == '.' {
        assert k == 0 || k == 1 || k == 2 || k == 3;
      }
    }
    CustomAmountRule(t);
  }

  /** A negative value is refused. */
  lemma CustomAmountRefusesNegative(t: string)
    requires t == "-5"
    ensures CustomAmount(t) == Null
  {
    assert !IsJsWhitespace(t[0]) && !IsJsWhitespace(t[1]);
    CustomAmountRule(t);
  }

  /** A number followed by letters is refused. */
  lemma CustomAmountRefusesText(t: string)
    requires t == "12abc"
    ensures CustomAmount(t) == Null
  {
    assert forall k :: 0 <= k < |t| ==> !IsJsWhitespace(t[k]) by {
      forall k | 0 <= k < |t| ensures !IsJsWhitespace(t[k]) {
        assert k == 0 || k == 1 || k == 2 || k == 3 || k == 4;
      }
    }
    assert t[0] == '1' && t[1] == '2' && t[2] == 'a';
    assert RunLength(t, Digits) == 2;
    CustomAmountRule(t);
  }
}
