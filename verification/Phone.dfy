/**
 * The phone helpers of the wizard's `utils` object: `sanitizePhone`, which
 * keeps only digits and `+`, and `validateCubanPhone`, which tests the
 * digits of a number against the Cuban mobile pattern `^(53)?5\d{7}$`.
 */
module Phone {
  import opened JsText

  /** The characters `sanitizePhone` keeps: the class `[\d+]`. */
  predicate IsPhoneChar(c: char) {
    InClass(c, DigitsAndPlus)
  }

  /** `utils.sanitizePhone`: `str.replace(/[^\d+]/g, '')`. A `+` is kept wherever it stands. */
  function SanitizePhone(s: string): (r: string)
    ensures forall i :: 0 <= i < |r| ==> IsPhoneChar(r[i])
  {
    Keep(s, DigitsAndPlus)
  }

  /** The subscriber part `5\d{7}` of the pattern, anchored at both ends. */
  predicate IsSubscriber(t: string) {
    |t| == 8 && t[0] == '5' && forall i :: 1 <= i < 8 ==> IsDigit(t[i])
  }

  /**
   * `/^(53)?5\d{7}$/.test(t)`: the optional group `(53)` is tried first and
   * skipped when the rest does not match.
   */
  predicate MatchesMobilePattern(t: string) {
    (|t| >= 2 && t[..2] == "53" && IsSubscriber(t[2..])) || IsSubscriber(t)
  }

  /** `utils.validateCubanPhone`: the pattern is tested on the digits of `phone` only. */
  predicate ValidateCubanPhone(phone: string)
    ensures ValidateCubanPhone(phone) ==> |DigitsOnly(phone)| == 8 || |DigitsOnly(phone)| == 10
  {
    MatchesMobilePattern(DigitsOnly(phone))
  }

  /**
   * The sanitised phone holds only digits and `+`, is what remains of the
   * input after deleting characters, keeps every digit and `+` of the input
   * (so their order and number), and sanitising it again changes nothing.
   */
  lemma SanitizePhoneSpec(s: string)
    ensures var r := SanitizePhone(s);
      && (forall i :: 0 <= i < |r| ==> IsPhoneChar(r[i]))
      && IsSubsequence(r, s)
      && (forall c :: IsPhoneChar(c) ==> multiset(r)[c] == multiset(s)[c])
      && (forall c :: !IsPhoneChar(c) ==> multiset(r)[c] == 0)
      && SanitizePhone(r) == r
  {
    KeepIsSubsequence(s, DigitsAndPlus);
    forall c | true
      ensures multiset(SanitizePhone(s))[c] == if IsPhoneChar(c) then multiset(s)[c] else 0
    {
      KeepCounts(s, DigitsAndPlus, c);
    }
    KeepIdempotent(s, DigitsAndPlus);
  }

  /** A string already made of digits and `+` is its own sanitised form, and only such a string is. */
  lemma SanitizePhoneFixpoint(s: string)
    ensures SanitizePhone(s) == s <==> forall i :: 0 <= i < |s| ==> IsPhoneChar(s[i])
  {
    KeepFixpoint(s, DigitsAndPlus);
  }

  /**
   * The pattern as a statement about lengths: a phone is valid exactly when
   * its digits are 8 starting with 5, or 10 starting with 535.
   */
  lemma ValidateCubanPhoneSpec(phone: string)
    ensures var d := DigitsOnly(phone);
      ValidateCubanPhone(phone) <==> (|d| == 8 && d[0] == '5') || (|d| == 10 && d[..3] == "535")
  {
    var d := DigitsOnly(phone);
    if |d| == 10 && d[..3] == "535" {
      assert d[..2] == "53" && d[2..][0] == d[2];
      assert forall i :: 1 <= i < 8 ==> d[2..][i] == d[i + 2];
    }
    if |d| >= 2 && d[..2] == "53" && IsSubscriber(d[2..]) {
      assert d[2] == d[2..][0];
    }
  }

  /** Characters other than digits, wherever they stand, never change the verdict. */
  lemma ValidateIgnoresNonDigit(before: string, c: char, after: string)
    requires !IsDigit(c)
    ensures ValidateCubanPhone(before + [c] + after) == ValidateCubanPhone(before + after)
  {
    KeepAppend(before + [c], after, Digits);
    KeepAppend(before, [c], Digits);
    KeepAppend(before, after, Digits);
    assert Keep([c], Digits) == [];
  }

  /** The phone handler stores the sanitised text; validating it gives the same verdict as validating the raw text. */
  lemma ValidateAfterSanitize(s: string)
    ensures ValidateCubanPhone(SanitizePhone(s)) == ValidateCubanPhone(s)
  {
    KeepNarrower(s, DigitsAndPlus, Digits);
  }

  /** A valid phone is never the empty string: it has at least eight characters. */
  lemma ValidPhoneIsLong(phone: string)
    requires ValidateCubanPhone(phone)
    ensures |phone| >= 8 && phone != ""
  {
    assert |DigitsOnly(phone)| >= 8;
  }

  /** Characters other than digits and `+`, wherever they stand, never reach the sanitised phone. */
  lemma SanitizeIgnoresOther(before: string, c: char, after: string)
    requires !IsPhoneChar(c)
    ensures SanitizePhone(before + [c] + after) == SanitizePhone(before + after)
  {
    KeepAppend(before + [c], after, DigitsAndPlus);
    KeepAppend(before, [c], DigitsAndPlus);
    KeepAppend(before, after, DigitsAndPlus);
    assert Keep([c], DigitsAndPlus) == [];
  }

  /** An eight-digit subscriber number is accepted. */
  lemma AcceptsSubscriberNumber(t: string)
    requires t == "51234567"
    ensures ValidateCubanPhone(t)
  {
    KeepFixpoint(t, Digits);
  }

  /** A subscriber number behind the country code 53 is accepted. */
  lemma AcceptsCountryCode(t: string)
    requires t == "5351234567"
    ensures ValidateCubanPhone(t)
  {
    KeepFixpoint(t, Digits);
    assert t[..2] == "53" && t[2..] == "51234567";
  }

  /** The same number written with a space after the country code is accepted. */
  lemma AcceptsSpacedNumber(t: string)
    requires t == "53 51234567"
    ensures ValidateCubanPhone(t)
  {
    ValidateIgnoresNonDigit(t[..2], t[2], t[3..]);
    assert t[..2] + [t[2]] + t[3..] == t;
    AcceptsCountryCode(t[..2] + t[3..]);
  }

  /** A subscriber number must start with 5. */
  lemma RejectsWrongLeadingDigit(t: string)
    requires t == "41234567"
    ensures !ValidateCubanPhone(t)
  {
    KeepFixpoint(t, Digits);
  }

  /** Seven digits are one too few. */
  lemma RejectsShortNumber(t: string)
    requires t == "5123456"
    ensures !ValidateCubanPhone(t)
  {
    KeepFixpoint(t, Digits);
  }

  /** After the country code 53 the subscriber number must start with 5. */
  lemma RejectsWrongDigitAfterCode(t: string)
    requires t == "5341234567"
    ensures !ValidateCubanPhone(t)
  {
    KeepFixpoint(t, Digits);
    assert t[2] == '4';
  }

  /** The sanitiser keeps a `+` in the middle as well as at the front. */
  lemma SanitizeKeepsInnerPlus(t: string)
    requires t == "53+5 123"
    ensures SanitizePhone(t) == "53+5123"
  {
    SanitizeIgnoresOther(t[..4], t[4], t[5..]);
    assert t[..4] + [t[4]] + t[5..] == t;
    var u := t[..4] + t[5..];
    assert u == "53+5123";
    KeepFixpoint(u, DigitsAndPlus);
  }

  /** The spaces of a phone typed in groups are dropped. */
  lemma SanitizeSpacedNumber(t: string)
    requires t == "53 5 1234567"
    ensures SanitizePhone(t) == "5351234567"
  {
    var u := t[..2] + t[3..];
    assert t[..2] + [t[2]] + t[3..] == t;
    SanitizeIgnoresOther(t[..2], t[2], t[3..]);
    var v := u[..3] + u[4..];
    assert u[..3] + [u[3]] + u[4..] == u;
    SanitizeIgnoresOther(u[..3], u[3], u[4..]);
    assert v == "5351234567";
    KeepFixpoint(v, DigitsAndPlus);
  }
}
