/**
  The card validation every payment processor inherits: a cascade of string checks
  written with JavaScript's `parseInt`, `\s`, `\d` and `trim` semantics. The current
  year, which the source reads from the clock, is a parameter.
*/
module CardValidation {
  import opened Common
  import opened JsString

  /** The card fields of a payment request, as the client typed them. */
  datatype CardDetails = CardDetails(
    cardNumber: string,
    expiryMonth: string,
    expiryYear: string,
    cvv: string,
    cardholderName: string)

  /** The card number with every whitespace character removed. */
  function CleanNumber(d: CardDetails): string {
    RemoveSpaces(d.cardNumber)
  }

  /** The full-match test `^\d{lo,hi}$`. */
  predicate DigitRun(s: string, lo: nat, hi: nat) {
    lo <= |s| <= hi && AllDigits(s)
  }

  /** The expiry year as the source reads it: the two typed characters after a literal "20". */
  function ExpiryYear(d: CardDetails): JsInt {
    ParseInt("20" + d.expiryYear)
  }

  /** `validateCardDetails`: the checks in source order; the first failing one decides. */
  function Validate(d: CardDetails, currentYear: int): (ok: bool)
    ensures ok ==> DigitRun(CleanNumber(d), 13, 19) && DigitRun(d.cvv, 3, 4)
    ensures ok ==> |Trim(d.cardholderName)| >= 1
  {
    if d.cardNumber == [] || d.expiryMonth == [] || d.expiryYear == [] || d.cvv == [] || d.cardholderName == [] then
      false
    else if !DigitRun(CleanNumber(d), 13, 19) then
      false
    else if ParseInt(d.expiryMonth).Less(1) || ParseInt(d.expiryMonth).Greater(12) then
      false
    else if ExpiryYear(d).Less(currentYear) then
      false
    else if !DigitRun(d.cvv, 3, 4) then
      false
    else
      Utf16Length(Trim(d.cardholderName)) >= 2
  }

  // ---------------------------------------------------------------- the accepted set, stated field by field

  /** The month is acceptable unless it parses to a number outside 1..12; NaN is acceptable. */
  predicate MonthAcceptable(month: string) {
    match ParseInt(month)
    case NaN => true
    case Int(m) => 1 <= m <= 12
  }

  /** The year is acceptable unless it parses to a number below the current year. */
  predicate YearAcceptable(d: CardDetails, currentYear: int) {
    match ExpiryYear(d)
    case NaN => true
    case Int(y) => y >= currentYear
  }

  /** The cardholder name has at least two UTF-16 code units once trimmed. */
  predicate NameAcceptable(name: string) {
    Utf16Length(Trim(name)) >= 2
  }

  /** A card is accepted exactly when every field is filled in and each field passes its own check. */
  lemma ValidateIffEveryCheck(d: CardDetails, currentYear: int)
    ensures Validate(d, currentYear) <==>
      && d.cardNumber != [] && d.expiryMonth != [] && d.expiryYear != [] && d.cvv != [] && d.cardholderName != []
      && DigitRun(CleanNumber(d), 13, 19)
      && MonthAcceptable(d.expiryMonth)
      && YearAcceptable(d, currentYear)
      && DigitRun(d.cvv, 3, 4)
      && NameAcceptable(d.cardholderName)
  {
  }

  /** Changing the card number never matters as long as the cleaned number is still 13 to 19 digits. */
  lemma ValidateIgnoresNumberDigits(d: CardDetails, number: string, currentYear: int)
    requires number != [] && d.cardNumber != []
    requires DigitRun(RemoveSpaces(number), 13, 19) && DigitRun(CleanNumber(d), 13, 19)
    ensures Validate(d.(cardNumber := number), currentYear) == Validate(d, currentYear)
  {
  }

  // ---------------------------------------------------------------- the expiry year

  lemma {:induction false} DigitsValueAppend(a: string, b: string)
    requires AllDigits(a) && AllDigits(b)
    ensures AllDigits(a + b)
    ensures DigitsValue(a + b) == DigitsValue(a) * Pow10(|b|) + DigitsValue(b)
    decreases |b|
  {
    if |b| > 0 {
      var ab := a + b;
      var b' := b[..|b| - 1];
      var last := DigitValue(b[|b| - 1]);
      assert ab[..|ab| - 1] == a + b';
      assert ab[|ab| - 1] == b[|b| - 1];
      DigitsValueAppend(a, b');
      var v := DigitsValue(a + b');
      assert DigitsValue(ab) == v * 10 + last;
      assert DigitsValue(b) == DigitsValue(b') * 10 + last;
      assert Pow10(|b|) == 10 * Pow10(|b'|);
      ShiftDigit(v, DigitsValue(a), Pow10(|b'|), DigitsValue(b'), last);
    } else {
      assert a + b == a;
    }
  }

  /** Appending one digit multiplies the value so far by ten: the arithmetic step of `DigitsValueAppend`. */
  lemma ShiftDigit(v: int, x: int, p: int, y: int, last: int)
    requires v == x * p + y
    ensures v * 10 + last == x * (10 * p) + (y * 10 + last)
  {
  }

  function Pow10(n: nat): (p: nat)
    ensures p >= 1
  {
    if n == 0 then 1 else 10 * Pow10(n - 1)
  }

  /** Because of the "20" prefix the year always parses to a number: 20 followed by the typed leading digits. */
  lemma ExpiryYearIsNumber(d: CardDetails)
    ensures ExpiryYear(d).Int?
    ensures ExpiryYear(d).v == 20 * Pow10(|LeadingDigits(d.expiryYear)|) + DigitsValue(LeadingDigits(d.expiryYear))
  {
    var y := LeadingDigits(d.expiryYear);
    var tail := d.expiryYear[|y|..];
    assert d.expiryYear == y + tail;
    assert "20" + d.expiryYear == ("20" + y) + tail;
    DigitsValueAppend("20", y);
    DecimalTwoDigits("20", 20);
    ParseIntIgnoresTail("20" + y, tail);
  }

  /** Two typed digits `yy` mean the year 2000 + yy. */
  lemma TwoDigitYear(d: CardDetails)
    requires |d.expiryYear| == 2 && AllDigits(d.expiryYear)
    ensures ExpiryYear(d) == Int(2000 + DigitsValue(d.expiryYear))
  {
    ExpiryYearIsNumber(d);
    LeadingDigitsOfDigits(d.expiryYear, []);
    assert d.expiryYear + [] == d.expiryYear;
  }

  lemma DecimalTwoDigits(s: string, n: nat)
    requires |s| == 2 && AllDigits(s)
    requires n == DigitValue(s[0]) * 10 + DigitValue(s[1])
    ensures DigitsValue(s) == n
  {
    assert s[..1][..0] == [];
    assert DigitsValue(s[..1]) == DigitValue(s[0]);
  }

  lemma MonthJanuaryAcceptable()
    ensures MonthAcceptable("01")
  {
    ParseIntIgnoresTail("01", []);
    assert "01" + [] == "01";
    DecimalTwoDigits("01", 1);
  }

  /**
    The expiry month is never compared with the current month: when the typed two-digit
    year is this year, a card with every other field valid passes for any acceptable month.
  */
  lemma ThisYearAnyMonthAccepted(d: CardDetails, currentYear: int)
    requires d.cardNumber != [] && DigitRun(CleanNumber(d), 13, 19)
    requires |d.expiryYear| == 2 && AllDigits(d.expiryYear) && currentYear == 2000 + DigitsValue(d.expiryYear)
    requires d.cvv != [] && DigitRun(d.cvv, 3, 4)
    requires d.cardholderName != [] && NameAcceptable(d.cardholderName)
    ensures forall m :: m != [] && MonthAcceptable(m) ==> Validate(d.(expiryMonth := m), currentYear)
  {
    TwoDigitYear(d);
    forall m | m != [] && MonthAcceptable(m)
      ensures Validate(d.(expiryMonth := m), currentYear)
    {
      var e := d.(expiryMonth := m);
      assert ExpiryYear(e) == ExpiryYear(d);
      ValidateIffEveryCheck(e, currentYear);
    }
  }

  // ---------------------------------------------------------------- concrete cards

  /**
    A month that parses to NaN passes both range comparisons, so it is as good as a
    valid month: the card is judged exactly as if January had been typed.
  */
  lemma NonNumericMonthAccepted(d: CardDetails, currentYear: int)
    requires d.expiryMonth != [] && ParseInt(d.expiryMonth) == NaN
    ensures MonthAcceptable(d.expiryMonth)
    ensures Validate(d, currentYear) == Validate(d.(expiryMonth := "01"), currentYear)
  {
    MonthJanuaryAcceptable();
    ValidateIffEveryCheck(d, currentYear);
    ValidateIffEveryCheck(d.(expiryMonth := "01"), currentYear);
    assert ExpiryYear(d.(expiryMonth := "01")) == ExpiryYear(d);
  }

  /** A month of "13" is rejected, whatever the other fields hold. */
  lemma MonthThirteenRejected(d: CardDetails, currentYear: int)
    requires d.expiryMonth == "13"
    ensures !Validate(d, currentYear)
  {
    ParseIntIgnoresTail("13", []);
    assert "13" + [] == "13";
    DecimalTwoDigits("13", 13);
  }

  /** The CVV is not stripped: whitespace at either end rejects the card, whatever the other fields hold. */
  lemma PaddedCvvRejected(d: CardDetails, currentYear: int)
    requires |d.cvv| > 0 && (IsSpace(d.cvv[0]) || IsSpace(d.cvv[|d.cvv| - 1]))
    ensures !Validate(d, currentYear)
  {
    assert !AllDigits(d.cvv) by {
      if IsSpace(d.cvv[0]) {
        assert !IsDigit(d.cvv[0]);
      } else {
        assert !IsDigit(d.cvv[|d.cvv| - 1]);
      }
    }
  }

  /** A two-digit CVV is rejected. */
  lemma ShortCvvRejected(d: CardDetails, currentYear: int)
    requires |d.cvv| == 2
    ensures !Validate(d, currentYear)
  {
  }

  /** A one-letter name is rejected even when padded with whitespace on either side. */
  lemma PaddedOneLetterNameRejected(d: CardDetails, currentYear: int, pre: string, c: char, post: string)
    requires forall i :: 0 <= i < |pre| ==> IsSpace(pre[i])
    requires forall i :: 0 <= i < |post| ==> IsSpace(post[i])
    requires !IsSpace(c) && !IsAstral(c)
    requires d.cardholderName == pre + [c] + post
    ensures !Validate(d, currentYear)
  {
    TrimAroundOne(pre, c, post);
    Utf16LengthAppend([c], []);
    ValidateIffEveryCheck(d, currentYear);
  }

  /**
    Length counts UTF-16 code units, so a single character outside the Basic Multilingual
    Plane, with any whitespace around it, already passes the name check.
  */
  lemma AstralNameAccepted(pre: string, c: char, post: string)
    requires forall i :: 0 <= i < |pre| ==> IsSpace(pre[i])
    requires forall i :: 0 <= i < |post| ==> IsSpace(post[i])
    requires IsAstral(c)
    ensures NameAcceptable(pre + [c] + post)
  {
    assert !IsSpace(c);
    TrimAroundOne(pre, c, post);
    Utf16LengthAppend([c], []);
  }
}
