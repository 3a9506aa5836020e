/**
  The three simulated payment processors. Each first runs the shared card
  validation; Stripe then decides on the last four digits of the cleaned card
  number, PayPal on the exact CVV, and the mock processor always succeeds.
  The transaction id, which the source draws from the clock and `Math.random`,
  is a parameter.
*/
module Processors {
  import opened Common
  import opened CardValidation
  import opened JsString

  /** The `errorCode` values a processor or the payment service can report. */
  datatype ErrorCode =
    | InvalidCard
    | CardDeclined
    | InsufficientFunds
    | NetworkError
    | CardExpired
    | ServiceUnavailable
    | AuthFailed
    | UnsupportedProvider
    | ProcessingError
  {
    function Name(): string {
      match this
      case InvalidCard => "INVALID_CARD"
      case CardDeclined => "CARD_DECLINED"
      case InsufficientFunds => "INSUFFICIENT_FUNDS"
      case NetworkError => "NETWORK_ERROR"
      case CardExpired => "CARD_EXPIRED"
      case ServiceUnavailable => "SERVICE_UNAVAILABLE"
      case AuthFailed => "AUTH_FAILED"
      case UnsupportedProvider => "UNSUPPORTED_PROVIDER"
      case ProcessingError => "PROCESSING_ERROR"
    }
  }

  /** A payment response: a success carries a transaction id, a failure an error code and message. */
  datatype Response = Success(transactionId: string) | Failure(code: ErrorCode, message: string)

  const InvalidCardFailure: Response := Failure(InvalidCard, "Invalid card details")

  /** The processor variants, one per provider. */
  datatype Provider = Stripe | PayPal | Mock {
    /** `getProviderName`: the provider's registry key. */
    function Id(): string {
      match this
      case Stripe => "stripe"
      case PayPal => "paypal"
      case Mock => "mock"
    }
  }

  /** `StripeProcessor.processPayment`: validation first, then the test-card suffixes 0002, 0003 and 0004. */
  function StripePay(d: CardDetails, currentYear: int, txId: string): (r: Response)
    ensures !Validate(d, currentYear) ==> r == InvalidCardFailure
    ensures r.Success? ==> r.transactionId == txId
  {
    if !Validate(d, currentYear) then InvalidCardFailure else StripeCharge(CleanNumber(d), txId)
  }

  /** Stripe's decision for a validated card: the test-card suffixes of the cleaned number. */
  function StripeCharge(n: string, txId: string): Response {
    if EndsWith(n, "0002") then Failure(CardDeclined, "Your card was declined")
    else if EndsWith(n, "0003") then Failure(InsufficientFunds, "Insufficient funds")
    else if EndsWith(n, "0004") then Failure(NetworkError, "Network error occurred. Please try again.")
    else Success(txId)
  }

  /** `PayPalProcessor.processPayment`: validation first, then the test CVVs 001, 002 and 003. */
  function PayPalPay(d: CardDetails, currentYear: int, txId: string): (r: Response)
    ensures !Validate(d, currentYear) ==> r == InvalidCardFailure
    ensures r.Success? ==> r.transactionId == txId
  {
    if !Validate(d, currentYear) then InvalidCardFailure else PayPalCharge(d.cvv, txId)
  }

  /** PayPal's decision for a validated card: the test CVVs. */
  function PayPalCharge(cvv: string, txId: string): Response {
    if cvv == "001" then Failure(CardExpired, "Your card has expired")
    else if cvv == "002" then Failure(ServiceUnavailable, "PayPal service is currently unavailable")
    else if cvv == "003" then Failure(AuthFailed, "Card authentication failed")
    else Success(txId)
  }

  /** `MockProcessor.processPayment`: succeeds exactly on valid cards. */
  function MockPay(d: CardDetails, currentYear: int, txId: string): (r: Response)
    ensures r.Success? <==> Validate(d, currentYear)
    ensures r.Success? ==> r.transactionId == txId
    ensures r.Failure? ==> r == InvalidCardFailure
  {
    if !Validate(d, currentYear) then InvalidCardFailure else Success(txId)
  }

  /** Dispatches to the variant's own `processPayment`. */
  function Pay(p: Provider, d: CardDetails, currentYear: int, txId: string): (r: Response)
    ensures !Validate(d, currentYear) ==> r == InvalidCardFailure
  {
    match p
    case Stripe => StripePay(d, currentYear, txId)
    case PayPal => PayPalPay(d, currentYear, txId)
    case Mock => MockPay(d, currentYear, txId)
  }

  // ---------------------------------------------------------------- Stripe

  /** The last four characters of the cleaned number, or all of it when shorter. */
  function LastFour(d: CardDetails): string {
    var n := CleanNumber(d);
    if |n| >= 4 then n[|n| - 4..] else n
  }

  /** Stripe's outcome for a valid card, as a table over the last four digits. */
  function StripeTable(lastFour: string, txId: string): Response {
    if lastFour == "0002" then Failure(CardDeclined, "Your card was declined")
    else if lastFour == "0003" then Failure(InsufficientFunds, "Insufficient funds")
    else if lastFour == "0004" then Failure(NetworkError, "Network error occurred. Please try again.")
    else Success(txId)
  }

  /** Stripe's outcome is decided by validity and the last four digits alone: the CVV, name and expiry play no further part. */
  lemma StripeDependsOnLastFour(d: CardDetails, currentYear: int, txId: string)
    ensures StripePay(d, currentYear, txId) ==
      if Validate(d, currentYear) then StripeTable(LastFour(d), txId) else InvalidCardFailure
  {
    var ok := Validate(d, currentYear);
    if ok {
      var n := CleanNumber(d);
      assert DigitRun(n, 13, 19);
      StripeChargeBySuffix(n, txId);
      assert StripePay(d, currentYear, txId) == StripeCharge(n, txId);
      assert LastFour(d) == n[|n| - 4..];
    }
  }

  lemma StripeChargeBySuffix(n: string, txId: string)
    requires |n| >= 4
    ensures StripeCharge(n, txId) == StripeTable(n[|n| - 4..], txId)
  {
  }

  /** Two valid cards whose cleaned numbers end alike get the same Stripe outcome. */
  lemma StripeSameSuffixSameOutcome(d1: CardDetails, d2: CardDetails, currentYear: int, txId: string)
    requires Validate(d1, currentYear) && Validate(d2, currentYear)
    requires LastFour(d1) == LastFour(d2)
    ensures StripePay(d1, currentYear, txId) == StripePay(d2, currentYear, txId)
  {
    StripeDependsOnLastFour(d1, currentYear, txId);
    StripeDependsOnLastFour(d2, currentYear, txId);
  }

  /** Stripe fails on a valid card exactly when the cleaned number ends in 0002, 0003 or 0004, with the matching code. */
  lemma StripeFailureCodes(d: CardDetails, currentYear: int, txId: string)
    requires Validate(d, currentYear)
    ensures var r := StripePay(d, currentYear, txId);
      && (r == Failure(CardDeclined, "Your card was declined") <==> LastFour(d) == "0002")
      && (r.Failure? && r.code == InsufficientFunds <==> LastFour(d) == "0003")
      && (r.Failure? && r.code == NetworkError <==> LastFour(d) == "0004")
      && (r.Success? <==> LastFour(d) !in {"0002", "0003", "0004"})
  {
    StripeDependsOnLastFour(d, currentYear, txId);
  }

  // ---------------------------------------------------------------- PayPal

  /** PayPal ignores the card number beyond validation: swapping in any other valid number keeps the outcome. */
  lemma PayPalIgnoresNumber(d: CardDetails, number: string, currentYear: int, txId: string)
    requires number != [] && DigitRun(RemoveSpaces(number), 13, 19)
    ensures Validate(d, currentYear) ==>
      PayPalPay(d.(cardNumber := number), currentYear, txId) == PayPalPay(d, currentYear, txId)
  {
    if Validate(d, currentYear) {
      ValidateIgnoresNumberDigits(d, number, currentYear);
    }
  }

  /** PayPal fails on a valid card exactly when the CVV is one of the three test values. */
  lemma PayPalFailureCodes(d: CardDetails, currentYear: int, txId: string)
    requires Validate(d, currentYear)
    ensures var r := PayPalPay(d, currentYear, txId);
      && (r.Failure? && r.code == CardExpired <==> d.cvv == "001")
      && (r.Failure? && r.code == ServiceUnavailable <==> d.cvv == "002")
      && (r.Failure? && r.code == AuthFailed <==> d.cvv == "003")
      && (r.Success? <==> d.cvv !in {"001", "002", "003"})
  {
  }

  /** A valid card that Stripe declines for its 0002 suffix is accepted by PayPal when its CVV is not a test value. */
  lemma DeclinedByStripeAcceptedByPayPal(d: CardDetails, currentYear: int, txId: string)
    requires Validate(d, currentYear) && LastFour(d) == "0002"
    requires d.cvv !in {"001", "002", "003"}
    ensures StripePay(d, currentYear, txId).Failure?
    ensures PayPalPay(d, currentYear, txId) == Success(txId)
  {
    StripeFailureCodes(d, currentYear, txId);
  }

  // ---------------------------------------------------------------- every processor

  /** Once a card is valid, each processor reports its own decision. */
  lemma ValidCardCharge(p: Provider, d: CardDetails, currentYear: int, txId: string)
    requires Validate(d, currentYear)
    ensures Pay(p, d, currentYear, txId) == match p
      case Stripe => StripeCharge(CleanNumber(d), txId)
      case PayPal => PayPalCharge(d.cvv, txId)
      case Mock => Success(txId)
  {
  }

  /** Stripe's decision only declines, reports insufficient funds, or a network error. */
  lemma StripeChargeCodes(n: string, txId: string)
    ensures var r := StripeCharge(n, txId); r.Failure? ==> r.code in {CardDeclined, InsufficientFunds, NetworkError}
  {
  }

  /** PayPal's decision only reports an expired card, an outage, or failed authentication. */
  lemma PayPalChargeCodes(cvv: string, txId: string)
    ensures var r := PayPalCharge(cvv, txId); r.Failure? ==> r.code in {CardExpired, ServiceUnavailable, AuthFailed}
  {
  }

  /** INVALID_CARD is the mock processor's only error; every processor reports INVALID_CARD exactly on invalid cards. */
  lemma InvalidCardExactlyOnInvalid(p: Provider, d: CardDetails, currentYear: int, txId: string)
    ensures var r := Pay(p, d, currentYear, txId);
      (r.Failure? && r.code == InvalidCard) <==> !Validate(d, currentYear)
  {
    var ok := Validate(d, currentYear);
    if ok {
      ValidCardCharge(p, d, currentYear, txId);
      StripeChargeCodes(CleanNumber(d), txId);
      PayPalChargeCodes(d.cvv, txId);
    }
  }

  /** No processor invents an error code outside its own variant's set. */
  lemma ProcessorCodes(p: Provider, d: CardDetails, currentYear: int, txId: string)
    ensures var r := Pay(p, d, currentYear, txId);
      r.Failure? ==> match p
        case Stripe => r.code in {InvalidCard, CardDeclined, InsufficientFunds, NetworkError}
        case PayPal => r.code in {InvalidCard, CardExpired, ServiceUnavailable, AuthFailed}
        case Mock => r.code == InvalidCard
  {
    var ok := Validate(d, currentYear);
    if ok {
      ValidCardCharge(p, d, currentYear, txId);
      StripeChargeCodes(CleanNumber(d), txId);
      PayPalChargeCodes(d.cvv, txId);
    }
  }
}
