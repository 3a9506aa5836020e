/**
  `PaymentService`: a registry of the three processors keyed by provider id, a
  default provider, dispatch with fallback to the default, and the wrapping of
  unknown providers and processor exceptions into failure responses. Whether the
  chosen processor throws is a parameter; the source has no other source of
  exceptions on this path.
*/
module PaymentService {
  import opened Common
  import opened CardValidation
  import opened Processors

  /** The registry in insertion order, and the default provider id. */
  datatype Service = Service(registry: seq<Provider>, defaultProvider: string)

  /** The constructor: registers stripe, paypal and mock; the default parameter applies only when the argument is absent. */
  function NewService(defaultProvider: Option<string>): (s: Service)
    ensures s.registry == [Stripe, PayPal, Mock]
    ensures defaultProvider.None? ==> s.defaultProvider == "stripe"
    ensures defaultProvider.Some? ==> s.defaultProvider == defaultProvider.value
  {
    Service([Stripe, PayPal, Mock], defaultProvider.GetOr("stripe"))
  }

  /** `processors.get(id)`: the registered processor with that key, if any. */
  function Lookup(registry: seq<Provider>, id: string): (r: Option<Provider>)
    ensures r.Some? ==> r.value in registry && r.value.Id() == id
    ensures r.None? ==> forall k :: 0 <= k < |registry| ==> registry[k].Id() != id
  {
    if |registry| == 0 then None
    else if registry[0].Id() == id then Some(registry[0])
    else Lookup(registry[1..], id)
  }

  /** `provider || this.defaultProvider`: an absent or empty provider argument falls back to the default. */
  function Selected(s: Service, provider: Option<string>): (id: string)
    ensures provider.Some? && provider.value != "" ==> id == provider.value
    ensures provider.None? || provider.value == "" ==> id == s.defaultProvider
  {
    if provider.None? || provider.value == "" then s.defaultProvider else provider.value
  }

  /** The message of the UNSUPPORTED_PROVIDER failure. */
  function UnsupportedMessage(id: string): string {
    "Payment provider " + id + " is not supported"
  }

  /** `processPayment`: look the selected provider up, run it, and turn an exception into PROCESSING_ERROR. */
  function ProcessPayment(s: Service, d: CardDetails, provider: Option<string>, currentYear: int,
                          txId: string, processorThrows: bool): (r: Response)
    ensures Lookup(s.registry, Selected(s, provider)).None? ==>
      r == Failure(UnsupportedProvider, UnsupportedMessage(Selected(s, provider)))
    ensures Lookup(s.registry, Selected(s, provider)).Some? && processorThrows ==>
      r == Failure(ProcessingError, "An unexpected error occurred while processing payment")
    ensures Lookup(s.registry, Selected(s, provider)).Some? && !processorThrows ==>
      r == Pay(Lookup(s.registry, Selected(s, provider)).value, d, currentYear, txId)
  {
    var id := Selected(s, provider);
    match Lookup(s.registry, id)
    case None => Failure(UnsupportedProvider, UnsupportedMessage(id))
    case Some(p) =>
      if processorThrows then Failure(ProcessingError, "An unexpected error occurred while processing payment")
      else Pay(p, d, currentYear, txId)
  }

  /** `getAvailableProviders`: the registry keys in insertion order. */
  function AvailableProviders(s: Service): (ids: seq<string>)
    ensures |ids| == |s.registry|
    ensures forall k :: 0 <= k < |ids| ==> Lookup(s.registry, ids[k]).Some?
  {
    seq(|s.registry|, k requires 0 <= k < |s.registry| => s.registry[k].Id())
  }

  /** `setDefaultProvider`: accepted exactly for a registered id; otherwise the error leaves the service unchanged. */
  function SetDefaultProvider(s: Service, id: string): (r: Result<Service>)
    ensures r.Ok? <==> Lookup(s.registry, id).Some?
    ensures r.Ok? ==> r.value == s.(defaultProvider := id)
    ensures r.Err? ==> r.message == "Provider " + id + " is not available"
  {
    if Lookup(s.registry, id).Some? then Ok(s.(defaultProvider := id))
    else Err("Provider " + id + " is not available")
  }

  /** `validateCardDetails`: the default processor's validator, or false when the default is not registered. */
  function ServiceValidate(s: Service, d: CardDetails, currentYear: int): (ok: bool)
    ensures ok <==> Lookup(s.registry, s.defaultProvider).Some? && Validate(d, currentYear)
  {
    match Lookup(s.registry, s.defaultProvider)
    case None => false
    case Some(_) => Validate(d, currentYear)
  }

  // ---------------------------------------------------------------- properties

  /** A fresh service offers exactly stripe, paypal and mock, in that order, and changing the default never changes that. */
  lemma RegistryIsFixed(defaultProvider: Option<string>, id: string)
    ensures AvailableProviders(NewService(defaultProvider)) == ["stripe", "paypal", "mock"]
    ensures var r := SetDefaultProvider(NewService(defaultProvider), id);
      r.Ok? ==> AvailableProviders(r.value) == ["stripe", "paypal", "mock"]
  {
  }

  /** The registered ids are exactly the three provider ids, and each maps to its own variant. */
  lemma LookupInFreshService(defaultProvider: Option<string>, id: string)
    ensures var r := Lookup(NewService(defaultProvider).registry, id);
      && (r.Some? <==> id in {"stripe", "paypal", "mock"})
      && (r.Some? ==> r.value.Id() == id)
  {
  }

  /** UNSUPPORTED_PROVIDER is reported exactly when the selected id is not registered: no processor reports it. */
  lemma UnsupportedExactlyWhenUnregistered(s: Service, d: CardDetails, provider: Option<string>, currentYear: int,
                                           txId: string, processorThrows: bool)
    ensures var r := ProcessPayment(s, d, provider, currentYear, txId, processorThrows);
      (r.Failure? && r.code == UnsupportedProvider) <==> Lookup(s.registry, Selected(s, provider)).None?
  {
    var id := Selected(s, provider);
    if Lookup(s.registry, id).Some? && !processorThrows {
      ProcessorCodes(Lookup(s.registry, id).value, d, currentYear, txId);
    }
  }

  /** With no provider argument, or an empty one, payment goes through the default provider. */
  lemma FallsBackToDefault(s: Service, d: CardDetails, currentYear: int, txId: string, processorThrows: bool)
    requires s.defaultProvider != ""
    ensures ProcessPayment(s, d, None, currentYear, txId, processorThrows)
         == ProcessPayment(s, d, Some(s.defaultProvider), currentYear, txId, processorThrows)
    ensures ProcessPayment(s, d, Some(""), currentYear, txId, processorThrows)
         == ProcessPayment(s, d, Some(s.defaultProvider), currentYear, txId, processorThrows)
  {
  }

  /** A service constructed with the empty string as default reports every defaulted payment as unsupported. */
  lemma EmptyDefaultIsUnsupported(d: CardDetails, currentYear: int, txId: string, processorThrows: bool)
    ensures ProcessPayment(NewService(Some("")), d, None, currentYear, txId, processorThrows)
         == Failure(UnsupportedProvider, UnsupportedMessage(""))
  {
    assert Selected(NewService(Some("")), None) == "";
    assert Lookup([Stripe, PayPal, Mock], "").None?;
  }

  /** After a successful `setDefaultProvider(id)`, a payment without a provider runs the processor registered as `id`. */
  lemma SetDefaultThenPay(s: Service, id: string, d: CardDetails, currentYear: int, txId: string)
    requires id != ""
    requires SetDefaultProvider(s, id).Ok?
    ensures ProcessPayment(SetDefaultProvider(s, id).value, d, None, currentYear, txId, false)
         == Pay(Lookup(s.registry, id).value, d, currentYear, txId)
  {
  }

  /** On a fresh service with a registered default, the service's validator is the shared card validator. */
  lemma ServiceValidateIsBaseValidator(defaultProvider: Option<string>, d: CardDetails, currentYear: int)
    requires defaultProvider.None? || defaultProvider.value in {"stripe", "paypal", "mock"}
    ensures ServiceValidate(NewService(defaultProvider), d, currentYear) == Validate(d, currentYear)
  {
    LookupInFreshService(defaultProvider, NewService(defaultProvider).defaultProvider);
  }
}
