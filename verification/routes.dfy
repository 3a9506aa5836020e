/**
  The two order API routes: `POST /api/orders/from-cart`, and `GET`/`POST`
  on `/api/orders`. Request bodies are untyped JSON, so the checks are stated
  on a JSON value with JavaScript truthiness; the service call behind a body
  that passes every check is given as its outcome.
*/
module Routes {
  import opened Common
  import opened Ordering
  import opened Orders
  import opened OrderRepository

  /** A parsed JSON value. */
  datatype Json =
    | Null
    | Bool(b: bool)
    | Number(x: real)
    | Str(s: string)
    | Arr(elems: seq<Json>)
    | Obj(fields: map<string, Json>)

  /** A JavaScript value read out of a body: `None` is `undefined`. */
  type JsValue = Option<Json>

  /** JavaScript truthiness: undefined, null, false, 0 and "" are falsy. */
  predicate Truthy(v: JsValue) {
    match v
    case None => false
    case Some(Null) => false
    case Some(Bool(b)) => b
    case Some(Number(x)) => x != 0.0
    case Some(Str(s)) => s != ""
    case Some(_) => true
  }

  /** `v.key` on a value already known not to be null or undefined: only objects carry named members. */
  function Get(v: JsValue, key: string): (r: JsValue)
    ensures r.Some? <==> v.Some? && v.value.Obj? && key in v.value.fields
  {
    match v
    case Some(Obj(fields)) => if key in fields then Some(fields[key]) else None
    case _ => None
  }

  /** `v.length === 0` on a truthy value: an empty array, or an object whose `length` member is the number 0. */
  predicate LengthIsZero(v: JsValue) {
    match v
    case Some(Arr(elems)) => |elems| == 0
    case Some(Str(s)) => s == ""
    case Some(Obj(fields)) => "length" in fields && fields["length"] == Number(0.0)
    case _ => false
  }

  /** `typeof v === 'number'`. */
  predicate IsNumber(v: JsValue) {
    v.Some? && v.value.Number?
  }

  /** What a route answers. */
  datatype Body = Error(message: string) | Created(order: Order) | Listed(orders: seq<Order>)

  datatype Response = Response(status: int, body: Body)

  // ---------------------------------------------------------------- POST /api/orders/from-cart

  const MissingFields: string := "Missing required fields: cart, customerInfo, paymentInfo, pricing"
  const InvalidCart: string := "Cart is empty or invalid"
  const MissingCustomer: string := "Missing required customer information"
  const MissingPayment: string := "Missing payment method"
  const InvalidPricing: string := "Invalid pricing information"
  const FromCartFailed: string := "Failed to create order from cart"

  /** Stage 1: the four sections are present and truthy. */
  predicate HasSections(b: JsValue) {
    Truthy(Get(b, "cart")) && Truthy(Get(b, "customerInfo")) && Truthy(Get(b, "paymentInfo")) && Truthy(Get(b, "pricing"))
  }

  /** Stage 2: the cart names a restaurant and holds a non-empty item list. */
  predicate CartFilled(b: JsValue) {
    var cart := Get(b, "cart");
    Truthy(Get(cart, "restaurantId")) && Truthy(Get(cart, "items")) && !LengthIsZero(Get(cart, "items"))
  }

  /** Stage 3: name, email and address of the customer. */
  predicate CustomerFilled(b: JsValue) {
    var customer := Get(b, "customerInfo");
    Truthy(Get(customer, "customerName")) && Truthy(Get(customer, "customerEmail"))
    && Truthy(Get(customer, "deliveryAddress"))
  }

  /** Stage 4: a payment method. */
  predicate PaymentFilled(b: JsValue) {
    Truthy(Get(Get(b, "paymentInfo"), "paymentMethod"))
  }

  /** Stage 5: subtotal and total are numbers. */
  predicate PricingNumeric(b: JsValue) {
    IsNumber(Get(Get(b, "pricing"), "subtotal")) && IsNumber(Get(Get(b, "pricing"), "total"))
  }

  /** The five checks in their order; the message of the first that fails, or `None` when all pass. */
  function FromCartCheck(body: Json): (r: Option<string>)
    ensures var b := Some(body); !HasSections(b) ==> r == Some(MissingFields)
    ensures var b := Some(body); HasSections(b) && !CartFilled(b) ==> r == Some(InvalidCart)
    ensures var b := Some(body); HasSections(b) && CartFilled(b) && !CustomerFilled(b) ==> r == Some(MissingCustomer)
    ensures var b := Some(body); HasSections(b) && CartFilled(b) && CustomerFilled(b) && !PaymentFilled(b) ==>
      r == Some(MissingPayment)
    ensures var b := Some(body);
      HasSections(b) && CartFilled(b) && CustomerFilled(b) && PaymentFilled(b) && !PricingNumeric(b) ==>
      r == Some(InvalidPricing)
    ensures r == None <==>
      var b := Some(body);
      var cart := Get(b, "cart");
      var customer := Get(b, "customerInfo");
      && Truthy(cart) && Truthy(customer) && Truthy(Get(b, "paymentInfo")) && Truthy(Get(b, "pricing"))
      && Truthy(Get(cart, "restaurantId")) && Truthy(Get(cart, "items")) && !LengthIsZero(Get(cart, "items"))
      && Truthy(Get(customer, "customerName")) && Truthy(Get(customer, "customerEmail"))
      && Truthy(Get(customer, "deliveryAddress"))
      && Truthy(Get(Get(b, "paymentInfo"), "paymentMethod"))
      && IsNumber(Get(Get(b, "pricing"), "subtotal")) && IsNumber(Get(Get(b, "pricing"), "total"))
    ensures r.Some? ==> r.value in {MissingFields, InvalidCart, MissingCustomer, MissingPayment, InvalidPricing}
  {
    var b := Some(body);
    var cart := Get(b, "cart");
    var customer := Get(b, "customerInfo");
    var payment := Get(b, "paymentInfo");
    var pricing := Get(b, "pricing");
    if !Truthy(cart) || !Truthy(customer) || !Truthy(payment) || !Truthy(pricing) then Some(MissingFields)
    else if !Truthy(Get(cart, "restaurantId")) || !Truthy(Get(cart, "items")) || LengthIsZero(Get(cart, "items")) then
      Some(InvalidCart)
    else if !Truthy(Get(customer, "customerName")) || !Truthy(Get(customer, "customerEmail"))
         || !Truthy(Get(customer, "deliveryAddress")) then
      Some(MissingCustomer)
    else if !Truthy(Get(payment, "paymentMethod")) then Some(MissingPayment)
    else if !IsNumber(Get(pricing, "subtotal")) || !IsNumber(Get(pricing, "total")) then Some(InvalidPricing)
    else None
  }

  /** A thrown error whose message mentions an empty cart is the caller's fault; anything else is the server's. */
  function FromCartFailure(message: string): (r: Response)
    ensures r.status == 400 <==> Contains(message, "Cart is empty")
    ensures r.status == 400 ==> r.body == Error(message)
    ensures r.status != 400 ==> r == Response(500, Error(FromCartFailed))
  {
    if Contains(message, "Cart is empty") then Response(400, Error(message)) else Response(500, Error(FromCartFailed))
  }

  /**
    The from-cart handler. `body` is `None` when the request body is not JSON
    (or is `null`, whose destructuring throws); `created` is what
    `createOrderFromCart` returns or throws for a body that passes every check.
  */
  function FromCartPost(body: Option<Json>, created: Result<Order>): (r: Response)
    ensures body.None? || body.value.Null? ==> r == Response(500, Error(FromCartFailed))
    ensures body.Some? && !body.value.Null? && FromCartCheck(body.value).Some? ==>
      r == Response(400, Error(FromCartCheck(body.value).value))
    ensures r.status == 201 <==> body.Some? && !body.value.Null? && FromCartCheck(body.value).None? && created.Ok?
    ensures r.status == 201 ==> r.body == Created(created.value)
  {
    if body.None? || body.value.Null? then Response(500, Error(FromCartFailed))
    else match FromCartCheck(body.value)
      case Some(message) => Response(400, Error(message))
      case None =>
        match created
        case Ok(order) => Response(201, Created(order))
        case Err(message) => FromCartFailure(message)
  }

  /** A body that fails a check is answered before the service runs: the outcome plays no part. */
  lemma FromCartFailsBeforeService(body: Json, c1: Result<Order>, c2: Result<Order>)
    requires !body.Null? && FromCartCheck(body).Some?
    ensures FromCartPost(Some(body), c1) == FromCartPost(Some(body), c2)
    ensures FromCartPost(Some(body), c1).status == 400
  {
  }

  /**
    The service's own empty-cart error reaches the client as a 400 with its message;
    any error not mentioning an empty cart, such as a repository's duplicate-key
    error, becomes the fixed 500.
  */
  lemma FromCartServiceErrors(body: Json)
    requires !body.Null? && FromCartCheck(body).None?
    ensures FromCartPost(Some(body), Err(InvalidCart)) == Response(400, Error(InvalidCart))
    ensures forall m :: !Contains(m, "Cart is empty") ==> FromCartPost(Some(body), Err(m)) == Response(500, Error(FromCartFailed))
  {
    assert StartsWith(InvalidCart, "Cart is empty");
  }

  /** A phone number, tax and delivery fee are not required: a minimal body with none of them passes. */
  lemma FromCartMinimalBody()
    ensures var body := Obj(map[
      "cart" := Obj(map["restaurantId" := Str("1"), "items" := Arr([Null])]),
      "customerInfo" := Obj(map["customerName" := Str("A"), "customerEmail" := Str("a@b"), "deliveryAddress" := Str("X")]),
      "paymentInfo" := Obj(map["paymentMethod" := Str("card")]),
      "pricing" := Obj(map["subtotal" := Number(0.0), "total" := Number(0.0)])]);
      FromCartCheck(body).None?
  {
    var cart := Obj(map["restaurantId" := Str("1"), "items" := Arr([Null])]);
    var customer := Obj(map["customerName" := Str("A"), "customerEmail" := Str("a@b"), "deliveryAddress" := Str("X")]);
    var payment := Obj(map["paymentMethod" := Str("card")]);
    var pricing := Obj(map["subtotal" := Number(0.0), "total" := Number(0.0)]);
    var body := Obj(map["cart" := cart, "customerInfo" := customer, "paymentInfo" := payment, "pricing" := pricing]);
    assert Get(Some(body), "cart") == Some(cart);
    assert Get(Some(body), "customerInfo") == Some(customer);
    assert Get(Some(body), "paymentInfo") == Some(payment);
    assert Get(Some(body), "pricing") == Some(pricing);
    assert Truthy(Get(Some(cart), "restaurantId"));
    assert Truthy(Get(Some(cart), "items")) && !LengthIsZero(Get(Some(cart), "items"));
    assert Truthy(Get(Some(customer), "customerName"));
    assert Truthy(Get(Some(customer), "customerEmail"));
    assert Truthy(Get(Some(customer), "deliveryAddress"));
    assert Truthy(Get(Some(payment), "paymentMethod"));
    assert IsNumber(Get(Some(pricing), "subtotal")) && IsNumber(Get(Some(pricing), "total"));
  }

  // ---------------------------------------------------------------- GET /api/orders

  /** `searchParams.get(name)` is truthy: present and not empty. */
  predicate Given(param: Option<string>) {
    param.Some? && param.value != ""
  }

  /**
    `GET /api/orders`: the first given parameter among customer email, restaurant
    id and status selects the finder; the status text is passed on unchecked.
  */
  function OrdersGet(orders: seq<Order>, customerEmail: Option<string>, restaurantId: Option<string>, status: Option<string>)
    : (r: Response)
    ensures r.status == 200 && r.body.Listed?
    ensures forall i :: 0 <= i < |r.body.orders| ==> r.body.orders[i] in orders
    ensures Given(customerEmail) ==>
      && (forall i :: 0 <= i < |r.body.orders| ==> r.body.orders[i].customerEmail == customerEmail.value)
      && (forall i :: 0 <= i < |orders| && orders[i].customerEmail == customerEmail.value ==> orders[i] in r.body.orders)
      && multiset(r.body.orders) == multiset(Filter(orders, (o: Order) => o.customerEmail == customerEmail.value))
    ensures !Given(customerEmail) && Given(restaurantId) ==>
      && (forall i :: 0 <= i < |r.body.orders| ==> r.body.orders[i].restaurantId == restaurantId.value)
      && (forall i :: 0 <= i < |orders| && orders[i].restaurantId == restaurantId.value ==> orders[i] in r.body.orders)
      && multiset(r.body.orders) == multiset(Filter(orders, (o: Order) => o.restaurantId == restaurantId.value))
    ensures !Given(customerEmail) && !Given(restaurantId) && Given(status) ==>
      && (forall i :: 0 <= i < |r.body.orders| ==> r.body.orders[i].status.Name() == status.value)
      && (forall i :: 0 <= i < |orders| && orders[i].status.Name() == status.value ==> orders[i] in r.body.orders)
      && multiset(r.body.orders) == multiset(Filter(orders, (o: Order) => o.status.Name() == status.value))
      && (ParseStatus(status.value).None? ==> r.body.orders == [])
    ensures !Given(customerEmail) && !Given(restaurantId) && !Given(status) ==>
      multiset(r.body.orders) == multiset(orders)
    ensures SortedBy(r.body.orders, NewestFirst)
  {
    if Given(customerEmail) then Response(200, Listed(FindByCustomerEmail(orders, customerEmail.value)))
    else if Given(restaurantId) then Response(200, Listed(FindByRestaurantId(orders, restaurantId.value)))
    else if Given(status) then Response(200, Listed(FindByStatus(orders, status.value)))
    else Response(200, Listed(FindAll(orders)))
  }

  /** Only the first given parameter counts: the later ones are ignored entirely. */
  lemma OrdersGetPrecedence(orders: seq<Order>, email: string, rid: string,
                            r1: Option<string>, s1: Option<string>, r2: Option<string>, s2: Option<string>)
    requires email != "" && rid != ""
    ensures OrdersGet(orders, Some(email), r1, s1) == OrdersGet(orders, Some(email), r2, s2)
    ensures OrdersGet(orders, None, Some(rid), s1) == OrdersGet(orders, Some(""), Some(rid), s2)
  {
  }

  // ---------------------------------------------------------------- POST /api/orders

  const MissingOrderFields: string := "Missing required order fields"
  const CreateFailed: string := "Failed to create order"

  /** The required fields of `POST /api/orders`: four truthy strings and a non-empty item list. */
  predicate OrderFieldsPresent(body: Json) {
    var b := Some(body);
    && Truthy(Get(b, "restaurantId")) && Truthy(Get(b, "customerName")) && Truthy(Get(b, "customerEmail"))
    && Truthy(Get(b, "deliveryAddress")) && Truthy(Get(b, "items")) && !LengthIsZero(Get(b, "items"))
  }

  /**
    `POST /api/orders`: `None` is a body that is not JSON, and a `null` body throws
    on its first member access; `created` is what `createOrder` returns or throws.
  */
  function OrdersPost(body: Option<Json>, created: Result<Order>): (r: Response)
    ensures body.None? || body.value.Null? ==> r == Response(500, Error(CreateFailed))
    ensures body.Some? && !body.value.Null? && !OrderFieldsPresent(body.value) ==>
      r == Response(400, Error(MissingOrderFields))
    ensures r.status == 201 <==> body.Some? && !body.value.Null? && OrderFieldsPresent(body.value) && created.Ok?
    ensures r.status == 201 ==> r.body == Created(created.value)
    ensures r.status in {201, 400, 500}
  {
    if body.None? || body.value.Null? then Response(500, Error(CreateFailed))
    else if !OrderFieldsPresent(body.value) then Response(400, Error(MissingOrderFields))
    else match created
      case Ok(order) => Response(201, Created(order))
      case Err(_) => Response(500, Error(CreateFailed))
  }

  /** Unlike the from-cart route, every service error here is a 500 with one fixed message. */
  lemma OrdersPostHidesErrors(body: Json, message: string)
    requires !body.Null? && OrderFieldsPresent(body)
    ensures OrdersPost(Some(body), Err(message)) == Response(500, Error(CreateFailed))
  {
  }
}
