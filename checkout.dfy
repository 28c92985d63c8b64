/** The checkout page's step machine: three steps (shipping, payment,
    review), the field-completeness gates that guard the first two, the
    progress percentage shown for the current step, the per-field change
    handlers, and the `OrderInput` the page sends to `createOrder`. */
module Checkout {
  import opened Common
  import opened Requests
  import CartStore
  import AuthStore
  import Resolvers

  /** A form's fields by name; the values are what the text inputs hold. */
  type Info = map<string, string>

  /** The step titles; the review step is the last. */
  const Steps: seq<string> := ["Shipping Information", "Payment Details", "Order Review"]

  /** The shipping fields that must be filled; `country` is not among them. */
  const ShippingFields: seq<string> := ["firstName", "lastName", "email", "phone", "address", "city", "state", "zipCode"]

  const PaymentFields: seq<string> := ["cardNumber", "cardHolder", "expiryDate", "cvv"]

  const InitialShipping: Info := map[
    "firstName" := "", "lastName" := "", "email" := "", "phone" := "", "address" := "",
    "city" := "", "state" := "", "zipCode" := "", "country" := "US"]

  const InitialPayment: Info := map["cardNumber" := "", "cardHolder" := "", "expiryDate" := "", "cvv" := ""]

  const ShippingAlert := "Please fill in all required shipping information before proceeding."
  const PaymentAlert := "Please fill in all required payment information before proceeding."

  datatype Severity = Info | Success | Error

  datatype Alert = Alert(message: string, severity: Severity)

  /** The keys the two forms are created with. */
  const ShippingKeys: set<string> :=
    {"firstName", "lastName", "email", "phone", "address", "city", "state", "zipCode", "country"}

  const PaymentKeys: set<string> := {"cardNumber", "cardHolder", "expiryDate", "cvv"}

  /** Every named field is present in the form. */
  predicate HasFields(info: Info, keys: set<string>) {
    keys <= info.Keys
  }

  // ---------------------------------------------------------------- completeness

  /** `info[field]?.trim()` is truthy: the field exists and is not blank. */
  predicate Filled(info: Info, field: string) {
    field in info && Trim(info[field]) != ""
  }

  function FilledIn(info: Info): string -> bool {
    (field: string) => Filled(info, field)
  }

  /** `fields.some(field => !info[field]?.trim())`. */
  function AnyBlank(info: Info, fields: seq<string>): (b: bool)
    ensures b <==> exists i :: 0 <= i < |fields| && !Filled(info, fields[i])
    decreases |fields|
  {
    if fields == [] then false
    else if !Filled(info, fields[0]) then true
    else
      var b := AnyBlank(info, fields[1..]);
      assert forall i :: 1 <= i < |fields| ==> fields[1..][i - 1] == fields[i];
      b
  }

  /** `fields.filter(field => info[field]?.trim())`. */
  function Completed(info: Info, fields: seq<string>): seq<string> {
    Filter(fields, FilledIn(info))
  }

  /** All fields are completed exactly when none is blank, and none is
      completed exactly when every one is blank. */
  lemma {:induction false} CompletedCount(info: Info, fields: seq<string>)
    ensures |Completed(info, fields)| <= |fields|
    ensures |Completed(info, fields)| == |fields| <==> !AnyBlank(info, fields)
    ensures |Completed(info, fields)| == 0 <==> forall i :: 0 <= i < |fields| ==> !Filled(info, fields[i])
    decreases |fields|
  {
    if fields != [] {
      CompletedCount(info, fields[1..]);
      assert forall i :: 1 <= i < |fields| ==> fields[1..][i - 1] == fields[i];
      assert Completed(info, fields) ==
        (if Filled(info, fields[0]) then [fields[0]] else []) + Completed(info, fields[1..]);
    }
  }

  /** `isCurrentStepValid()`: the gate of the current step. */
  function IsCurrentStepValid(step: int, shipping: Info, payment: Info): (valid: bool)
    ensures step == 0 ==> (valid <==> forall i :: 0 <= i < |ShippingFields| ==> Filled(shipping, ShippingFields[i]))
    ensures step == 1 ==> (valid <==> forall i :: 0 <= i < |PaymentFields| ==> Filled(payment, PaymentFields[i]))
    ensures step != 0 && step != 1 ==> valid
  {
    if step == 0 then !AnyBlank(shipping, ShippingFields)
    else if step == 1 then !AnyBlank(payment, PaymentFields)
    else true
  }

  // ---------------------------------------------------------------- progress

  /** `Math.round(completed / total * 100)` for the two list lengths the
      page divides by (eight and four fields). Both quotients times 100 are
      exact in binary floating point, so this is rounding half up on the
      rational value. */
  function RoundedPercent(completed: nat, total: nat): (p: int)
    requires (total == 8 || total == 4) && completed <= total
    ensures 0 <= p <= 100
    ensures p == 100 <==> completed == total
    ensures p == 0 <==> completed == 0
  {
    var p := (200 * completed + total) / (2 * total);
    PercentBounds(completed, total);
    p
  }

  /** The nine and five cases behind `RoundedPercent`. */
  lemma PercentBounds(c: nat, n: nat)
    requires (n == 8 || n == 4) && c <= n
    ensures var p := (200 * c + n) / (2 * n);
      0 <= p <= 100 && (p == 100 <==> c == n) && (p == 0 <==> c == 0)
  {
    if n == 8 {
      assert c in {0, 1, 2, 3, 4, 5, 6, 7, 8};
    } else {
      assert c in {0, 1, 2, 3, 4};
    }
  }

  /** `getStepCompletionPercentage()`. */
  function StepCompletionPercentage(step: int, shipping: Info, payment: Info): (p: int)
    ensures 0 <= p <= 100
  {
    if step == 0 then RoundedPercent(|Completed(shipping, ShippingFields)|, |ShippingFields|)
    else if step == 1 then RoundedPercent(|Completed(payment, PaymentFields)|, |PaymentFields|)
    else 100
  }

  /** The percentage reaches 100 exactly when the step's gate opens, and is
      0 exactly when none of the step's fields is filled. */
  lemma PercentageMatchesGate(step: int, shipping: Info, payment: Info)
    ensures StepCompletionPercentage(step, shipping, payment) == 100 <==> IsCurrentStepValid(step, shipping, payment)
    ensures step == 0 ==> (StepCompletionPercentage(step, shipping, payment) == 0 <==>
      forall i :: 0 <= i < |ShippingFields| ==> !Filled(shipping, ShippingFields[i]))
    ensures step == 1 ==> (StepCompletionPercentage(step, shipping, payment) == 0 <==>
      forall i :: 0 <= i < |PaymentFields| ==> !Filled(payment, PaymentFields[i]))
  {
    CompletedCount(shipping, ShippingFields);
    CompletedCount(payment, PaymentFields);
  }

  // ---------------------------------------------------------------- the order

  /** One `items.map(...)` entry of the order input. */
  function OrderLine(item: CartStore.CartItem): OrderItemInput {
    OrderItemInput(item.id, item.quantity, item.price)
  }

  /** The `id` of the signed-in user object. */
  function UserId(user: AuthStore.UserObject): Option<string> {
    if "id" in user && user["id"].Text? then Some(user["id"].s) else None
  }

  /** Why building the order input throws: `user.id` of a signed-in store
      that holds no user. */
  datatype OrderFailure = NoUser

  /** The `orderInput` of `handleSubmitOrder`. */
  function OrderInputFor(
    items: seq<CartStore.CartItem>, total: int, shipping: Info, payment: Info,
    guestId: Option<string>, isAuthenticated: bool, user: Option<AuthStore.UserObject>): (r: Result<OrderInput, OrderFailure>)
    requires HasFields(shipping, ShippingKeys) && HasFields(payment, PaymentKeys)
    ensures r.Err? <==> isAuthenticated && user.None?
  {
    if isAuthenticated && user.None? then Err(NoUser)
    else
      Ok(OrderInput(
        Map(items, OrderLine),
        total,
        CustomerInfo(shipping["firstName"], shipping["lastName"], shipping["email"],
                     Some(shipping["phone"]), Some(shipping["address"]), Some(shipping["city"]),
                     Some(shipping["state"]), Some(shipping["zipCode"]), Some(shipping["country"])),
        PaymentInfo(Some(LastFour(payment["cardNumber"])), Some("visa"), total),
        if TruthyString(guestId) then guestId else None,
        if isAuthenticated then UserId(user.value) else None))
  }

  /** The order input carries one line per cart entry with its id, quantity
      and price, in cart order; the card number only by its last (at most
      four) characters; the cart total twice; a user id only for a
      signed-in customer; and no guest id when the cart has none. */
  lemma OrderInputShape(
    items: seq<CartStore.CartItem>, total: int, shipping: Info, payment: Info,
    guestId: Option<string>, isAuthenticated: bool, user: Option<AuthStore.UserObject>)
    requires HasFields(shipping, ShippingKeys) && HasFields(payment, PaymentKeys)
    requires !(isAuthenticated && user.None?)
    ensures var o := OrderInputFor(items, total, shipping, payment, guestId, isAuthenticated, user).value;
      && |o.items| == |items|
      && (forall i :: 0 <= i < |items| ==>
            o.items[i].productId == items[i].id && o.items[i].quantity == items[i].quantity
            && o.items[i].price == items[i].price)
      && o.total == total && o.paymentInfo.amount == total
      && o.paymentInfo.cardLast4.Some?
      && |o.paymentInfo.cardLast4.value| == Min(4, |payment["cardNumber"]|)
      && payment["cardNumber"] == payment["cardNumber"][..|payment["cardNumber"]| - |o.paymentInfo.cardLast4.value|]
                                  + o.paymentInfo.cardLast4.value
      && (!isAuthenticated ==> o.userId.None?)
      && (guestId.None? ==> o.guestId.None?)
      && o.customerInfo.email == shipping["email"]
  {
  }

  /** What the server makes of the page's order: the echoed order has one
      line per cart entry, numbered from 1 in cart order, with the entry's
      product id, quantity and price; its user is absent for a guest. */
  lemma ServerEchoesCart(
    items: seq<CartStore.CartItem>, total: int, shipping: Info, payment: Info,
    guestId: Option<string>, isAuthenticated: bool, user: Option<AuthStore.UserObject>,
    stamp: nat, isoTime: string)
    requires HasFields(shipping, ShippingKeys) && HasFields(payment, PaymentKeys)
    requires !(isAuthenticated && user.None?)
    ensures var input := OrderInputFor(items, total, shipping, payment, guestId, isAuthenticated, user).value;
      var o := Resolvers.CreateOrder(input, stamp, isoTime).data.order;
      && |o.items| == |items|
      && (forall i :: 0 <= i < |items| ==>
            o.items[i].id == i + 1 && o.items[i].product.id == items[i].id
            && o.items[i].quantity == items[i].quantity && o.items[i].price == items[i].price)
      && o.total == total
      && (!isAuthenticated ==> o.user.None?)
  {
    OrderInputShape(items, total, shipping, payment, guestId, isAuthenticated, user);
  }

  // ---------------------------------------------------------------- the page

  class CheckoutPage {
    var activeStep: int
    var shipping: Info
    var payment: Info
    var alert: Option<Alert>

    /** Every field the page reads is in its form. */
    predicate Valid()
      reads this
    {
      HasFields(shipping, ShippingKeys) && HasFields(payment, PaymentKeys)
    }

    constructor()
      ensures activeStep == 0 && shipping == InitialShipping && payment == InitialPayment && alert == None
      ensures Valid()
    {
      activeStep := 0;
      shipping := InitialShipping;
      payment := InitialPayment;
      alert := None;
    }

    /** `handleNext()`: the step advances by one exactly when the current
        step's gate is open; otherwise an error alert names the form. */
    method HandleNext()
      modifies this
      ensures shipping == old(shipping) && payment == old(payment)
      ensures IsCurrentStepValid(old(activeStep), shipping, payment) ==>
        activeStep == old(activeStep) + 1 && alert == old(alert)
      ensures !IsCurrentStepValid(old(activeStep), shipping, payment) ==>
        activeStep == old(activeStep)
        && alert == Some(Alert(if old(activeStep) == 0 then ShippingAlert else PaymentAlert, Error))
    {
      if activeStep == 0 {
        if AnyBlank(shipping, ShippingFields) {
          alert := Some(Alert(ShippingAlert, Error));
          return;
        }
      } else if activeStep == 1 {
        if AnyBlank(payment, PaymentFields) {
          alert := Some(Alert(PaymentAlert, Error));
          return;
        }
      }
      activeStep := activeStep + 1;
    }

    /** `handleBack()`: no guard of its own; the Back button is disabled at
        step 0. */
    method HandleBack()
      modifies this
      ensures activeStep == old(activeStep) - 1
      ensures shipping == old(shipping) && payment == old(payment) && alert == old(alert)
    {
      activeStep := activeStep - 1;
    }

    /** `handleShippingChange(field)(event)`. */
    method HandleShippingChange(field: string, value: string)
      modifies this
      ensures shipping == old(shipping)[field := value]
      ensures activeStep == old(activeStep) && payment == old(payment) && alert == old(alert)
      ensures old(Valid()) ==> Valid()
    {
      shipping := shipping[field := value];
    }

    /** `handlePaymentChange(field)(event)`. */
    method HandlePaymentChange(field: string, value: string)
      modifies this
      ensures payment == old(payment)[field := value]
      ensures activeStep == old(activeStep) && shipping == old(shipping) && alert == old(alert)
      ensures old(Valid()) ==> Valid()
    {
      payment := payment[field := value];
    }
  }

  /** A change handler touches only its own field: every other field keeps
      its value, and the changed one holds what was typed. */
  lemma ChangeTouchesOneField(info: Info, field: string, value: string, other: string)
    requires other != field && other in info
    ensures info[field := value][field] == value
    ensures info[field := value][other] == info[other]
    ensures info[field := value].Keys == info.Keys + {field}
  {
  }

  /** The initial shipping form leaves every required field blank. */
  lemma ShippingStartsBlank()
    ensures forall i :: 0 <= i < |ShippingFields| ==> !Filled(InitialShipping, ShippingFields[i])
  {
    assert Trim("") == "";
    forall i | 0 <= i < |ShippingFields| ensures !Filled(InitialShipping, ShippingFields[i]) {
      assert InitialShipping[ShippingFields[i]] == "";
    }
  }

  /** The initial payment form leaves its first field blank. */
  lemma PaymentStartsBlank()
    ensures !Filled(InitialPayment, PaymentFields[0])
  {
    assert Trim("") == "";
  }

  /** Starting from the empty forms, the first step's gate is closed and
      its progress is zero. */
  lemma InitialFormsIncomplete()
    ensures !IsCurrentStepValid(0, InitialShipping, InitialPayment)
    ensures StepCompletionPercentage(0, InitialShipping, InitialPayment) == 0
    ensures !IsCurrentStepValid(1, InitialShipping, InitialPayment)
  {
    ShippingStartsBlank();
    PaymentStartsBlank();
    PercentageMatchesGate(0, InitialShipping, InitialPayment);
  }
}
