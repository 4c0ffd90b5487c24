/**
 * Checkout submission: build the order from the form and the cart, append it to
 * the stored order list, clear the cart and go to the success page. The clock and
 * the generated id are parameters; whether the browser storage accepts the write
 * is the parameter `storageWorks` (the `catch` branch when it does not).
 */
module Checkout {
  import opened Wrappers
  import opened Text
  import opened Domain
  import CartState

  datatype CheckoutForm = CheckoutForm(
    customerName: string,
    phone: string,
    email: string,
    address: string,
    city: string,
    province: string,
    paymentMethod: PaymentMethod,
    specialInstructions: string)

  /** The form as the page first shows it: every text empty, cash on delivery chosen. */
  const BlankForm := CheckoutForm("", "", "", "", "", "", Cod, "")

  /** The form's text inputs and its province select, by their `name` attribute. */
  datatype TextField = CustomerName | Phone | Email | Address | City | Province | SpecialInstructions

  /** The value the input called `field` shows. */
  function FieldValue(form: CheckoutForm, field: TextField): string {
    match field
    case CustomerName => form.customerName
    case Phone => form.phone
    case Email => form.email
    case Address => form.address
    case City => form.city
    case Province => form.province
    case SpecialInstructions => form.specialInstructions
  }

  /** `handleInputChange` on a text input or the select: the form with that one value replaced. */
  function WithField(form: CheckoutForm, field: TextField, value: string): (f: CheckoutForm)
    ensures FieldValue(f, field) == value
    ensures forall g :: g != field ==> FieldValue(f, g) == FieldValue(form, g)
    ensures f.paymentMethod == form.paymentMethod
  {
    match field
    case CustomerName => form.(customerName := value)
    case Phone => form.(phone := value)
    case Email => form.(email := value)
    case Address => form.(address := value)
    case City => form.(city := value)
    case Province => form.(province := value)
    case SpecialInstructions => form.(specialInstructions := value)
  }

  /** The inputs marked `required`; the province select's placeholder option has the value "". */
  const RequiredFields: set<TextField> := {CustomerName, Phone, Address, City, Province}

  /** The browser lets the form submit only when no required input is empty. */
  predicate Submittable(form: CheckoutForm) {
    forall g :: g in RequiredFields ==> FieldValue(form, g) != ""
  }

  /** The blank form cannot be submitted, and clearing a required input blocks submission again. */
  lemma RequiredFieldsGate(form: CheckoutForm, field: TextField, value: string)
    ensures !Submittable(BlankForm)
    ensures field in RequiredFields && value == "" ==> !Submittable(WithField(form, field, value))
    ensures Submittable(form) && field !in RequiredFields ==> Submittable(WithField(form, field, value))
  {
    assert FieldValue(BlankForm, Phone) == "";
    if field in RequiredFields && value == "" {
      assert FieldValue(WithField(form, field, value), field) == "";
    }
  }

  /** `SW` followed by the last six characters of the clock's decimal form. */
  function OrderNumber(now: nat): (r: string)
    ensures 3 <= |r| <= 8 && r[..2] == "SW"
    ensures forall i :: 2 <= i < |r| ==> IsDigit(r[i])
  {
    var digits := NatToString(now);
    "SW" + (if |digits| <= 6 then digits else digits[|digits| - 6..])
  }

  /** From six digits on, the order number is `SW` and six digits spelling the clock modulo one million. */
  lemma OrderNumberShape(now: nat)
    ensures |OrderNumber(now)| <= 8 && OrderNumber(now)[..2] == "SW"
    ensures forall i :: 2 <= i < |OrderNumber(now)| ==> IsDigit(OrderNumber(now)[i])
    ensures now >= 100000 ==> |OrderNumber(now)| == 8
    ensures now >= 100000 ==> DigitsValue(OrderNumber(now)[2..], 10) == now % 1000000
  {
    var digits := NatToString(now);
    var r := OrderNumber(now);
    var tail := if |digits| <= 6 then digits else digits[|digits| - 6..];
    assert r == "SW" + tail && r[2..] == tail;
    if now >= 100000 {
      NatToStringLength(now, 5);
      assert Pow10(5) == 100000;
      assert Pow10(6) == 1000000;
      if |digits| == 6 {
        assert tail == digits[|digits| - 6..];
      }
      SuffixDigitsValue(now, 6);
    }
  }

  /** The order the form describes: a fresh `pending` order holding the cart's lines and total. */
  function BuildOrder(orderId: string, now: nat, form: CheckoutForm, items: seq<CartItem>, totalAmount: int): (o: Order)
    ensures o.status == Pending && o.createdAt == now && o.orderNumber == OrderNumber(now)
  {
    Order(
      id := orderId,
      orderNumber := OrderNumber(now),
      customerName := form.customerName,
      phone := form.phone,
      address := form.address,
      city := form.city,
      province := form.province,
      items := items,
      totalLkr := totalAmount,
      paymentMethod := form.paymentMethod,
      status := Pending,
      createdAt := now)
  }

  /** The form is rendered, and so can be submitted, only for a non-empty cart. */
  predicate FormShown(items: seq<CartItem>) {
    |items| > 0
  }

  class CheckoutPage {
    var form: CheckoutForm
    var isProcessing: bool
    /** Every value `isProcessing` has been set to, in order. */
    ghost var processingTrace: seq<bool>
    /** The route last navigated to. */
    var route: Option<string>

    constructor ()
      ensures form == BlankForm && !isProcessing && processingTrace == [] && route.None?
    {
      form := BlankForm;
      isProcessing := false;
      processingTrace := [];
      route := None;
    }

    /** `handleInputChange` for a text input or the province select. */
    method HandleInputChange(field: TextField, value: string)
      modifies this
      ensures form == WithField(old(form), field, value)
      ensures isProcessing == old(isProcessing) && processingTrace == old(processingTrace) && route == old(route)
    {
      form := WithField(form, field, value);
    }

    /** `handleInputChange` for the payment radio buttons. */
    method HandlePaymentChange(choice: PaymentMethod)
      modifies this
      ensures form == old(form).(paymentMethod := choice)
      ensures isProcessing == old(isProcessing) && processingTrace == old(processingTrace) && route == old(route)
    {
      form := form.(paymentMethod := choice);
    }

    /**
     * `handleSubmit`, which the browser calls only for a form with every required input filled. On success the store gains exactly the new order at its end,
     * the cart is cleared and the page moves to the order's success route; on a
     * storage failure nothing but the processing flag changes. The flag is raised
     * first and lowered last either way.
     */
    method HandleSubmit(cart: CartState.Cart, store: OrderStore, orderId: string, now: nat, storageWorks: bool)
      returns (placed: Option<Order>)
      requires cart.Valid() && FormShown(cart.items) && Submittable(form)
      modifies this, cart, store
      ensures !isProcessing && processingTrace == old(processingTrace) + [true, false]
      ensures form == old(form) && cart.Valid() && cart.isCartOpen == old(cart.isCartOpen)
      ensures storageWorks ==>
        && placed == Some(BuildOrder(orderId, now, form, old(cart.items), CartState.TotalAmount(old(cart.items))))
        && store.orders == old(store.orders) + [placed.value]
        && cart.items == []
        && route == Some("/order-success/" + orderId)
      ensures !storageWorks ==>
        placed.None? && store.orders == old(store.orders) && cart.items == old(cart.items) && route == old(route)
    {
      isProcessing := true;
      processingTrace := processingTrace + [true];
      var order := BuildOrder(orderId, now, form, cart.items, cart.GetTotalAmount());
      if storageWorks {
        var existingOrders := store.orders;
        existingOrders := existingOrders + [order];
        store.orders := existingOrders;
        cart.ClearCart();
        route := Some("/order-success/" + orderId);
        placed := Some(order);
      } else {
        placed := None;
      }
      isProcessing := false;
      processingTrace := processingTrace + [false];
    }
  }

  /**
   * A placed order is `pending`, is stamped with the submission time, and carries
   * the form's customer and delivery address and the cart's lines and total.
   */
  lemma PlacedOrderContents(orderId: string, now: nat, form: CheckoutForm, items: seq<CartItem>)
    ensures var o := BuildOrder(orderId, now, form, items, CartState.TotalAmount(items));
            && o.status == Pending && o.id == orderId
            && o.items == items && o.totalLkr == CartState.TotalAmount(items)
            && o.customerName == form.customerName && o.phone == form.phone && o.paymentMethod == form.paymentMethod
            && o.address == form.address && o.city == form.city && o.province == form.province
            && o.createdAt == now
            && (now >= 100000 ==> |o.orderNumber| == 8)
    ensures var o := BuildOrder(orderId, now, form, items, CartState.TotalAmount(items));
            Submittable(form) ==>
              o.customerName != "" && o.phone != "" && o.address != "" && o.city != "" && o.province != ""
  {
    if Submittable(form) {
      assert FieldValue(form, CustomerName) != "" && FieldValue(form, Phone) != "";
      assert FieldValue(form, Address) != "" && FieldValue(form, City) != "" && FieldValue(form, Province) != "";
    }
    OrderNumberShape(now);
  }
}
