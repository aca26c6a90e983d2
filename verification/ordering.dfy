/** The page's ordering state: the global cart and order counter of the menu script, the
    order-summary and confirmation dialogs, and the order form, with the operations that
    the page's buttons trigger. */
module Ordering {
  import opened Wrappers
  import opened Text
  import opened Cart

  datatype Fulfilment = Pickup | Delivery

  /** The order form's inputs and the checked order-type radio button (if any). */
  datatype OrderForm = OrderForm(name: string, phone: string, email: string, orderType: Option<Fulfilment>)

  /** The data shown in the confirmation dialog. */
  datatype Order = Order(number: int, customerName: string, customerPhone: string,
                         customerEmail: string, orderType: Fulfilment, total: real)

  /** The alerts the ordering flow raises instead of going on. */
  datatype OrderError = EmptyCart | MissingName | MissingPhone

  datatype Result<T> = Ok(value: T) | Err(error: OrderError)

  /** The first order number handed out. */
  const FirstOrderNumber: int := 1000

  /** The form after `form.reset()` and re-checking the pickup radio button. */
  const ClearedForm: OrderForm := OrderForm("", "", "", Some(Pickup))

  /** The order `handlePlaceOrder` would place from this form and cart under this number:
      the trimmed name is checked first, then the trimmed phone; an empty cart is not
      re-checked. The order carries the trimmed fields, the order type defaulting to pickup,
      and the unrounded total of the cart. */
  function PlaceOrder(f: OrderForm, cart: seq<Line>, number: int): (r: Result<Order>)
    ensures r == Err(MissingName) <==> Trim(f.name) == []
    ensures r == Err(MissingPhone) <==> Trim(f.name) != [] && Trim(f.phone) == []
    ensures r.Ok? <==> Trim(f.name) != [] && Trim(f.phone) != []
    ensures r.Ok? ==> r.value.number == number && r.value.total == CalculateTotals(cart).total
    ensures r.Ok? ==> r.value.customerName == Trim(f.name) && r.value.customerPhone == Trim(f.phone) &&
                      r.value.customerEmail == Trim(f.email)
    ensures r.Ok? ==> (f.orderType == None ==> r.value.orderType == Pickup) &&
                      (f.orderType.Some? ==> r.value.orderType == f.orderType.value)
  {
    var name, phone := Trim(f.name), Trim(f.phone);
    if name == [] then Err(MissingName)
    else if phone == [] then Err(MissingPhone)
    else Ok(Order(number, name, phone, Trim(f.email), f.orderType.GetOr(Pickup), CalculateTotals(cart).total))
  }

  class Session {
    var cart: seq<Line>
    var orderNumber: int
    /** The order-summary dialog is open. */
    var reviewing: bool
    /** The confirmation dialog is open, showing this order. */
    var confirmed: Option<Order>
    var form: OrderForm

    /** The counter never goes below its start, and an order on display was numbered
        before the counter's current value. */
    ghost predicate Valid()
      reads this
    {
      orderNumber >= FirstOrderNumber &&
      (confirmed.Some? ==> FirstOrderNumber <= confirmed.value.number < orderNumber)
    }

    /** Page load: an empty cart, the counter at 1000, no dialog open. */
    constructor ()
      ensures Valid()
      ensures cart == [] && orderNumber == FirstOrderNumber
      ensures !reviewing && confirmed == None && form == ClearedForm
    {
      cart := [];
      orderNumber := FirstOrderNumber;
      reviewing := false;
      confirmed := None;
      form := ClearedForm;
    }

    /** The visitor types into the order form or picks an order type. */
    method EditForm(f: OrderForm)
      requires Valid()
      modifies this
      ensures Valid()
      ensures form == f
      ensures cart == old(cart) && orderNumber == old(orderNumber)
      ensures reviewing == old(reviewing) && confirmed == old(confirmed)
    {
      form := f;
    }

    /** `addToCart(newItem)`: merges into the first line with the same name and notes or
        appends the item; nothing but the cart changes. */
    method AddToCart(item: Line)
      requires Valid()
      modifies this
      ensures Valid()
      ensures cart == AddItem(old(cart), item)
      ensures orderNumber == old(orderNumber) && form == old(form)
      ensures reviewing == old(reviewing) && confirmed == old(confirmed)
    {
      var i := KeyIndex(cart, item);
      if i > -1 {
        assert AddItem(cart, item) == cart[i := cart[i].(quantity := cart[i].quantity + 1)];
        cart := cart[i := cart[i].(quantity := cart[i].quantity + 1)];
      } else {
        assert AddItem(cart, item) == cart + [item];
        cart := cart + [item];
      }
    }

    /** `removeFromCart(id)`. */
    method RemoveFromCart(id: string)
      requires Valid()
      modifies this
      ensures Valid()
      ensures cart == WithoutId(old(cart), id)
      ensures orderNumber == old(orderNumber) && form == old(form)
      ensures reviewing == old(reviewing) && confirmed == old(confirmed)
    {
      cart := WithoutId(cart, id);
    }

    /** `updateQuantity(id, n)`. */
    method UpdateQuantity(id: string, n: int)
      requires Valid()
      modifies this
      ensures Valid()
      ensures cart == SetQuantity(old(cart), id, n)
      ensures orderNumber == old(orderNumber) && form == old(form)
      ensures reviewing == old(reviewing) && confirmed == old(confirmed)
    {
      var i := IdIndex(cart, id);
      if i > -1 {
        if n <= 0 {
          RemoveFromCart(id);
        } else {
          cart := cart[i := cart[i].(quantity := n)];
        }
      }
    }

    /** `updateNotes(id, notes)`. */
    method UpdateNotes(id: string, notes: string)
      requires Valid()
      modifies this
      ensures Valid()
      ensures cart == SetNotes(old(cart), id, notes)
      ensures orderNumber == old(orderNumber) && form == old(form)
      ensures reviewing == old(reviewing) && confirmed == old(confirmed)
    {
      var i := IdIndex(cart, id);
      if i > -1 {
        cart := cart[i := cart[i].(notes := notes)];
      }
    }

    /** `showOrderSummary()`: an empty cart is refused and nothing changes; otherwise the
        summary dialog opens showing the current totals. */
    method ShowOrderSummary() returns (r: Result<Totals>)
      requires Valid()
      modifies this
      ensures Valid()
      ensures old(cart) == [] ==> r == Err(EmptyCart) && reviewing == old(reviewing)
      ensures old(cart) != [] ==> r == Ok(CalculateTotals(cart)) && reviewing
      ensures cart == old(cart) && orderNumber == old(orderNumber) && form == old(form)
      ensures confirmed == old(confirmed)
    {
      if |cart| == 0 {
        return Err(EmptyCart);
      }
      r := Ok(CalculateTotals(cart));
      reviewing := true;
    }

    /** `handlePlaceOrder()`: a refused order changes nothing; an accepted one takes the
        counter's current value, the counter goes up by one, the summary closes and the
        confirmation opens. The cart itself is kept. */
    method HandlePlaceOrder() returns (r: Result<Order>)
      requires Valid()
      modifies this
      ensures Valid()
      ensures r == PlaceOrder(form, cart, old(orderNumber))
      ensures cart == old(cart) && form == old(form)
      ensures r.Err? ==> orderNumber == old(orderNumber) && reviewing == old(reviewing) && confirmed == old(confirmed)
      ensures r.Ok? ==> orderNumber == old(orderNumber) + 1 && !reviewing && confirmed == Some(r.value)
    {
      r := PlaceOrder(form, cart, orderNumber);
      if r.Ok? {
        orderNumber := orderNumber + 1;
        confirmed := Some(r.value);
        reviewing := false;
      }
    }

    /** `resetOrder()`: empties the cart and clears the form back to pickup. */
    method ResetOrder()
      requires Valid()
      modifies this
      ensures Valid()
      ensures cart == [] && form == ClearedForm
      ensures orderNumber == old(orderNumber) && reviewing == old(reviewing) && confirmed == old(confirmed)
    {
      cart := [];
      form := ClearedForm;
    }

    /** The confirmation dialog's close button: hides the dialog and nothing else; the cart
        of the placed order stays. */
    method CloseConfirmation()
      requires Valid()
      modifies this
      ensures Valid()
      ensures confirmed == None
      ensures cart == old(cart) && orderNumber == old(orderNumber) && form == old(form)
      ensures reviewing == old(reviewing)
    {
      confirmed := None;
    }

    /** The "start new order" button: hides the confirmation and resets the order. */
    method StartNewOrder()
      requires Valid()
      modifies this
      ensures Valid()
      ensures confirmed == None && cart == [] && form == ClearedForm
      ensures orderNumber == old(orderNumber) && reviewing == old(reviewing)
    {
      confirmed := None;
      ResetOrder();
    }
  }

  /** Two orders placed one after the other, with a new order started, an item added and
      the form filled in again between them, get strictly increasing numbers, none below
      1000. Only `HandlePlaceOrder` moves the counter: every other `Session` method ensures
      `orderNumber == old(orderNumber)`. */
  method OrderNumbersIncrease(s: Session, f: OrderForm, item: Line) returns (first: int, second: int)
    requires s.Valid()
    requires Trim(f.name) != [] && Trim(f.phone) != []
    modifies s
    ensures s.Valid()
    ensures FirstOrderNumber <= first < second == s.orderNumber - 1
  {
    s.EditForm(f);
    var r1 := s.HandlePlaceOrder();
    s.StartNewOrder();
    s.AddToCart(item);
    s.EditForm(f);
    var r2 := s.HandlePlaceOrder();
    first, second := r1.value.number, r2.value.number;
  }
}
