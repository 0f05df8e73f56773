/** The checkout page of frontend/src/pages/customer/Checkout.jsx: which
    address is selected when the list loads, after a deletion and after the
    address form is saved; the guards of placing an order and the request
    body it sends; the displayed total; and the pincode field's digit filter.
    The server's answers (the saved address, whether a deletion succeeded,
    the pincode check) are parameters. */
module Checkout {
  import opened Common
  import Cart
  import OrderModel

  /** The fields of an address the page reads; `id` is the database id. */
  datatype Address = Address(id: string, isDefault: bool, pincode: string)

  // ---------------------------------------------------------------------
  // Address selection

  /** `addresses.find(a => a.isDefault)`. */
  function FindDefault(addresses: seq<Address>): (r: Option<Address>)
    ensures r.None? <==> forall k :: 0 <= k < |addresses| ==> !addresses[k].isDefault
    ensures r.Some? ==> exists k :: 0 <= k < |addresses| && addresses[k] == r.value && r.value.isDefault &&
                          forall j :: 0 <= j < k ==> !addresses[j].isDefault
    decreases |addresses|
  {
    if addresses == [] then None
    else if addresses[0].isDefault then Some(addresses[0])
    else
      var r := FindDefault(addresses[1..]);
      if r.Some? then
        var k :| 0 <= k < |addresses[1..]| && addresses[1..][k] == r.value &&
                 forall j :: 0 <= j < k ==> !addresses[1..][j].isDefault;
        assert addresses[k + 1] == r.value;
        r
      else r
  }

  /** The default address's id, else the first address's id, else "". */
  function PreferredId(addresses: seq<Address>): string
  {
    match FindDefault(addresses)
    case Some(a) => a.id
    case None => if |addresses| > 0 then addresses[0].id else ""
  }

  /** The preferred id belongs to a listed address (the default one when there is one); it
      is "" for an empty list. */
  lemma PreferredIdRules(addresses: seq<Address>)
    ensures addresses == [] ==> PreferredId(addresses) == ""
    ensures addresses != [] ==> exists k :: 0 <= k < |addresses| && addresses[k].id == PreferredId(addresses)
    ensures (exists k :: 0 <= k < |addresses| && addresses[k].isDefault) ==>
              exists k :: 0 <= k < |addresses| && addresses[k].isDefault && addresses[k].id == PreferredId(addresses)
    ensures (forall k :: 0 <= k < |addresses| ==> !addresses[k].isDefault) && addresses != [] ==>
              PreferredId(addresses) == addresses[0].id
  {
    if addresses != [] {
      match FindDefault(addresses)
      case Some(a) =>
        var k :| 0 <= k < |addresses| && addresses[k] == a && a.isDefault;
        assert addresses[k].id == PreferredId(addresses);
      case None =>
        assert addresses[0].id == PreferredId(addresses);
    }
  }

  /** `fetchAddresses`: the default address, else the first; an empty list keeps the current
      selection. */
  function InitialSelection(current: string, fetched: seq<Address>): (r: string)
    ensures fetched == [] ==> r == current
    ensures fetched != [] ==> exists k :: 0 <= k < |fetched| && fetched[k].id == r
    ensures (exists k :: 0 <= k < |fetched| && fetched[k].isDefault) ==>
              exists k :: 0 <= k < |fetched| && fetched[k].isDefault && fetched[k].id == r
    ensures (forall k :: 0 <= k < |fetched| ==> !fetched[k].isDefault) && fetched != [] ==> r == fetched[0].id
  {
    PreferredIdRules(fetched);
    if fetched == [] then current else PreferredId(fetched)
  }

  /** `addresses.filter(a => a._id !== id)`. */
  function RemoveById(addresses: seq<Address>, id: string): (r: seq<Address>)
    ensures |r| <= |addresses|
    ensures forall k :: 0 <= k < |r| ==> r[k].id != id && r[k] in addresses
    ensures forall k :: 0 <= k < |addresses| && addresses[k].id != id ==> addresses[k] in r
    ensures forall k :: 0 <= k < |addresses| && addresses[k].id != id && FirstKept(addresses, id, k) ==>
              r != [] && r[0] == addresses[k]
    decreases |addresses|
  {
    if addresses == [] then []
    else if addresses[0].id == id then RemoveById(addresses[1..], id)
    else [addresses[0]] + RemoveById(addresses[1..], id)
  }

  /** Every address before index k carries the removed id. */
  predicate FirstKept(addresses: seq<Address>, id: string, k: int)
    requires 0 <= k <= |addresses|
  {
    forall j :: 0 <= j < k ==> addresses[j].id == id
  }

  /** The filter keeps the list's order: filtering two lists one after the other is
      filtering each and joining the results. */
  lemma {:induction false} RemoveByIdAppend(a: seq<Address>, b: seq<Address>, id: string)
    ensures RemoveById(a + b, id) == RemoveById(a, id) + RemoveById(b, id)
    decreases |a|
  {
    if a == [] {
      assert a + b == b;
    } else {
      assert (a + b)[0] == a[0] && (a + b)[1..] == a[1..] + b;
      RemoveByIdAppend(a[1..], b, id);
    }
  }

  /** `handleDelete`: after the deletion is confirmed and the server succeeds, the address is
      dropped; if it was the selected one, the selection moves to the remaining default, else
      the first remaining address, else "". Any other selection is kept. */
  method HandleDelete(addresses: seq<Address>, selected: string, id: string, confirmed: bool, deleted: bool)
    returns (addresses': seq<Address>, selected': string)
    ensures !confirmed || !deleted ==> addresses' == addresses && selected' == selected
    ensures confirmed && deleted ==> addresses' == RemoveById(addresses, id)
    ensures confirmed && deleted && selected == id ==> selected' == PreferredId(addresses')
    ensures selected != id ==> selected' == selected
  {
    addresses', selected' := addresses, selected;
    if !confirmed || !deleted {
      return;
    }
    var updated := RemoveById(addresses, id);
    addresses' := updated;
    if selected == id {
      if |updated| > 0 {
        var defaultAddress := FindDefault(updated);
        selected' := if defaultAddress.Some? then defaultAddress.value.id else updated[0].id;
      } else {
        selected' := "";
      }
    }
  }

  /** After the selected address is deleted the selection names a remaining address, the
      default one if any remains, and is "" only when none remain. */
  lemma DeleteSelectedRules(addresses: seq<Address>, id: string)
    ensures var rest := RemoveById(addresses, id);
            && (rest == [] ==> PreferredId(rest) == "")
            && (rest != [] ==> exists k :: 0 <= k < |rest| && rest[k].id == PreferredId(rest) && rest[k].id != id)
            && ((exists k :: 0 <= k < |rest| && rest[k].isDefault) ==>
                  exists k :: 0 <= k < |rest| && rest[k].isDefault && rest[k].id == PreferredId(rest))
            && ((forall k :: 0 <= k < |rest| ==> !rest[k].isDefault) ==>
                  forall k :: 0 <= k < |addresses| && addresses[k].id != id && FirstKept(addresses, id, k) ==>
                    PreferredId(rest) == addresses[k].id)
  {
    PreferredIdRules(RemoveById(addresses, id));
  }

  /** `addresses.map(a => a._id === id ? saved : a)`. */
  function ReplaceById(addresses: seq<Address>, id: string, saved: Address): (r: seq<Address>)
    ensures |r| == |addresses|
    ensures forall k :: 0 <= k < |r| ==> r[k] == if addresses[k].id == id then saved else addresses[k]
  {
    seq(|addresses|, k requires 0 <= k < |addresses| => if addresses[k].id == id then saved else addresses[k])
  }

  /** `handleAddressSubmit`: `editing` is the id of the address being edited, and `saved` the
      address the server returned (None when the request failed, which changes nothing). */
  function HandleAddressSubmit(addresses: seq<Address>, selected: string, editing: Option<string>, saved: Option<Address>)
    : (seq<Address>, string)
  {
    match saved
    case None => (addresses, selected)
    case Some(a) =>
      match editing
      case Some(id) => (ReplaceById(addresses, id, a), a.id)
      case None => (addresses + [a], a.id)
  }

  /** Editing replaces the address with the edited id in place and leaves the others; adding
      appends; either way the saved address is listed and selected. */
  lemma AddressSubmitRules(addresses: seq<Address>, selected: string, editing: Option<string>, a: Address)
    ensures var (r, sel) := HandleAddressSubmit(addresses, selected, editing, Some(a));
            && sel == a.id
            && (editing.None? ==> r == addresses + [a])
            && (editing.Some? ==>
                  |r| == |addresses| &&
                  (forall k :: 0 <= k < |r| && addresses[k].id == editing.value ==> r[k] == a) &&
                  (forall k :: 0 <= k < |r| && addresses[k].id != editing.value ==> r[k] == addresses[k]))
            && ((editing.None? || exists k :: 0 <= k < |addresses| && addresses[k].id == editing.value) ==> a in r)
  {
    var (r, sel) := HandleAddressSubmit(addresses, selected, editing, Some(a));
    if editing.None? {
      assert r[|addresses|] == a;
    } else if exists k :: 0 <= k < |addresses| && addresses[k].id == editing.value {
      var k :| 0 <= k < |addresses| && addresses[k].id == editing.value;
      assert r[k] == a;
    }
  }

  // ---------------------------------------------------------------------
  // Placing an order

  /** Why `handlePlaceOrder` stops before sending anything. */
  datatype Refusal = NoAddress | DeliveryUnavailable | EmptyCart

  /** The request body sent to the create-order route. */
  datatype OrderBody = OrderBody(
    items: seq<OrderModel.OrderItem>,
    addressId: string,
    couponCode: string,
    paymentMethod: string,
    deliveryDate: string,
    deliveryTime: string)

  /** What the page does: stop with a refusal, or send the body, first asking the payment
      route for an order of `razorpayAmount` when paying online. */
  datatype PlaceOutcome = Refused(reason: Refusal) | Send(body: OrderBody, razorpayAmount: Option<real>)

  /** The six fields of a cart line that an order item carries. */
  function BodyItem(l: Cart.CartLine): OrderModel.OrderItem
  {
    OrderModel.OrderItem(l.info.productId, l.info.name, l.info.weight, l.info.isEggless, l.quantity, l.info.price)
  }

  function BodyItems(cart: seq<Cart.CartLine>): (r: seq<OrderModel.OrderItem>)
    ensures |r| == |cart|
    ensures forall k :: 0 <= k < |r| ==> r[k] == BodyItem(cart[k])
  {
    seq(|cart|, k requires 0 <= k < |cart| => BodyItem(cart[k]))
  }

  /** The amount shown as the total: the cart's subtotal less the applied discount. */
  function DisplayTotal(cart: seq<Cart.CartLine>, discount: real): real
  {
    Cart.GetTotal(cart) - discount
  }

  /** `handlePlaceOrder`. `pincodeAvailable` is the `available` flag of the last pincode
      check, None before any answer. */
  method PlaceOrder(cart: seq<Cart.CartLine>, selected: string, pincodeAvailable: Option<bool>,
                    couponCode: string, paymentMethod: string, discount: real)
    returns (outcome: PlaceOutcome)
    ensures outcome.Refused? <==> selected == "" || pincodeAvailable != Some(true) || cart == []
    ensures selected == "" ==> outcome == Refused(NoAddress)
    ensures selected != "" && pincodeAvailable != Some(true) ==> outcome == Refused(DeliveryUnavailable)
    ensures selected != "" && pincodeAvailable == Some(true) && cart == [] ==> outcome == Refused(EmptyCart)
    ensures outcome.Send? ==>
              && cart != []
              && outcome.body.items == BodyItems(cart)
              && outcome.body.addressId == selected
              && outcome.body.couponCode == couponCode
              && outcome.body.paymentMethod == paymentMethod
              && outcome.body.deliveryDate == cart[0].info.deliveryDate
              && outcome.body.deliveryTime == cart[0].info.deliveryTime
              && (outcome.razorpayAmount.Some? <==> paymentMethod == "Razorpay")
              && (outcome.razorpayAmount.Some? ==> outcome.razorpayAmount.value == DisplayTotal(cart, discount))
  {
    if selected == "" {
      return Refused(NoAddress);
    }
    if pincodeAvailable != Some(true) {
      return Refused(DeliveryUnavailable);
    }
    if |cart| == 0 {
      return Refused(EmptyCart);
    }
    var body := OrderBody(BodyItems(cart), selected, if couponCode != "" then couponCode else "",
                          paymentMethod, cart[0].info.deliveryDate, cart[0].info.deliveryTime);
    if paymentMethod == "Razorpay" {
      outcome := Send(body, Some(Cart.GetTotal(cart) - discount));
    } else {
      outcome := Send(body, None);
    }
  }

  /** A cart free of duplicates gives a body with one item per line, each with a positive
      quantity, and the items' prices times quantities add up to the cart's subtotal. */
  lemma {:induction false} BodyMatchesCart(cart: seq<Cart.CartLine>)
    requires Cart.Valid(cart)
    ensures forall k :: 0 <= k < |BodyItems(cart)| ==> BodyItems(cart)[k].quantity >= 1
    ensures ItemsTotal(BodyItems(cart)) == Cart.GetTotal(cart)
    decreases |cart|
  {
    if cart != [] {
      var init := cart[..|cart| - 1];
      assert Cart.Valid(init);
      BodyMatchesCart(init);
      assert BodyItems(cart)[..|cart| - 1] == BodyItems(init);
    }
  }

  /** The sum of price times quantity over the items, from the left. */
  function ItemsTotal(items: seq<OrderModel.OrderItem>): real
    decreases |items|
  {
    if items == [] then 0.0
    else ItemsTotal(items[..|items| - 1]) + items[|items| - 1].price * items[|items| - 1].quantity as real
  }

  // ---------------------------------------------------------------------
  // Pincode field

  /** `value.replace(/\D/g, '')`: keep only the ASCII digits, in order. */
  function KeepDigits(s: string): string
    decreases |s|
  {
    if s == [] then []
    else if IsDigit(s[0]) then [s[0]] + KeepDigits(s[1..])
    else KeepDigits(s[1..])
  }

  /** The filtered text holds only digits, is no longer than the typed text, leaves text of
      digits alone, and filtering twice is filtering once. */
  lemma {:induction false} KeepDigitsRules(s: string)
    ensures AllDigits(KeepDigits(s))
    ensures |KeepDigits(s)| <= |s|
    ensures AllDigits(s) ==> KeepDigits(s) == s
    ensures KeepDigits(KeepDigits(s)) == KeepDigits(s)
    decreases |s|
  {
    if s != [] {
      KeepDigitsRules(s[1..]);
      var t := KeepDigits(s[1..]);
      if IsDigit(s[0]) {
        var r := [s[0]] + t;
        assert r[1..] == t;
        assert forall i :: 1 <= i < |r| ==> r[i] == t[i - 1];
        assert AllDigits(s) ==> AllDigits(s[1..]) by {
          if AllDigits(s) {
            assert forall i :: 0 <= i < |s[1..]| ==> s[1..][i] == s[i + 1];
          }
        }
      } else {
        assert !AllDigits(s) by {
          assert !IsDigit(s[0]);
        }
      }
    }
  }

  /** The digits kept are the typed digits, each in its place: a digit appended to the typed
      text is appended to the filtered text, anything else is dropped. */
  lemma {:induction false} KeepDigitsAppend(s: string, c: char)
    ensures KeepDigits(s + [c]) == KeepDigits(s) + (if IsDigit(c) then [c] else [])
    decreases |s|
  {
    if s == [] {
      assert [c][1..] == [];
    } else {
      assert (s + [c])[0] == s[0];
      assert (s + [c])[1..] == s[1..] + [c];
      KeepDigitsAppend(s[1..], c);
    }
  }
}
