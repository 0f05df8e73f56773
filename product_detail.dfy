/** The add-to-cart logic of frontend/src/pages/customer/ProductDetail.jsx:
    the page's selection state, the default chosen when a product loads,
    the weight picker, the quantity stepper, and `handleAddToCart`, which
    checks its guards in order and then calls the cart's `addToCart` once
    per unit. Tomorrow's date is a parameter (the page reads the clock). */
module ProductDetail {
  import opened Common
  import P = ProductModel
  import Cart

  /** A product as the page receives it, with its database id. */
  datatype LoadedProduct = LoadedProduct(id: string, product: P.Product)

  /** The page's state; an unselected weight is the empty string. */
  datatype PageState = PageState(
    selectedWeight: string,
    selectedPrice: real,
    isEggless: bool,
    quantity: int,
    preOrderDate: string,
    preOrderTime: string)

  const DefaultSlot: string := "09:00-12:00"

  const InitialState: PageState := PageState("", 0.0, false, 1, "", DefaultSlot)

  /** The effect that runs when the product arrives: the first weight option if there is one,
      else the product's own price when it is non-zero, else no change. */
  function OnProductLoaded(st: PageState, product: Option<LoadedProduct>): PageState
  {
    match product
    case None => st
    case Some(lp) =>
      var p := lp.product;
      if |p.weightOptions| > 0 then
        st.(selectedWeight := p.weightOptions[0].weight, selectedPrice := p.weightOptions[0].price,
            isEggless := p.isEggless)
      else if p.price != 0.0 then
        st.(selectedPrice := p.price, isEggless := p.isEggless)
      else st
  }

  /** A loaded product selects its first weight option and that option's price; one without
      options keeps no weight and shows its own price. */
  lemma DefaultSelection(st: PageState, lp: LoadedProduct)
    ensures var st' := OnProductLoaded(st, Some(lp));
            var p := lp.product;
            && (|p.weightOptions| > 0 ==>
                  st'.selectedWeight == p.weightOptions[0].weight && st'.selectedPrice == p.weightOptions[0].price)
            && (|p.weightOptions| == 0 && p.price != 0.0 ==>
                  st'.selectedWeight == st.selectedWeight && st'.selectedPrice == p.price)
            && st'.quantity == st.quantity
  {
  }

  /** `handleWeightChange`: picks the first option with that weight, if any. */
  function HandleWeightChange(st: PageState, p: P.Product, weight: string): PageState
  {
    match P.FindWeight(p.weightOptions, weight)
    case None => st
    case Some(w) => st.(selectedWeight := weight, selectedPrice := w.price)
  }

  /** A weight not offered leaves the selection unchanged; an offered one selects it at the
      price of its first option. */
  lemma WeightChangeRules(st: PageState, p: P.Product, weight: string)
    ensures (forall k :: 0 <= k < |p.weightOptions| ==> p.weightOptions[k].weight != weight) ==>
              HandleWeightChange(st, p, weight) == st
    ensures forall k :: 0 <= k < |p.weightOptions| && p.weightOptions[k].weight == weight &&
                        (forall j :: 0 <= j < k ==> p.weightOptions[j].weight != weight) ==>
              HandleWeightChange(st, p, weight) ==
                st.(selectedWeight := weight, selectedPrice := p.weightOptions[k].price)
  {
    var r := P.FindWeight(p.weightOptions, weight);
    if r.Some? {
      var k0 :| 0 <= k0 < |p.weightOptions| && p.weightOptions[k0] == r.value &&
                r.value.weight == weight && forall j :: 0 <= j < k0 ==> p.weightOptions[j].weight != weight;
      forall k | 0 <= k < |p.weightOptions| && p.weightOptions[k].weight == weight &&
                 (forall j :: 0 <= j < k ==> p.weightOptions[j].weight != weight)
        ensures k == k0
      {
      }
    }
  }

  function IncreaseQuantity(q: int): int
  {
    q + 1
  }

  function DecreaseQuantity(q: int): int
  {
    if q > 1 then q - 1 else 1
  }

  /** The stepper never goes below 1, and stepping down undoes stepping up. */
  lemma StepperRules(q: int)
    ensures DecreaseQuantity(q) >= 1
    ensures q >= 1 ==> DecreaseQuantity(IncreaseQuantity(q)) == q
    ensures q >= 1 ==> IncreaseQuantity(q) >= 1
    ensures DecreaseQuantity(1) == 1
  {
  }

  /** Why `handleAddToCart` returns without adding. */
  datatype AddRefusal = NoProduct | NeedWeight | NeedDate | NeedTime

  function AddGuard(product: Option<LoadedProduct>, st: PageState): Option<AddRefusal>
  {
    match product
    case None => Some(NoProduct)
    case Some(lp) =>
      var p := lp.product;
      if |p.weightOptions| > 0 && st.selectedWeight == "" then Some(NeedWeight)
      else if p.isPreOrder && st.preOrderDate == "" then Some(NeedDate)
      else if p.isPreOrder && st.preOrderTime == "" then Some(NeedTime)
      else None
  }

  /** The cart item the page builds once the guards pass. */
  function CartItemFor(lp: LoadedProduct, st: PageState, tomorrow: string): Cart.LineInfo
  {
    var p := lp.product;
    Cart.LineInfo(
      lp.id, p.name,
      if st.selectedWeight != "" then st.selectedWeight else "Standard",
      st.isEggless,
      if st.selectedPrice != 0.0 then st.selectedPrice else p.price,
      if |p.images| > 0 then p.images[0] else "",
      if p.isPreOrder then st.preOrderDate else tomorrow,
      if p.isPreOrder then st.preOrderTime else DefaultSlot,
      p.isPreOrder,
      p.preOrderDeliveryDate)
  }

  /** The number of loop iterations for a quantity. */
  function Units(q: int): nat
  {
    if q > 0 then q else 0
  }

  /** `handleAddToCart`: the guards in order, then `addToCart` once per unit. */
  method HandleAddToCart(cart: seq<Cart.CartLine>, product: Option<LoadedProduct>, st: PageState, tomorrow: string)
    returns (refusal: Option<AddRefusal>, cart': seq<Cart.CartLine>)
    ensures refusal == AddGuard(product, st)
    ensures refusal.Some? ==> cart' == cart
    ensures refusal.None? ==> cart' == Cart.AddTimes(cart, CartItemFor(product.value, st, tomorrow), Units(st.quantity))
  {
    cart' := cart;
    if product.None? {
      return Some(NoProduct), cart;
    }
    var p := product.value.product;
    if |p.weightOptions| > 0 && st.selectedWeight == "" {
      return Some(NeedWeight), cart;
    }
    var deliveryDate, deliveryTime;
    if p.isPreOrder {
      if st.preOrderDate == "" {
        return Some(NeedDate), cart;
      }
      if st.preOrderTime == "" {
        return Some(NeedTime), cart;
      }
      deliveryDate, deliveryTime := st.preOrderDate, st.preOrderTime;
    } else {
      deliveryDate, deliveryTime := tomorrow, DefaultSlot;
    }
    var weight := if st.selectedWeight != "" then st.selectedWeight else "Standard";
    var price := if st.selectedPrice != 0.0 then st.selectedPrice else p.price;
    var item := Cart.LineInfo(product.value.id, p.name, weight, st.isEggless, price,
                              if |p.images| > 0 then p.images[0] else "",
                              deliveryDate, deliveryTime, p.isPreOrder, p.preOrderDeliveryDate);
    assert item == CartItemFor(product.value, st, tomorrow);
    var i := 0;
    while i < st.quantity
      invariant 0 <= i <= Units(st.quantity)
      invariant cart' == Cart.AddTimes(cart, item, i)
    {
      cart' := Cart.AddToCart(cart', item);
      i := i + 1;
    }
    refusal := None;
  }

  /** Adding with quantity n raises the quantity of the item's line by n, or appends a line
      of quantity n when the cart had none with its key; the cart stays free of duplicate
      keys and the other lines are unchanged. */
  lemma AddRaisesQuantityByN(cart: seq<Cart.CartLine>, lp: LoadedProduct, st: PageState, tomorrow: string)
    requires Cart.Valid(cart) && AddGuard(Some(lp), st).None? && st.quantity >= 1
    ensures var item := CartItemFor(lp, st, tomorrow);
            var cart' := Cart.AddTimes(cart, item, Units(st.quantity));
            && Cart.Valid(cart')
            && (forall j :: 0 <= j < |cart| && Cart.Matches(cart[j], Cart.KeyOf(item)) ==>
                  |cart'| == |cart| && cart'[j].quantity == cart[j].quantity + st.quantity &&
                  forall i :: 0 <= i < |cart| && i != j ==> cart'[i] == cart[i])
            && ((forall j :: 0 <= j < |cart| ==> !Cart.Matches(cart[j], Cart.KeyOf(item))) ==>
                  cart' == cart + [Cart.CartLine(item, st.quantity)])
  {
    var item := CartItemFor(lp, st, tomorrow);
    forall j | 0 <= j < |cart| && Cart.Matches(cart[j], Cart.KeyOf(item))
      ensures var cart' := Cart.AddTimes(cart, item, Units(st.quantity));
              |cart'| == |cart| && cart'[j].quantity == cart[j].quantity + st.quantity &&
              forall i :: 0 <= i < |cart| && i != j ==> cart'[i] == cart[i]
    {
      Cart.AddTimesExisting(cart, item, j, Units(st.quantity));
    }
    if forall j :: 0 <= j < |cart| ==> !Cart.Matches(cart[j], Cart.KeyOf(item)) {
      Cart.AddTimesAbsent(cart, item, Units(st.quantity));
    } else {
      var j :| 0 <= j < |cart| && Cart.Matches(cart[j], Cart.KeyOf(item));
      Cart.AddTimesExisting(cart, item, j, Units(st.quantity));
    }
  }

  /** The line's weight falls back to "Standard" and its price to the product's price; a
      product that is not a pre-order is delivered tomorrow in the morning slot. */
  lemma CartItemFallbacks(lp: LoadedProduct, st: PageState, tomorrow: string)
    ensures var item := CartItemFor(lp, st, tomorrow);
            && (item.weight == "Standard" <==> st.selectedWeight == "" || st.selectedWeight == "Standard")
            && (st.selectedPrice == 0.0 ==> item.price == lp.product.price)
            && (st.selectedPrice != 0.0 ==> item.price == st.selectedPrice)
            && (!lp.product.isPreOrder ==> item.deliveryDate == tomorrow && item.deliveryTime == "09:00-12:00")
            && (lp.product.isPreOrder ==> item.deliveryDate == st.preOrderDate && item.deliveryTime == st.preOrderTime)
  {
  }

  /** A product with weight options cannot be added before a weight is chosen, and a
      pre-order needs both its date and its time. */
  lemma GuardRules(lp: LoadedProduct, st: PageState)
    ensures |lp.product.weightOptions| > 0 && st.selectedWeight == "" ==> AddGuard(Some(lp), st) == Some(NeedWeight)
    ensures AddGuard(Some(lp), st).None? && lp.product.isPreOrder ==> st.preOrderDate != "" && st.preOrderTime != ""
    ensures !lp.product.isPreOrder && (|lp.product.weightOptions| == 0 || st.selectedWeight != "") ==>
              AddGuard(Some(lp), st).None?
  {
  }
}
