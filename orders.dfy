/** The order routes of backend/routes/orders.js. The database is a value
    (`Db`) passed in and, for the handlers that write, passed back; the
    clock, the caller's identity and the id the database would give a new
    order are parameters. */
module OrderRoutes {
  import opened Common
  import opened Users
  import P = ProductModel
  import opened OrderModel

  datatype Address = Address(userId: string, pincode: string)

  datatype DeliveryPincode = DeliveryPincode(pincode: string, isActive: bool)

  /** A coupon as the create-order handler reads it. `usageLimit` and
      `maxDiscount` are 0 when unset (both are falsy in the source). */
  datatype Coupon = Coupon(
    code: string,
    isActive: bool,
    validFrom: int,
    validUntil: int,
    usageLimit: int,
    usedCount: int,
    minOrderAmount: real,
    discountType: string,
    discountValue: real,
    maxDiscount: real)

  datatype Db = Db(
    users: map<string, User>,
    addresses: map<string, Address>,
    pincodes: seq<DeliveryPincode>,
    products: map<string, P.Product>,
    coupons: seq<Coupon>,
    orders: map<string, Order>)

  /** An HTTP response: a status with a JSON body, or a status with an error message. */
  datatype Reply<T> = Ok(status: int, body: T) | Fail(status: int, message: string)

  // ---------------------------------------------------------------------
  // POST / : create an order

  /** The request's `deliveryDate`: absent or empty, not a date, or a parsed instant. */
  datatype DateInput = Missing | Unparsable | Parsed(time: int)

  datatype CreateRequest = CreateRequest(
    items: seq<OrderItem>,
    addressId: string,
    couponCode: string,
    paymentMethod: string,
    deliveryDate: DateInput,
    deliveryTime: Option<string>,
    razorpayOrderId: string,
    razorpayPaymentId: string)

  predicate AddressOwned(addresses: map<string, Address>, addressId: string, userId: string)
  {
    addressId in addresses && addresses[addressId].userId == userId
  }

  /** `DeliveryPincode.findOne({pincode, isActive: true})` finds a record. */
  predicate PincodeActive(pincodes: seq<DeliveryPincode>, pincode: string)
  {
    exists k :: 0 <= k < |pincodes| && pincodes[k].pincode == pincode && pincodes[k].isActive
  }

  datatype ItemError = ProductUnavailable(name: string) | InvalidWeight(name: string)

  /** The outcome of pricing items: an amount, or the first item that was refused. */
  datatype Pricing = Priced(amount: real) | Rejected(error: ItemError)

  /** One pass of the subtotal loop: the stored price of the chosen weight times the quantity. */
  function CheckItem(item: OrderItem, products: map<string, P.Product>): Pricing
  {
    if item.productId !in products || !products[item.productId].isActive then
      Rejected(ProductUnavailable(item.name))
    else
      match P.FindWeight(products[item.productId].weightOptions, item.weight)
      case None => Rejected(InvalidWeight(item.name))
      case Some(w) => Priced(w.price * item.quantity as real)
  }

  /** The subtotal of a list of items, or the first refusal, scanning front to back. */
  function PriceItems(items: seq<OrderItem>, products: map<string, P.Product>): Pricing
    decreases |items|
  {
    if items == [] then Priced(0.0)
    else
      match PriceItems(items[..|items| - 1], products)
      case Rejected(e) => Rejected(e)
      case Priced(s) =>
        match CheckItem(items[|items| - 1], products)
        case Rejected(e) => Rejected(e)
        case Priced(a) => Priced(s + a)
  }

  /** The subtotal loop: accumulates the stored prices and stops at the first refused item. */
  method ComputeSubtotal(items: seq<OrderItem>, products: map<string, P.Product>)
    returns (r: Pricing)
    ensures r == PriceItems(items, products)
  {
    var subtotal := 0.0;
    var i := 0;
    while i < |items|
      invariant 0 <= i <= |items|
      invariant PriceItems(items[..i], products) == Priced(subtotal)
    {
      var item := items[i];
      assert items[..i + 1][..i] == items[..i];
      if item.productId !in products || !products[item.productId].isActive {
        assert PriceItems(items[..i + 1], products) == Rejected(ProductUnavailable(item.name));
        PricingRejectedExtends(items, products, i + 1);
        return Rejected(ProductUnavailable(item.name));
      }
      var weightOption := P.FindWeight(products[item.productId].weightOptions, item.weight);
      if weightOption.None? {
        assert PriceItems(items[..i + 1], products) == Rejected(InvalidWeight(item.name));
        PricingRejectedExtends(items, products, i + 1);
        return Rejected(InvalidWeight(item.name));
      }
      subtotal := subtotal + weightOption.value.price * item.quantity as real;
      i := i + 1;
    }
    assert items[..i] == items;
    r := Priced(subtotal);
  }

  /** Once a prefix is refused, every longer prefix is refused with the same error. */
  lemma {:induction false} PricingRejectedExtends(items: seq<OrderItem>, products: map<string, P.Product>, n: nat)
    requires n <= |items| && PriceItems(items[..n], products).Rejected?
    ensures PriceItems(items, products) == PriceItems(items[..n], products)
    decreases |items| - n
  {
    if n < |items| {
      assert items[..n + 1][..n] == items[..n];
      PricingRejectedExtends(items, products, n + 1);
    } else {
      assert items[..n] == items;
    }
  }

  /** Items are priced exactly when every item passes its checks. */
  lemma {:induction false} PricedIffAllItemsPass(items: seq<OrderItem>, products: map<string, P.Product>)
    ensures PriceItems(items, products).Priced? <==>
              forall k :: 0 <= k < |items| ==> CheckItem(items[k], products).Priced?
    decreases |items|
  {
    if items != [] {
      var init := items[..|items| - 1];
      PricedIffAllItemsPass(init, products);
      assert forall k :: 0 <= k < |init| ==> init[k] == items[k];
    }
  }

  /** A refusal names the first item that fails its checks. */
  lemma {:induction false} RejectionIsFirstFailure(items: seq<OrderItem>, products: map<string, P.Product>)
    requires PriceItems(items, products).Rejected?
    ensures exists k :: 0 <= k < |items| &&
              CheckItem(items[k], products) == PriceItems(items, products) &&
              forall j :: 0 <= j < k ==> CheckItem(items[j], products).Priced?
    decreases |items|
  {
    var init := items[..|items| - 1];
    assert forall k :: 0 <= k < |init| ==> init[k] == items[k];
    if PriceItems(init, products).Rejected? {
      RejectionIsFirstFailure(init, products);
      var k :| 0 <= k < |init| && CheckItem(init[k], products) == PriceItems(init, products) &&
               forall j :: 0 <= j < k ==> CheckItem(init[j], products).Priced?;
      assert CheckItem(items[k], products) == PriceItems(items, products);
    } else {
      PricedIffAllItemsPass(init, products);
      assert CheckItem(items[|items| - 1], products) == PriceItems(items, products);
    }
  }

  /** Two item lists that differ only in what the client claims as price. */
  predicate SameButPrice(a: seq<OrderItem>, b: seq<OrderItem>)
  {
    |a| == |b| && forall k :: 0 <= k < |a| ==> a[k].(price := 0.0) == b[k].(price := 0.0)
  }

  /** The price the client sends with each item plays no part in the subtotal. */
  lemma {:induction false} ClientPriceIgnored(a: seq<OrderItem>, b: seq<OrderItem>, products: map<string, P.Product>)
    requires SameButPrice(a, b)
    ensures PriceItems(a, products) == PriceItems(b, products)
    decreases |a|
  {
    if a != [] {
      var n := |a| - 1;
      assert a[n].(price := 0.0) == b[n].(price := 0.0);
      assert a[n].productId == b[n].productId && a[n].weight == b[n].weight;
      assert a[n].quantity == b[n].quantity && a[n].name == b[n].name;
      assert SameButPrice(a[..n], b[..n]) by {
        forall k | 0 <= k < n ensures a[..n][k].(price := 0.0) == b[..n][k].(price := 0.0) {
          assert a[..n][k] == a[k] && b[..n][k] == b[k];
        }
      }
      ClientPriceIgnored(a[..n], b[..n], products);
    }
  }

  /** A product whose stored prices are non-negative prices every non-negative quantity
      at a non-negative amount. */
  lemma CheckItemNonNegative(item: OrderItem, products: map<string, P.Product>)
    requires item.productId in products ==> P.SchemaValid(products[item.productId])
    requires item.quantity >= 0
    requires CheckItem(item, products).Priced?
    ensures CheckItem(item, products).amount >= 0.0
  {
    var options := products[item.productId].weightOptions;
    var w := P.FindWeight(options, item.weight).value;
    var k :| 0 <= k < |options| && options[k] == w;
    assert P.WeightOptionValid(options[k]);
    assert w.price >= 0.0 && item.quantity as real >= 0.0;
  }

  /** With non-negative stored prices and non-negative quantities the subtotal is non-negative. */
  lemma {:induction false} SubtotalNonNegative(items: seq<OrderItem>, products: map<string, P.Product>)
    requires forall id :: id in products ==> P.SchemaValid(products[id])
    requires forall k :: 0 <= k < |items| ==> items[k].quantity >= 0
    requires PriceItems(items, products).Priced?
    ensures PriceItems(items, products).amount >= 0.0
    decreases |items|
  {
    if items != [] {
      var init := items[..|items| - 1];
      assert forall k :: 0 <= k < |init| ==> init[k] == items[k];
      SubtotalNonNegative(init, products);
      CheckItemNonNegative(items[|items| - 1], products);
    }
  }

  predicate CouponMatches(c: Coupon, code: string, now: int)
  {
    c.code == ToUpper(code) && c.isActive && c.validFrom <= now <= c.validUntil
  }

  /** `Coupon.findOne` on the upper-cased code, active and valid now: the index of the first match. */
  function FindCoupon(coupons: seq<Coupon>, code: string, now: int, from: nat): (r: Option<nat>)
    requires from <= |coupons|
    ensures r.Some? ==> from <= r.value < |coupons| && CouponMatches(coupons[r.value], code, now) &&
                        forall j :: from <= j < r.value ==> !CouponMatches(coupons[j], code, now)
    ensures r.None? ==> forall j :: from <= j < |coupons| ==> !CouponMatches(coupons[j], code, now)
    decreases |coupons| - from
  {
    if from == |coupons| then None
    else if CouponMatches(coupons[from], code, now) then Some(from)
    else FindCoupon(coupons, code, now, from + 1)
  }

  /** The coupon the handler looks up: none when no code was sent. */
  function AppliedCoupon(coupons: seq<Coupon>, code: string, now: int): Option<nat>
  {
    if code == "" then None else FindCoupon(coupons, code, now, 0)
  }

  predicate UsageLimitReached(c: Coupon)
  {
    c.usageLimit != 0 && c.usedCount >= c.usageLimit
  }

  function Min(a: real, b: real): real
  {
    if a <= b then a else b
  }

  /** The discount a found coupon gives on a subtotal. */
  function CouponDiscount(c: Coupon, subtotal: real): (d: real)
    ensures subtotal < c.minOrderAmount ==> d == 0.0
    ensures subtotal >= c.minOrderAmount && c.discountType != "percentage" ==> d == c.discountValue
    ensures subtotal >= c.minOrderAmount && c.discountType == "percentage" ==>
              && d <= subtotal * c.discountValue / 100.0
              && (c.maxDiscount != 0.0 ==> d <= c.maxDiscount)
              && (d == subtotal * c.discountValue / 100.0 || (c.maxDiscount != 0.0 && d == c.maxDiscount))
  {
    if subtotal >= c.minOrderAmount then
      if c.discountType == "percentage" then
        var pct := subtotal * c.discountValue / 100.0;
        if c.maxDiscount != 0.0 then Min(pct, c.maxDiscount) else pct
      else c.discountValue
    else 0.0
  }

  /** A percentage coupon of at most 100% with a non-negative cap never discounts more
      than the subtotal, so the total stays non-negative. */
  lemma PercentageDiscountBounded(c: Coupon, subtotal: real)
    requires c.discountType == "percentage" && 0.0 <= c.discountValue <= 100.0
    requires c.maxDiscount >= 0.0 && subtotal >= 0.0
    ensures 0.0 <= CouponDiscount(c, subtotal) <= subtotal
  {
    if subtotal >= c.minOrderAmount {
      var pct := subtotal * c.discountValue / 100.0;
      assert subtotal * c.discountValue >= 0.0;
      assert subtotal * (100.0 - c.discountValue) >= 0.0;
      assert subtotal * c.discountValue <= subtotal * 100.0;
      assert 0.0 <= pct <= subtotal;
    }
  }

  /** A flat coupon is not limited by the subtotal: whenever its value exceeds a subtotal
      that reaches its minimum, the whole value is discounted and the order's total goes
      below zero. */
  lemma FlatDiscountCanExceedSubtotal(userId: string, req: CreateRequest, c: Coupon, subtotal: real)
    requires req.deliveryDate.Parsed?
    requires c.discountType == "flat" && c.minOrderAmount <= subtotal < c.discountValue
    ensures CouponDiscount(c, subtotal) == c.discountValue
    ensures BuildOrder(userId, req, subtotal, CouponDiscount(c, subtotal)).total < 0.0
  {
  }

  /** The order document the handler builds once every check has passed. */
  function BuildOrder(userId: string, req: CreateRequest, subtotal: real, discount: real): Order
    requires req.deliveryDate.Parsed?
  {
    var deliveryCharge := 0.0;
    var total := subtotal - discount + deliveryCharge;
    var commissionPercentage := 10.0;
    Order(userId, req.addressId, None, None, req.items, subtotal, discount, req.couponCode,
          deliveryCharge, total, total * commissionPercentage / 100.0, commissionPercentage,
          Some("Pending"), if req.paymentMethod == "Cash on Delivery" then "Pending" else "Paid",
          req.paymentMethod, req.razorpayOrderId, req.razorpayPaymentId,
          req.deliveryDate.time, req.deliveryTime)
  }

  /** The discount of a request whose items were priced at `subtotal`. */
  function RequestDiscount(db: Db, req: CreateRequest, now: int, subtotal: real): real
  {
    var c := AppliedCoupon(db.coupons, req.couponCode, now);
    if c.Some? then CouponDiscount(db.coupons[c.value], subtotal) else 0.0
  }

  /** The quantity of a product over a list of items. */
  function QuantityOf(items: seq<OrderItem>, id: string): int
    decreases |items|
  {
    if items == [] then 0
    else QuantityOf(items[..|items| - 1], id) +
         (if items[|items| - 1].productId == id then items[|items| - 1].quantity else 0)
  }

  /** The products after each item's quantity has been added to its product's orderCount. */
  function Bumped(products: map<string, P.Product>, items: seq<OrderItem>): map<string, P.Product>
  {
    map id | id in products :: products[id].(orderCount := products[id].orderCount + QuantityOf(items, id))
  }

  /** The per-item `$inc` of orderCount, one update per item. */
  method IncrementOrderCounts(products: map<string, P.Product>, items: seq<OrderItem>)
    returns (r: map<string, P.Product>)
    ensures r == Bumped(products, items)
  {
    r := products;
    var i := 0;
    while i < |items|
      invariant 0 <= i <= |items|
      invariant r == Bumped(products, items[..i])
    {
      var item := items[i];
      assert items[..i + 1][..i] == items[..i];
      if item.productId in r {
        r := r[item.productId := r[item.productId].(orderCount := r[item.productId].orderCount + item.quantity)];
      }
      i := i + 1;
    }
    assert items[..i] == items;
  }

  /** The first reason the handler refuses a request, if any. */
  function Rejection(db: Db, userId: string, req: CreateRequest, now: int, newId: string): Option<(int, string)>
  {
    if !req.deliveryDate.Parsed? then Some((400, "Invalid or missing deliveryDate"))
    else if !AddressOwned(db.addresses, req.addressId, userId) then Some((404, "Address not found"))
    else if !PincodeActive(db.pincodes, db.addresses[req.addressId].pincode) then
      Some((400, "Delivery not available for this pincode"))
    else
      match PriceItems(req.items, db.products)
      case Rejected(ProductUnavailable(n)) => Some((400, "Product " + n + " not available"))
      case Rejected(InvalidWeight(n)) => Some((400, "Invalid weight option for " + n))
      case Priced(subtotal) =>
        var c := AppliedCoupon(db.coupons, req.couponCode, now);
        if c.Some? && UsageLimitReached(db.coupons[c.value]) then Some((400, "Coupon usage limit reached"))
        else if !SchemaValid(BuildOrder(userId, req, subtotal, RequestDiscount(db, req, now, subtotal)))
                || newId in db.orders then
          Some((500, "Server error"))
        else None
  }

  /** The whole effect of the create-order handler: its response and the database afterwards. */
  function Create(db: Db, userId: string, req: CreateRequest, now: int, newId: string): (Reply<Order>, Db)
  {
    match Rejection(db, userId, req, now, newId)
    case Some((status, message)) => (Fail(status, message), db)
    case None =>
      var subtotal := PriceItems(req.items, db.products).amount;
      var order := BuildOrder(userId, req, subtotal, RequestDiscount(db, req, now, subtotal));
      var c := AppliedCoupon(db.coupons, req.couponCode, now);
      var coupons := if c.Some? then db.coupons[c.value := db.coupons[c.value].(usedCount := db.coupons[c.value].usedCount + 1)]
                     else db.coupons;
      (Ok(201, order), db.(orders := db.orders[newId := order],
                           products := Bumped(db.products, req.items),
                           coupons := coupons))
  }

  /** The coupon step of POST /: find the coupon named by the (non-empty) code, refuse it
      at its usage limit, else compute its discount on the subtotal. */
  method ApplyCoupon(coupons: seq<Coupon>, code: string, now: int, subtotal: real)
    returns (refused: bool, coupon: Option<nat>, discount: real)
    ensures coupon == AppliedCoupon(coupons, code, now)
    ensures refused <==> coupon.Some? && UsageLimitReached(coupons[coupon.value])
    ensures !refused ==> discount == if coupon.Some? then CouponDiscount(coupons[coupon.value], subtotal) else 0.0
  {
    refused, coupon, discount := false, None, 0.0;
    if code != "" {
      coupon := FindCoupon(coupons, code, now, 0);
      if coupon.Some? {
        var c := coupons[coupon.value];
        if c.usageLimit != 0 && c.usedCount >= c.usageLimit {
          return true, coupon, 0.0;
        }
        if subtotal >= c.minOrderAmount {
          if c.discountType == "percentage" {
            discount := subtotal * c.discountValue / 100.0;
            if c.maxDiscount != 0.0 {
              discount := Min(discount, c.maxDiscount);
            }
          } else {
            discount := c.discountValue;
          }
        }
      }
    }
  }

  /** POST /: the checks in order, the subtotal loop, the coupon, the save and the counters. */
  method CreateOrder(db: Db, userId: string, req: CreateRequest, now: int, newId: string)
    returns (resp: Reply<Order>, db': Db)
    ensures (resp, db') == Create(db, userId, req, now, newId)
  {
    db' := db;
    if !req.deliveryDate.Parsed? {
      return Fail(400, "Invalid or missing deliveryDate"), db;
    }
    if req.addressId !in db.addresses || db.addresses[req.addressId].userId != userId {
      return Fail(404, "Address not found"), db;
    }
    var address := db.addresses[req.addressId];
    if !PincodeActive(db.pincodes, address.pincode) {
      return Fail(400, "Delivery not available for this pincode"), db;
    }
    var priced := ComputeSubtotal(req.items, db.products);
    if priced.Rejected? {
      match priced.error
      case ProductUnavailable(n) => return Fail(400, "Product " + n + " not available"), db;
      case InvalidWeight(n) => return Fail(400, "Invalid weight option for " + n), db;
    }
    var subtotal := priced.amount;
    var refused, coupon, discount := ApplyCoupon(db.coupons, req.couponCode, now, subtotal);
    if refused {
      return Fail(400, "Coupon usage limit reached"), db;
    }
    assert discount == RequestDiscount(db, req, now, subtotal);
    var order := BuildOrder(userId, req, subtotal, discount);
    if !SchemaValid(order) || newId in db.orders {
      return Fail(500, "Server error"), db;
    }
    db' := db'.(orders := db.orders[newId := order]);
    var products := IncrementOrderCounts(db.products, req.items);
    db' := db'.(products := products);
    if coupon.Some? {
      var c := db.coupons[coupon.value];
      db' := db'.(coupons := db'.coupons[coupon.value := c.(usedCount := c.usedCount + 1)]);
    }
    resp := Ok(201, order);
  }

  /** A refused request leaves the database untouched; the first failing check decides the status. */
  lemma CreateRejectionOrder(db: Db, userId: string, req: CreateRequest, now: int, newId: string)
    ensures Create(db, userId, req, now, newId).0.Fail? ==> Create(db, userId, req, now, newId).1 == db
    ensures !req.deliveryDate.Parsed? ==>
              Create(db, userId, req, now, newId).0 == Fail(400, "Invalid or missing deliveryDate")
    ensures req.deliveryDate.Parsed? && !AddressOwned(db.addresses, req.addressId, userId) ==>
              Create(db, userId, req, now, newId).0 == Fail(404, "Address not found")
    ensures req.deliveryDate.Parsed? && AddressOwned(db.addresses, req.addressId, userId) &&
            !PincodeActive(db.pincodes, db.addresses[req.addressId].pincode) ==>
              Create(db, userId, req, now, newId).0 == Fail(400, "Delivery not available for this pincode")
    ensures req.deliveryDate.Parsed? && AddressOwned(db.addresses, req.addressId, userId) &&
            PincodeActive(db.pincodes, db.addresses[req.addressId].pincode) &&
            (exists k :: 0 <= k < |req.items| && CheckItem(req.items[k], db.products).Rejected?) ==>
              Create(db, userId, req, now, newId).0.Fail? && Create(db, userId, req, now, newId).0.status == 400
  {
    PricedIffAllItemsPass(req.items, db.products);
  }

  /** The order a successful request stores: priced from the catalog, discounted by the
      coupon, with the fixed delivery charge and commission rate, and a payment status
      that is Pending exactly for cash on delivery. */
  lemma CreatedOrderPricing(db: Db, userId: string, req: CreateRequest, now: int, newId: string)
    requires Create(db, userId, req, now, newId).0.Ok?
    ensures var (resp, db') := Create(db, userId, req, now, newId);
            var o := resp.body;
            && resp.status == 201
            && PriceItems(req.items, db.products) == Priced(o.subtotal)
            && o.discount == RequestDiscount(db, req, now, o.subtotal)
            && o.deliveryCharge == 0.0
            && o.total == o.subtotal - o.discount + o.deliveryCharge
            && o.commissionPercentage == 10.0
            && o.commission == o.total * 10.0 / 100.0
            && (o.paymentStatus == "Pending" <==> req.paymentMethod == "Cash on Delivery")
            && (o.paymentStatus == "Paid" <==> req.paymentMethod != "Cash on Delivery")
            && o.orderStatus == Some("Pending")
            && o.items == req.items && o.userId == userId
            && db'.orders == db.orders[newId := o]
            && SchemaValid(o)
  {
  }

  /** Every item of a stored order has quantity at least 1, and its subtotal is non-negative
      when the catalog satisfies the product schema. */
  lemma CreatedOrderItemsValid(db: Db, userId: string, req: CreateRequest, now: int, newId: string)
    requires Create(db, userId, req, now, newId).0.Ok?
    requires forall id :: id in db.products ==> P.SchemaValid(db.products[id])
    ensures forall k :: 0 <= k < |req.items| ==> req.items[k].quantity >= 1
    ensures Create(db, userId, req, now, newId).0.body.subtotal >= 0.0
  {
    var o := Create(db, userId, req, now, newId).0.body;
    assert SchemaValid(o);
    assert forall k :: 0 <= k < |req.items| ==> ItemValid(o.items[k]);
    SubtotalNonNegative(req.items, db.products);
  }

  /** A coupon at its usage limit refuses the order; otherwise a found coupon's usedCount
      rises by exactly one, even when its discount is zero, and no other coupon changes. */
  lemma CouponUsage(db: Db, userId: string, req: CreateRequest, now: int, newId: string)
    requires req.deliveryDate.Parsed? && AddressOwned(db.addresses, req.addressId, userId)
    requires PincodeActive(db.pincodes, db.addresses[req.addressId].pincode)
    requires PriceItems(req.items, db.products).Priced?
    ensures var c := AppliedCoupon(db.coupons, req.couponCode, now);
            c.Some? && UsageLimitReached(db.coupons[c.value]) ==>
              Create(db, userId, req, now, newId) == (Fail(400, "Coupon usage limit reached"), db)
    ensures var c := AppliedCoupon(db.coupons, req.couponCode, now);
            var (resp, db') := Create(db, userId, req, now, newId);
            resp.Ok? ==>
              && |db'.coupons| == |db.coupons|
              && (forall j :: 0 <= j < |db.coupons| && Some(j) != c ==> db'.coupons[j] == db.coupons[j])
              && (c.Some? ==> db'.coupons[c.value] == db.coupons[c.value].(usedCount := db.coupons[c.value].usedCount + 1))
  {
  }

  /** After a successful order each product's orderCount has risen by the quantity ordered
      of it, and nothing else about the catalog has changed. */
  lemma OrderCountsRise(db: Db, userId: string, req: CreateRequest, now: int, newId: string, id: string)
    requires Create(db, userId, req, now, newId).0.Ok?
    ensures var db' := Create(db, userId, req, now, newId).1;
            && db'.products.Keys == db.products.Keys
            && (id in db.products ==>
                  db'.products[id] == db.products[id].(orderCount := db.products[id].orderCount + QuantityOf(req.items, id)))
  {
  }

  /** The quantity of one product over a list split in two is the sum over the two parts. */
  lemma {:induction false} QuantityOfAppend(a: seq<OrderItem>, b: seq<OrderItem>, id: string)
    ensures QuantityOf(a + b, id) == QuantityOf(a, id) + QuantityOf(b, id)
    decreases |b|
  {
    if b == [] {
      assert a + b == a;
    } else {
      var b' := b[..|b| - 1];
      assert (a + b)[..|a + b| - 1] == a + b';
      QuantityOfAppend(a, b', id);
    }
  }

  // ---------------------------------------------------------------------
  // GET /:id : access check

  /** `toString` of a populated user document. Mongoose prints the document, braces and
      fields, rather than its id; of this text only its opening brace matters here. */
  function DocumentText(id: string, u: User): (r: string)
    ensures |r| > 0 && r[0] == '{'
  {
    "{ _id: new ObjectId('" + id + "'), name: '" + u.name + "', mobileNumber: '" + u.mobileNumber + "' }"
  }

  /** `order.deliveryBoyId?.toString()` once `populate` has replaced the reference: no
      reference, or one to a missing user, gives `undefined` (None); a found user gives
      the text of the user's document. */
  function PopulatedRefText(users: map<string, User>, ref: Option<string>): (r: Option<string>)
    ensures r.Some? <==> ref.Some? && ref.value in users
    ensures r.Some? ==> |r.value| > 0 && r.value[0] == '{'
  {
    if ref.Some? && ref.value in users then Some(DocumentText(ref.value, users[ref.value])) else None
  }

  /** The text of a MongoDB ObjectId: 24 lower-case hexadecimal digits. */
  predicate IsObjectIdText(s: string)
  {
    |s| == 24 && forall k :: 0 <= k < |s| ==> s[k] in "0123456789abcdef"
  }

  /** GET /:id as written: the delivery boy's check compares the text of the populated
      reference with the caller's id. */
  function GetOrderAsWritten(db: Db, orderId: string, role: Role, userId: string): (r: Reply<Order>)
    ensures orderId !in db.orders ==> r == Fail(404, "Order not found")
    ensures r.Ok? <==>
              orderId in db.orders &&
              (role == Customer ==> db.orders[orderId].userId == userId) &&
              (role == DeliveryBoy ==> PopulatedRefText(db.users, db.orders[orderId].deliveryBoyId) == Some(userId))
    ensures r.Ok? ==> r.body == db.orders[orderId]
    ensures orderId in db.orders && r.Fail? ==> r == Fail(403, "Access denied")
  {
    if orderId !in db.orders then Fail(404, "Order not found")
    else
      var o := db.orders[orderId];
      if role == Customer && o.userId != userId then Fail(403, "Access denied")
      else if role == DeliveryBoy && PopulatedRefText(db.users, o.deliveryBoyId) != Some(userId) then
        Fail(403, "Access denied")
      else Ok(200, o)
  }

  /** As written, no delivery boy can read an existing order, not even one assigned to
      them, because a document's text never equals an ObjectId's text. For an assigned
      delivery boy the intended rule (GetOrder) grants the order. */
  lemma AssignedDeliveryBoyRefused(db: Db, orderId: string, userId: string)
    requires orderId in db.orders && IsObjectIdText(userId)
    ensures GetOrderAsWritten(db, orderId, DeliveryBoy, userId) == Fail(403, "Access denied")
    ensures db.orders[orderId].deliveryBoyId == Some(userId) ==> GetOrder(db, orderId, DeliveryBoy, userId).Ok?
  {
    var t := PopulatedRefText(db.users, db.orders[orderId].deliveryBoyId);
    if t.Some? {
      assert t.value[0] != userId[0];
    }
  }

  /** Who may read an order: its customer, its assigned delivery boy, any admin. This is
      the evidently intended rule; GetOrderAsWritten is the rule the handler applies. */
  predicate MayRead(role: Role, userId: string, o: Order)
  {
    (role == Customer ==> o.userId == userId) &&
    (role == DeliveryBoy ==> o.deliveryBoyId == Some(userId))
  }

  function GetOrder(db: Db, orderId: string, role: Role, userId: string): (r: Reply<Order>)
    ensures orderId !in db.orders ==> r == Fail(404, "Order not found")
    ensures orderId in db.orders && !MayRead(role, userId, db.orders[orderId]) ==> r == Fail(403, "Access denied")
    ensures r.Ok? <==> orderId in db.orders && MayRead(role, userId, db.orders[orderId])
    ensures r.Ok? ==> r.body == db.orders[orderId]
  {
    if orderId !in db.orders then Fail(404, "Order not found")
    else
      var o := db.orders[orderId];
      if role == Customer && o.userId != userId then Fail(403, "Access denied")
      else if role == DeliveryBoy && o.deliveryBoyId != Some(userId) then Fail(403, "Access denied")
      else Ok(200, o)
  }

  /** A customer reads only their own orders, a delivery boy only the orders assigned to
      them, an admin every order. */
  lemma AccessRules(db: Db, orderId: string, userId: string)
    requires orderId in db.orders
    ensures GetOrder(db, orderId, Customer, userId).Ok? <==> db.orders[orderId].userId == userId
    ensures GetOrder(db, orderId, DeliveryBoy, userId).Ok? <==> db.orders[orderId].deliveryBoyId == Some(userId)
    ensures GetOrder(db, orderId, SuperAdmin, userId).Ok?
  {
  }

  // ---------------------------------------------------------------------
  // GET /admin/all : pagination arithmetic

  /** The number of orders skipped for a page; `page` defaults to 1 and `limit` to 20. */
  function Skip(page: Option<int>, limit: Option<int>): int
  {
    var p := if page.Some? then page.value else 1;
    var l := if limit.Some? then limit.value else 20;
    (p - 1) * l
  }

  /** `Math.ceil(t / l)` for a non-negative integer `t` and a non-zero integer `l`. */
  function CeilDiv(t: nat, l: int): int
    requires l != 0
  {
    if l > 0 then (t + l - 1) / l else -(t / -l)
  }

  /** `Math.ceil(total / limit)`; a zero limit gives no finite page count. */
  function TotalPages(total: nat, limit: Option<int>): Option<int>
  {
    var l := if limit.Some? then limit.value else 20;
    if l == 0 then None else Some(CeilDiv(total, l))
  }

  /** With a positive limit the pages exactly cover the orders: the last page is not empty,
      and the page after it starts past the end. */
  lemma PagesCoverOrders(total: nat, l: int)
    requires l > 0
    ensures TotalPages(total, Some(l)).Some?
    ensures var n := TotalPages(total, Some(l)).value;
            && n >= 0
            && total <= n * l
            && (total > 0 ==> Skip(Some(n), Some(l)) < total)
            && Skip(Some(n + 1), Some(l)) >= total
  {
    var n := (total + l - 1) / l;
    var r := (total + l - 1) % l;
    assert total + l - 1 == l * n + r && 0 <= r < l;
    assert n * l == l * n;
    assert (n - 1) * l == n * l - l;
    assert (n + 1 - 1) * l == n * l;
  }

  /** An absent page is page 1 and an absent limit is 20: the first page skips nothing, and
      page p of the default size starts at order 20 * (p - 1). */
  lemma DefaultPageSize(page: int, limit: Option<int>, total: nat)
    ensures Skip(None, limit) == 0 && Skip(Some(1), limit) == 0
    ensures Skip(Some(page), None) == Skip(Some(page), Some(20)) == 20 * (page - 1)
    ensures TotalPages(total, None) == TotalPages(total, Some(20)) == Some((total + 19) / 20)
    ensures Skip(None, None) == 0 && Skip(Some(3), None) == 40
    ensures TotalPages(45, None) == Some(3) && TotalPages(40, None) == Some(2)
  {
  }

  // ---------------------------------------------------------------------
  // PUT /:id/status : admin status update

  /** `findByIdAndUpdate` with the new status: Mongoose runs no validators here, so any
      string is stored. */
  function UpdateStatus(db: Db, orderId: string, status: string): (r: (Reply<Order>, Db))
    ensures orderId !in db.orders ==> r == (Fail(404, "Order not found"), db)
    ensures orderId in db.orders ==>
              var o := db.orders[orderId].(orderStatus := Some(status));
              r == (Ok(200, o), db.(orders := db.orders[orderId := o]))
  {
    if orderId !in db.orders then (Fail(404, "Order not found"), db)
    else
      var o := db.orders[orderId].(orderStatus := Some(status));
      (Ok(200, o), db.(orders := db.orders[orderId := o]))
  }

  /** Every status outside the enum is stored by the admin route and answered with 200. */
  lemma AdminStatusNotValidated(db: Db, orderId: string, status: string)
    requires orderId in db.orders && ParseStatus(status).None?
    ensures var r := UpdateStatus(db, orderId, status);
            r.0 == Ok(200, r.1.orders[orderId]) && r.1.orders[orderId].orderStatus == Some(status) &&
            !StatusPassesEnum(r.1.orders[orderId].orderStatus)
  {
  }

  // ---------------------------------------------------------------------
  // PUT /:id/assign-delivery

  predicate EligibleDeliveryBoy(users: map<string, User>, id: string)
  {
    id in users && users[id].role == DeliveryBoy && users[id].isActive
  }

  /** The order after its delivery assignment is cleared. */
  function Unassigned(o: Order): Order
  {
    o.(deliveryBoyId := None, deliveryAssignedAt := None,
       orderStatus := if o.orderStatus == Some("Assigned to Delivery Boy") then Some("Preparing") else o.orderStatus)
  }

  /** The order after it is assigned to a delivery boy at time `now`. */
  function Assigned(o: Order, boyId: string, now: int): Order
  {
    o.(deliveryBoyId := Some(boyId), deliveryAssignedAt := Some(now), orderStatus := Some("Assigned to Delivery Boy"))
  }

  /** Assigns (a non-empty id) or clears (an empty id) the delivery boy of an order. The
      save validates the loaded document, so clearing an order whose stored status is
      outside the enum fails with 500 and stores nothing. */
  method AssignDelivery(db: Db, orderId: string, deliveryBoyId: string, now: int)
    returns (resp: Reply<Order>, db': Db)
    ensures orderId !in db.orders ==> resp == Fail(404, "Order not found") && db' == db
    ensures orderId in db.orders && deliveryBoyId == "" && !StatusPassesEnum(db.orders[orderId].orderStatus) ==>
              resp == Fail(500, "Server error") && db' == db
    ensures orderId in db.orders && deliveryBoyId == "" && StatusPassesEnum(db.orders[orderId].orderStatus) ==>
              resp == Ok(200, Unassigned(db.orders[orderId])) &&
              db' == db.(orders := db.orders[orderId := Unassigned(db.orders[orderId])])
    ensures orderId in db.orders && deliveryBoyId != "" && !EligibleDeliveryBoy(db.users, deliveryBoyId) ==>
              resp == Fail(400, "Invalid or inactive delivery boy") && db' == db
    ensures orderId in db.orders && deliveryBoyId != "" && EligibleDeliveryBoy(db.users, deliveryBoyId) ==>
              resp == Ok(200, Assigned(db.orders[orderId], deliveryBoyId, now)) &&
              db' == db.(orders := db.orders[orderId := Assigned(db.orders[orderId], deliveryBoyId, now)])
    ensures resp.Ok? ==> StatusPassesEnum(db'.orders[orderId].orderStatus)
  {
    if orderId !in db.orders {
      return Fail(404, "Order not found"), db;
    }
    var order := db.orders[orderId];
    if deliveryBoyId == "" {
      order := order.(deliveryBoyId := None);
      order := order.(deliveryAssignedAt := None);
      if order.orderStatus == Some("Assigned to Delivery Boy") {
        order := order.(orderStatus := Some("Preparing"));
      }
    } else {
      if deliveryBoyId !in db.users || db.users[deliveryBoyId].role != DeliveryBoy || !db.users[deliveryBoyId].isActive {
        return Fail(400, "Invalid or inactive delivery boy"), db;
      }
      order := order.(deliveryBoyId := Some(deliveryBoyId));
      order := order.(deliveryAssignedAt := Some(now));
      order := order.(orderStatus := Some("Assigned to Delivery Boy"));
    }
    if !StatusPassesEnum(order.orderStatus) {
      return Fail(500, "Server error"), db;
    }
    db' := db.(orders := db.orders[orderId := order]);
    resp := Ok(200, order);
  }

  /** Clearing moves an assigned order back to Preparing and leaves every other status alone;
      assigning and then clearing gives back the order unassigned and Preparing. */
  lemma AssignmentTransitions(o: Order, boyId: string, now: int)
    ensures Unassigned(o).deliveryBoyId == None && Unassigned(o).deliveryAssignedAt == None
    ensures o.orderStatus != Some("Assigned to Delivery Boy") ==> Unassigned(o).orderStatus == o.orderStatus
    ensures Unassigned(o).(orderStatus := o.orderStatus, deliveryBoyId := o.deliveryBoyId,
                           deliveryAssignedAt := o.deliveryAssignedAt) == o
    ensures Unassigned(Assigned(o, boyId, now)) ==
              o.(deliveryBoyId := None, deliveryAssignedAt := None, orderStatus := Some("Preparing"))
    ensures Assigned(o, boyId, now).orderStatus == Some(StatusName(AssignedToDeliveryBoy))
    ensures StatusPassesEnum(o.orderStatus) <==> StatusPassesEnum(Unassigned(o).orderStatus)
  {
  }

  // ---------------------------------------------------------------------
  // GET /delivery/my-orders and PUT /:id/delivery-status

  /** The statuses a delivery boy's list shows. */
  predicate InDeliveryList(o: Order, boyId: string)
  {
    o.deliveryBoyId == Some(boyId) &&
    o.orderStatus.Some? && o.orderStatus.value in {"Assigned to Delivery Boy", "Picked Up", "Out for Delivery"}
  }

  /** The ids of the orders a delivery boy sees. */
  function DeliveryList(orders: map<string, Order>, boyId: string): set<string>
  {
    set id | id in orders && InDeliveryList(orders[id], boyId)
  }

  /** An order just assigned to a delivery boy is on their list and on no one else's; a
      cleared, delivered or cancelled order is on nobody's list. */
  lemma DeliveryListRules(db: Db, orderId: string, boyId: string, other: string, now: int)
    requires orderId in db.orders
    ensures var orders := db.orders[orderId := Assigned(db.orders[orderId], boyId, now)];
            orderId in DeliveryList(orders, boyId) && (other != boyId ==> orderId !in DeliveryList(orders, other))
    ensures orderId !in DeliveryList(db.orders[orderId := Unassigned(db.orders[orderId])], other)
    ensures db.orders[orderId].orderStatus.None? ||
            db.orders[orderId].orderStatus.value in {"Delivered", "Cancelled", "Pending", "Preparing"} ==>
              orderId !in DeliveryList(db.orders, other)
  {
  }

  /** A delivery boy sets the status of an order assigned to them; `status` is None when the
      body has no `orderStatus`, which unsets the field. The save validates it: a status
      outside the enum fails with 500, while an unset one passes the enum check. */
  method UpdateDeliveryStatus(db: Db, orderId: string, userId: string, status: Option<string>)
    returns (resp: Reply<Order>, db': Db)
    ensures orderId !in db.orders ==> resp == Fail(404, "Order not found") && db' == db
    ensures orderId in db.orders && db.orders[orderId].deliveryBoyId != Some(userId) ==>
              resp == Fail(403, "Access denied") && db' == db
    ensures orderId in db.orders && db.orders[orderId].deliveryBoyId == Some(userId) && !StatusPassesEnum(status) ==>
              resp == Fail(500, "Server error") && db' == db
    ensures resp.Ok? <==> orderId in db.orders && db.orders[orderId].deliveryBoyId == Some(userId) &&
                          (status.None? || ParseStatus(status.value).Some?)
    ensures resp.Ok? ==> resp.status == 200 && resp.body == db.orders[orderId].(orderStatus := status) &&
                         db' == db.(orders := db.orders[orderId := resp.body])
  {
    if orderId !in db.orders {
      return Fail(404, "Order not found"), db;
    }
    var order := db.orders[orderId];
    if order.deliveryBoyId != Some(userId) {
      return Fail(403, "Access denied"), db;
    }
    order := order.(orderStatus := status);
    if !StatusPassesEnum(order.orderStatus) {
      return Fail(500, "Server error"), db;
    }
    db' := db.(orders := db.orders[orderId := order]);
    resp := Ok(200, order);
  }
}
