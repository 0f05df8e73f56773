/** The order record of backend/models/Order.js: line items, the money
    fields, the two status enumerations and the payment method. */
module OrderModel {
  import opened Common

  datatype OrderStatus =
    | Pending
    | Preparing
    | AssignedToDeliveryBoy
    | PickedUp
    | OutForDelivery
    | Delivered
    | Cancelled

  function StatusName(s: OrderStatus): string
  {
    match s
    case Pending => "Pending"
    case Preparing => "Preparing"
    case AssignedToDeliveryBoy => "Assigned to Delivery Boy"
    case PickedUp => "Picked Up"
    case OutForDelivery => "Out for Delivery"
    case Delivered => "Delivered"
    case Cancelled => "Cancelled"
  }

  /** The enum check on `orderStatus`. */
  function ParseStatus(t: string): (r: Option<OrderStatus>)
    ensures r.Some? ==> StatusName(r.value) == t
  {
    if t == "Pending" then Some(Pending)
    else if t == "Preparing" then Some(Preparing)
    else if t == "Assigned to Delivery Boy" then Some(AssignedToDeliveryBoy)
    else if t == "Picked Up" then Some(PickedUp)
    else if t == "Out for Delivery" then Some(OutForDelivery)
    else if t == "Delivered" then Some(Delivered)
    else if t == "Cancelled" then Some(Cancelled)
    else None
  }

  /** Exactly the seven status names pass the enum check, each naming its own status. */
  lemma StatusRoundTrip(s: OrderStatus, t: string)
    ensures ParseStatus(StatusName(s)) == Some(s)
    ensures ParseStatus(t).Some? <==>
              t in {"Pending", "Preparing", "Assigned to Delivery Boy", "Picked Up",
                    "Out for Delivery", "Delivered", "Cancelled"}
  {
  }

  /** The enum validator on `orderStatus` at save: a status that is unset passes (the field
      is not required), a set one must be one of the seven names. */
  predicate StatusPassesEnum(s: Option<string>)
  {
    s.None? || ParseStatus(s.value).Some?
  }

  /** The strings the schema accepts for `paymentStatus`. */
  predicate PaymentStatusValid(t: string)
  {
    t == "Pending" || t == "Paid" || t == "Failed" || t == "Refunded"
  }

  /** The strings the schema accepts for `paymentMethod`; the field is required. */
  predicate PaymentMethodValid(t: string)
  {
    t == "Razorpay" || t == "Cash on Delivery"
  }

  /** A line item as the client sends it and as the order stores it. */
  datatype OrderItem = OrderItem(
    productId: string,
    name: string,
    weight: string,
    isEggless: bool,
    quantity: int,
    price: real)

  /** The item sub-schema: the string fields are required (non-empty) and quantity is at least 1. */
  predicate ItemValid(i: OrderItem)
  {
    i.productId != "" && i.name != "" && i.weight != "" && i.quantity >= 1
  }

  datatype Order = Order(
    userId: string,
    addressId: string,
    deliveryBoyId: Option<string>,
    deliveryAssignedAt: Option<int>,
    items: seq<OrderItem>,
    subtotal: real,
    discount: real,
    couponCode: string,
    deliveryCharge: real,
    total: real,
    commission: real,
    commissionPercentage: real,
    orderStatus: Option<string>,
    paymentStatus: string,
    paymentMethod: string,
    razorpayOrderId: string,
    razorpayPaymentId: string,
    deliveryDate: int,
    deliveryTime: Option<string>)

  /** What the schema's validators demand when an order document is saved. */
  predicate SchemaValid(o: Order)
  {
    && o.userId != ""
    && o.addressId != ""
    && (forall k :: 0 <= k < |o.items| ==> ItemValid(o.items[k]))
    && StatusPassesEnum(o.orderStatus)
    && PaymentStatusValid(o.paymentStatus)
    && PaymentMethodValid(o.paymentMethod)
  }

  /** A new order document built from the required fields only: every other
      field takes its schema default. */
  function NewOrder(userId: string, addressId: string, items: seq<OrderItem>,
                    subtotal: real, total: real, paymentMethod: string,
                    deliveryDate: int): (o: Order)
    ensures o.discount == 0.0 && o.deliveryCharge == 0.0 && o.commission == 0.0
    ensures o.commissionPercentage == 10.0 && o.couponCode == ""
    ensures o.orderStatus == Some("Pending") && o.paymentStatus == "Pending"
    ensures o.deliveryBoyId == None && o.deliveryAssignedAt == None
    ensures SchemaValid(o) <==>
              userId != "" && addressId != "" && PaymentMethodValid(paymentMethod) &&
              forall k :: 0 <= k < |items| ==> ItemValid(items[k])
  {
    StatusRoundTrip(Pending, "");
    Order(userId, addressId, None, None, items, subtotal, 0.0, "", 0.0, total,
          0.0, 10.0, Some("Pending"), "Pending", paymentMethod, "", "", deliveryDate, None)
  }

  /** Every item of a valid order has a positive quantity and a name. */
  lemma ValidOrderItems(o: Order, k: nat)
    requires SchemaValid(o) && k < |o.items|
    ensures o.items[k].quantity >= 1 && o.items[k].name != ""
  {
  }
}
