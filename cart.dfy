/** The client cart of frontend/src/context/CartContext.jsx. The cart is a
    sequence of lines; each operation maps the previous sequence to a new
    one, as the React state setter does. Lines are identified by the key
    (productId, weight, isEggless). */
module Cart {
  import opened Common

  /** What the product page passes to `addToCart`. */
  datatype LineInfo = LineInfo(
    productId: string,
    name: string,
    weight: string,
    isEggless: bool,
    price: real,
    image: string,
    deliveryDate: string,
    deliveryTime: string,
    isPreOrder: bool,
    preOrderDeliveryDate: Option<int>)

  datatype CartLine = CartLine(info: LineInfo, quantity: int)

  datatype Key = Key(productId: string, weight: string, isEggless: bool)

  function KeyOf(info: LineInfo): Key
  {
    Key(info.productId, info.weight, info.isEggless)
  }

  predicate Matches(l: CartLine, k: Key)
  {
    KeyOf(l.info) == k
  }

  /** No two lines share a key, and every quantity is at least 1. */
  predicate Valid(cart: seq<CartLine>)
  {
    && (forall i, j :: 0 <= i < j < |cart| ==> KeyOf(cart[i].info) != KeyOf(cart[j].info))
    && (forall i :: 0 <= i < |cart| ==> cart[i].quantity >= 1)
  }

  /** `prev.find(...)`: the index of the first line with key `k`. */
  function Find(cart: seq<CartLine>, k: Key): (r: Option<nat>)
    ensures r.Some? ==> r.value < |cart| && Matches(cart[r.value], k) &&
                        forall i :: 0 <= i < r.value ==> !Matches(cart[i], k)
    ensures r.None? ==> forall i :: 0 <= i < |cart| ==> !Matches(cart[i], k)
    decreases |cart|
  {
    if cart == [] then None
    else if Matches(cart[0], k) then Some(0)
    else
      var r := Find(cart[1..], k);
      if r.Some? then Some(r.value + 1) else None
  }

  function Bump(l: CartLine, k: Key): CartLine
  {
    if Matches(l, k) then l.(quantity := l.quantity + 1) else l
  }

  function AddToCart(cart: seq<CartLine>, info: LineInfo): seq<CartLine>
  {
    if Find(cart, KeyOf(info)).Some? then
      seq(|cart|, i requires 0 <= i < |cart| => Bump(cart[i], KeyOf(info)))
    else
      cart + [CartLine(info, 1)]
  }

  function RemoveFromCart(cart: seq<CartLine>, k: Key): seq<CartLine>
    decreases |cart|
  {
    if cart == [] then []
    else (if Matches(cart[0], k) then [] else [cart[0]]) + RemoveFromCart(cart[1..], k)
  }

  /** The line after `updateQuantity`: the delivery date is overwritten only when one is given. */
  function SetQuantity(l: CartLine, quantity: int, deliveryDate: string): CartLine
  {
    CartLine(if deliveryDate != "" then l.info.(deliveryDate := deliveryDate) else l.info, quantity)
  }

  function UpdateQuantity(cart: seq<CartLine>, k: Key, quantity: int, deliveryDate: string): seq<CartLine>
  {
    if quantity <= 0 then RemoveFromCart(cart, k)
    else seq(|cart|, i requires 0 <= i < |cart| =>
               if Matches(cart[i], k) then SetQuantity(cart[i], quantity, deliveryDate) else cart[i])
  }

  function ClearCart(): seq<CartLine>
  {
    []
  }

  function LineTotal(l: CartLine): real
  {
    l.info.price * l.quantity as real
  }

  /** `reduce((sum, item) => sum + item.price * item.quantity, 0)`, folding from the left. */
  function GetTotal(cart: seq<CartLine>): real
    decreases |cart|
  {
    if cart == [] then 0.0 else GetTotal(cart[..|cart| - 1]) + LineTotal(cart[|cart| - 1])
  }

  // ---------------------------------------------------------------------
  // addToCart

  /** Adding a key already present raises that line's quantity by one; the length and
      every other line are unchanged. */
  lemma AddExisting(cart: seq<CartLine>, info: LineInfo, j: nat)
    requires Valid(cart) && j < |cart| && Matches(cart[j], KeyOf(info))
    ensures var r := AddToCart(cart, info);
            && |r| == |cart|
            && r[j] == cart[j].(quantity := cart[j].quantity + 1)
            && forall i :: 0 <= i < |cart| && i != j ==> r[i] == cart[i]
  {
    assert Find(cart, KeyOf(info)).Some?;
  }

  /** Adding an absent key appends the item with quantity 1. */
  lemma AddAbsent(cart: seq<CartLine>, info: LineInfo)
    requires forall i :: 0 <= i < |cart| ==> !Matches(cart[i], KeyOf(info))
    ensures AddToCart(cart, info) == cart + [CartLine(info, 1)]
  {
  }

  lemma AddPreservesValid(cart: seq<CartLine>, info: LineInfo)
    requires Valid(cart)
    ensures Valid(AddToCart(cart, info))
  {
    var r := AddToCart(cart, info);
    if Find(cart, KeyOf(info)).Some? {
      assert forall i :: 0 <= i < |cart| ==> r[i].info == cart[i].info;
    } else {
      assert forall i :: 0 <= i < |cart| ==> r[i] == cart[i];
    }
  }

  /** Adding n times: either n more of an existing line, or a new line of quantity n. */
  function AddTimes(cart: seq<CartLine>, info: LineInfo, n: nat): seq<CartLine>
    decreases n
  {
    if n == 0 then cart else AddToCart(AddTimes(cart, info, n - 1), info)
  }

  lemma {:induction false} AddTimesExisting(cart: seq<CartLine>, info: LineInfo, j: nat, n: nat)
    requires Valid(cart) && j < |cart| && Matches(cart[j], KeyOf(info))
    ensures var r := AddTimes(cart, info, n);
            && Valid(r)
            && |r| == |cart|
            && r[j] == cart[j].(quantity := cart[j].quantity + n)
            && forall i :: 0 <= i < |cart| && i != j ==> r[i] == cart[i]
    decreases n
  {
    if n > 0 {
      AddTimesExisting(cart, info, j, n - 1);
      var prev := AddTimes(cart, info, n - 1);
      AddExisting(prev, info, j);
      AddPreservesValid(prev, info);
    }
  }

  lemma {:induction false} AddTimesAbsent(cart: seq<CartLine>, info: LineInfo, n: nat)
    requires Valid(cart) && n >= 1
    requires forall i :: 0 <= i < |cart| ==> !Matches(cart[i], KeyOf(info))
    ensures AddTimes(cart, info, n) == cart + [CartLine(info, n)]
    ensures Valid(AddTimes(cart, info, n))
    decreases n
  {
    if n == 1 {
      AddAbsent(cart, info);
      AddPreservesValid(cart, info);
    } else {
      AddTimesAbsent(cart, info, n - 1);
      var prev := AddTimes(cart, info, n - 1);
      AddExisting(prev, info, |cart|);
      AddPreservesValid(prev, info);
    }
  }

  // ---------------------------------------------------------------------
  // removeFromCart

  /** Removing keeps precisely the lines without the key. */
  lemma {:induction false} RemoveMembers(cart: seq<CartLine>, k: Key)
    ensures forall l :: l in RemoveFromCart(cart, k) <==> l in cart && !Matches(l, k)
    decreases |cart|
  {
    if cart != [] {
      RemoveMembers(cart[1..], k);
      assert cart == [cart[0]] + cart[1..];
    }
  }

  lemma {:induction false} RemoveAbsent(cart: seq<CartLine>, k: Key)
    requires forall i :: 0 <= i < |cart| ==> !Matches(cart[i], k)
    ensures RemoveFromCart(cart, k) == cart
    decreases |cart|
  {
    if cart != [] {
      RemoveAbsent(cart[1..], k);
      assert cart == [cart[0]] + cart[1..];
    }
  }

  /** In a cart without duplicate keys, removing a present key deletes exactly its line. */
  lemma {:induction false} RemoveExisting(cart: seq<CartLine>, k: Key, j: nat)
    requires j < |cart| && Matches(cart[j], k)
    requires forall i :: 0 <= i < |cart| && i != j ==> !Matches(cart[i], k)
    ensures RemoveFromCart(cart, k) == cart[..j] + cart[j + 1..]
    decreases |cart|
  {
    if j == 0 {
      RemoveAbsent(cart[1..], k);
    } else {
      RemoveExisting(cart[1..], k, j - 1);
      assert cart[..j] == [cart[0]] + cart[1..][..j - 1];
      assert cart[j + 1..] == cart[1..][j..];
    }
  }

  lemma RemovePreservesValid(cart: seq<CartLine>, k: Key)
    requires Valid(cart)
    ensures Valid(RemoveFromCart(cart, k))
  {
    var found := Find(cart, k);
    if found.Some? {
      var j := found.value;
      RemoveExisting(cart, k, j);
      var r := cart[..j] + cart[j + 1..];
      assert forall i :: 0 <= i < |r| ==> r[i] == cart[if i < j then i else i + 1];
    } else {
      RemoveAbsent(cart, k);
    }
  }

  // ---------------------------------------------------------------------
  // updateQuantity

  /** A quantity of zero or less removes the line. */
  lemma UpdateNonPositiveRemoves(cart: seq<CartLine>, k: Key, quantity: int, deliveryDate: string)
    requires quantity <= 0
    ensures UpdateQuantity(cart, k, quantity, deliveryDate) == RemoveFromCart(cart, k)
    ensures forall i :: 0 <= i < |UpdateQuantity(cart, k, quantity, deliveryDate)| ==>
              !Matches(UpdateQuantity(cart, k, quantity, deliveryDate)[i], k)
  {
    RemoveMembers(cart, k);
  }

  /** A positive quantity is set on the line with the key, the delivery date only when
      given; the other lines and the length are unchanged, and an absent key changes nothing. */
  lemma UpdatePositive(cart: seq<CartLine>, k: Key, quantity: int, deliveryDate: string)
    requires Valid(cart) && quantity > 0
    ensures var r := UpdateQuantity(cart, k, quantity, deliveryDate);
            && |r| == |cart|
            && (forall i :: 0 <= i < |cart| && !Matches(cart[i], k) ==> r[i] == cart[i])
            && (forall i :: 0 <= i < |cart| && Matches(cart[i], k) ==>
                  && r[i].quantity == quantity
                  && r[i].info.deliveryDate == (if deliveryDate != "" then deliveryDate else cart[i].info.deliveryDate)
                  && r[i].info.(deliveryDate := "") == cart[i].info.(deliveryDate := ""))
            && (Find(cart, k).None? ==> r == cart)
            && Valid(r)
  {
    var r := UpdateQuantity(cart, k, quantity, deliveryDate);
    assert forall i :: 0 <= i < |cart| ==> KeyOf(r[i].info) == KeyOf(cart[i].info);
  }

  lemma UpdatePreservesValid(cart: seq<CartLine>, k: Key, quantity: int, deliveryDate: string)
    requires Valid(cart)
    ensures Valid(UpdateQuantity(cart, k, quantity, deliveryDate))
  {
    if quantity <= 0 {
      RemovePreservesValid(cart, k);
    } else {
      UpdatePositive(cart, k, quantity, deliveryDate);
    }
  }

  // ---------------------------------------------------------------------
  // Operations as a whole

  datatype Op =
    | Add(info: LineInfo)
    | Remove(key: Key)
    | Update(key: Key, quantity: int, deliveryDate: string)
    | Clear

  function Apply(cart: seq<CartLine>, op: Op): seq<CartLine>
  {
    match op
    case Add(info) => AddToCart(cart, info)
    case Remove(k) => RemoveFromCart(cart, k)
    case Update(k, q, d) => UpdateQuantity(cart, k, q, d)
    case Clear => ClearCart()
  }

  function ApplyAll(cart: seq<CartLine>, ops: seq<Op>): seq<CartLine>
    decreases |ops|
  {
    if ops == [] then cart else ApplyAll(Apply(cart, ops[0]), ops[1..])
  }

  /** After any sequence of operations from a valid cart, no two lines share a key and
      every quantity is at least 1. */
  lemma {:induction false} OperationsKeepValid(cart: seq<CartLine>, ops: seq<Op>)
    requires Valid(cart)
    ensures Valid(ApplyAll(cart, ops))
    decreases |ops|
  {
    if ops != [] {
      match ops[0] {
        case Add(info) => AddPreservesValid(cart, info);
        case Remove(k) => RemovePreservesValid(cart, k);
        case Update(k, q, d) => UpdatePreservesValid(cart, k, q, d);
        case Clear =>
      }
      OperationsKeepValid(Apply(cart, ops[0]), ops[1..]);
    }
  }

  // ---------------------------------------------------------------------
  // getTotal

  lemma {:induction false} TotalAppend(a: seq<CartLine>, b: seq<CartLine>)
    ensures GetTotal(a + b) == GetTotal(a) + GetTotal(b)
    decreases |b|
  {
    if b == [] {
      assert a + b == a;
    } else {
      assert (a + b)[..|a + b| - 1] == a + b[..|b| - 1];
      TotalAppend(a, b[..|b| - 1]);
    }
  }

  /** Replacing one line changes the total by the difference of the two line totals. */
  lemma TotalReplace(cart: seq<CartLine>, j: nat, l: CartLine)
    requires j < |cart|
    ensures GetTotal(cart[j := l]) == GetTotal(cart) - LineTotal(cart[j]) + LineTotal(l)
  {
    assert cart == cart[..j] + [cart[j]] + cart[j + 1..];
    assert cart[j := l] == cart[..j] + [l] + cart[j + 1..];
    TotalAppend(cart[..j] + [cart[j]], cart[j + 1..]);
    TotalAppend(cart[..j], [cart[j]]);
    TotalAppend(cart[..j] + [l], cart[j + 1..]);
    TotalAppend(cart[..j], [l]);
  }

  /** The total of an empty cart, and so of a cleared one, is zero. */
  lemma TotalAfterClear()
    ensures GetTotal(ClearCart()) == 0.0
  {
  }

  /** Adding a new key raises the total by the item's price. */
  lemma TotalAfterAddNew(cart: seq<CartLine>, info: LineInfo)
    requires forall i :: 0 <= i < |cart| ==> !Matches(cart[i], KeyOf(info))
    ensures GetTotal(AddToCart(cart, info)) == GetTotal(cart) + info.price
  {
    AddAbsent(cart, info);
    var line := CartLine(info, 1);
    TotalAppend(cart, [line]);
    TotalSingle(line);
    assert LineTotal(line) == info.price;
  }

  lemma TotalSingle(l: CartLine)
    ensures GetTotal([l]) == LineTotal(l)
  {
    assert [l][..0] == [];
  }

  /** Adding a present key raises the total by the stored line's price, not the item's. */
  lemma TotalAfterAddExisting(cart: seq<CartLine>, info: LineInfo, j: nat)
    requires Valid(cart) && j < |cart| && Matches(cart[j], KeyOf(info))
    ensures GetTotal(AddToCart(cart, info)) == GetTotal(cart) + cart[j].info.price
  {
    AddExisting(cart, info, j);
    var bumped := cart[j].(quantity := cart[j].quantity + 1);
    var r := AddToCart(cart, info);
    var u := cart[j := bumped];
    assert |r| == |u|;
    assert forall i :: 0 <= i < |r| ==> r[i] == u[i];
    assert r == u;
    TotalReplace(cart, j, bumped);
    LineTotalBump(cart[j], bumped);
  }

  lemma LineTotalBump(a: CartLine, b: CartLine)
    requires b.info == a.info && b.quantity == a.quantity + 1
    ensures LineTotal(b) == LineTotal(a) + a.info.price
  {
    var p, q := a.info.price, a.quantity as real;
    assert b.quantity as real == q + 1.0;
    assert p * (q + 1.0) == p * q + p;
  }

  /** Removing a present line lowers the total by that line's total. */
  lemma TotalAfterRemove(cart: seq<CartLine>, j: nat)
    requires Valid(cart) && j < |cart|
    ensures GetTotal(RemoveFromCart(cart, KeyOf(cart[j].info))) == GetTotal(cart) - LineTotal(cart[j])
  {
    var k := KeyOf(cart[j].info);
    RemoveExisting(cart, k, j);
    assert cart == cart[..j] + [cart[j]] + cart[j + 1..];
    TotalAppend(cart[..j] + [cart[j]], cart[j + 1..]);
    TotalAppend(cart[..j], [cart[j]]);
    TotalAppend(cart[..j], cart[j + 1..]);
    assert GetTotal([cart[j]]) == GetTotal([]) + LineTotal(cart[j]);
  }
}
