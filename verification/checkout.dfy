/** The checkout pipeline: the line items handed to the payment provider,
    and the order confirmation that turns the cart into one order, its
    order items and the stock decrements. */
module Checkout {
  import opened Common
  import opened Cart
  import opened Store

  /** The currency of every line item. */
  const Currency: string := "usd"

  /** One line item of the hosted payment session: product name, currency,
      unit amount in cents and quantity. */
  datatype LineItem = LineItem(name: string, currency: string, unitAmount: int, quantity: int)

  /** What the provider will charge for a list of line items. */
  function Charged(items: seq<LineItem>): int
    decreases |items|
  {
    if |items| == 0 then 0 else items[0].unitAmount * items[0].quantity + Charged(items[1..])
  }

  /** One line item per cart entry, in cart order, carrying the entry's
      name, price and quantity. */
  function LineItems(cart: seq<CartItem>): (items: seq<LineItem>)
    requires HasQuantities(cart)
    ensures |items| == |cart|
    ensures forall i :: 0 <= i < |cart| ==>
      && items[i].name == cart[i].name
      && items[i].currency == Currency
      && items[i].unitAmount == cart[i].price
      && items[i].quantity == cart[i].quantity.value
  {
    seq(|cart|, i requires 0 <= i < |cart| =>
      LineItem(cart[i].name, Currency, cart[i].price, cart[i].quantity.value))
  }

  /** The provider is asked for exactly the total the cart page shows. */
  lemma {:induction false} ChargedIsTotal(cart: seq<CartItem>)
    requires HasQuantities(cart)
    ensures Charged(LineItems(cart)) == Total(cart)
    decreases |cart|
  {
    if |cart| > 0 {
      assert LineItems(cart)[1..] == LineItems(cart[1..]);
      ChargedIsTotal(cart[1..]);
    }
  }

  /** The outcome of starting a checkout: an empty cart creates no payment
      session; otherwise a session is requested with these line items for
      this customer. */
  datatype Request = EmptyCart | Payment(lineItems: seq<LineItem>, customerEmail: string)

  /** Starts a checkout for `cart` on behalf of `customer`. */
  function StartCheckout(cart: seq<CartItem>, customer: string): (o: Request)
    requires HasQuantities(cart)
    ensures o.EmptyCart? <==> cart == []
    ensures o.Payment? ==>
      && o.customerEmail == customer
      && |o.lineItems| == |cart|
      && (forall i :: 0 <= i < |cart| ==>
            o.lineItems[i].name == cart[i].name && o.lineItems[i].quantity == cart[i].quantity.value)
      && Charged(o.lineItems) == Total(cart)
  {
    if cart == [] then EmptyCart
    else
      ChargedIsTotal(cart);
      Payment(LineItems(cart), customer)
  }

  /** The order item recorded for cart entry `e`: a snapshot of its name,
      price and quantity, linked to the product of that name if one exists. */
  function Snapshot(ps: seq<Product>, orderId: nat, id: nat, e: CartItem): OrderItem
    requires e.quantity.Some?
  {
    OrderItem(id, orderId, ResolveId(ps, e.name), e.name, e.price, e.quantity.value)
  }

  /** The order items of a whole cart, in cart order, with consecutive ids
      following `lastId`. */
  function Snapshots(ps: seq<Product>, orderId: nat, lastId: nat, cart: seq<CartItem>): seq<OrderItem>
    requires HasQuantities(cart)
  {
    seq(|cart|, i requires 0 <= i < |cart| => Snapshot(ps, orderId, lastId + 1 + i, cart[i]))
  }

  /** How many units the cart takes from the product with this id: the sum
      of the quantities of the entries whose name resolves to it. */
  function Bought(ps: seq<Product>, cart: seq<CartItem>, id: nat): int
    requires HasQuantities(cart)
    decreases |cart|
  {
    if |cart| == 0 then 0
    else (if ResolveId(ps, cart[0].name) == Some(id) then cart[0].quantity.value else 0) + Bought(ps, cart[1..], id)
  }

  /** The loop body of the confirmation for one entry: record its order
      item, then take its quantity from the product it resolved to. */
  function Place(db: Db, orderId: nat, e: CartItem): Db
    requires e.quantity.Some?
  {
    var pid := ResolveId(db.products, e.name);
    var itemId := db.itemSeq + 1;
    var db1 := db.(orderItems := db.orderItems + [Snapshot(db.products, orderId, itemId, e)], itemSeq := itemId);
    match pid
    case Some(id) => db1.(products := Decrement(db1.products, id, e.quantity.value))
    case None => db1
  }

  /** The loop over the cart entries, first to last. */
  function Fulfil(db: Db, orderId: nat, cart: seq<CartItem>): Db
    requires HasQuantities(cart)
    decreases |cart|
  {
    if |cart| == 0 then db else Fulfil(Place(db, orderId, cart[0]), orderId, cart[1..])
  }

  /** What one step of the loop does to the store. */
  lemma PlaceEffect(db: Db, orderId: nat, e: CartItem)
    requires e.quantity.Some?
    ensures
      var d := Place(db, orderId, e);
      && d.users == db.users && d.userSeq == db.userSeq
      && d.orders == db.orders && d.orderSeq == db.orderSeq
      && d.orderItems == db.orderItems + [Snapshot(db.products, orderId, db.itemSeq + 1, e)]
      && d.itemSeq == db.itemSeq + 1
      && SameCatalog(db.products, d.products)
      && forall j :: 0 <= j < |db.products| ==>
           d.products[j].stock == db.products[j].stock
             - (if ResolveId(db.products, e.name) == Some(db.products[j].id) then e.quantity.value else 0)
  {
  }

  /** What the loop does to every table but products: the order items are
      appended in cart order and nothing else changes. */
  lemma {:induction false} FulfilRecords(db: Db, orderId: nat, cart: seq<CartItem>)
    requires HasQuantities(cart)
    ensures
      var d := Fulfil(db, orderId, cart);
      && d.users == db.users && d.userSeq == db.userSeq
      && d.orders == db.orders && d.orderSeq == db.orderSeq
      && d.orderItems == db.orderItems + Snapshots(db.products, orderId, db.itemSeq, cart)
      && d.itemSeq == db.itemSeq + |cart|
    decreases |cart|
  {
    if |cart| == 0 {
      assert Snapshots(db.products, orderId, db.itemSeq, cart) == [];
    } else {
      var db1 := Place(db, orderId, cart[0]);
      var rest := cart[1..];
      PlaceEffect(db, orderId, cart[0]);
      FulfilRecords(db1, orderId, rest);
      SnapshotsIgnoreStock(db.products, db1.products, orderId, db1.itemSeq, rest);
      SnapshotsCons(db.products, orderId, db.itemSeq, cart);
      var first := [Snapshot(db.products, orderId, db.itemSeq + 1, cart[0])];
      var later := Snapshots(db.products, orderId, db1.itemSeq, rest);
      assert db.orderItems + first + later == db.orderItems + (first + later);
    }
  }

  /** The snapshots of a cart are those of its first entry followed by those
      of the rest. */
  lemma SnapshotsCons(ps: seq<Product>, orderId: nat, lastId: nat, cart: seq<CartItem>)
    requires HasQuantities(cart) && |cart| > 0
    ensures Snapshots(ps, orderId, lastId, cart)
         == [Snapshot(ps, orderId, lastId + 1, cart[0])] + Snapshots(ps, orderId, lastId + 1, cart[1..])
  {
  }

  /** What the loop does to the products table: each product loses what the
      cart bought of it, and ids, names and prices stay. */
  lemma {:induction false} FulfilStock(db: Db, orderId: nat, cart: seq<CartItem>)
    requires HasQuantities(cart)
    ensures
      var d := Fulfil(db, orderId, cart);
      && SameCatalog(db.products, d.products)
      && forall j :: 0 <= j < |db.products| ==>
           d.products[j].stock == db.products[j].stock - Bought(db.products, cart, db.products[j].id)
    decreases |cart|
  {
    if |cart| > 0 {
      var db1 := Place(db, orderId, cart[0]);
      var rest := cart[1..];
      PlaceEffect(db, orderId, cart[0]);
      FulfilStock(db1, orderId, rest);
      var d := Fulfil(db1, orderId, rest);
      forall j | 0 <= j < |db.products|
        ensures d.products[j].stock == db.products[j].stock - Bought(db.products, cart, db.products[j].id)
      {
        BoughtIgnoresStock(db.products, db1.products, rest, db.products[j].id);
      }
    }
  }

  /** Snapshots only consult ids and names of the products. */
  lemma SnapshotsIgnoreStock(ps: seq<Product>, qs: seq<Product>, orderId: nat, lastId: nat, cart: seq<CartItem>)
    requires SameCatalog(ps, qs) && HasQuantities(cart)
    ensures Snapshots(ps, orderId, lastId, cart) == Snapshots(qs, orderId, lastId, cart)
  {
    forall i | 0 <= i < |cart|
      ensures Snapshot(ps, orderId, lastId + 1 + i, cart[i]) == Snapshot(qs, orderId, lastId + 1 + i, cart[i])
    {
      ResolveIdIgnoresStock(ps, qs, cart[i].name);
    }
  }

  /** What a cart buys of a product depends only on ids and names. */
  lemma {:induction false} BoughtIgnoresStock(ps: seq<Product>, qs: seq<Product>, cart: seq<CartItem>, id: nat)
    requires SameCatalog(ps, qs) && HasQuantities(cart)
    ensures Bought(ps, cart, id) == Bought(qs, cart, id)
    decreases |cart|
  {
    if |cart| > 0 {
      ResolveIdIgnoresStock(ps, qs, cart[0].name);
      BoughtIgnoresStock(ps, qs, cart[1..], id);
    }
  }

  /** The order confirmation for the signed-in `email` at time `now`. An
      empty cart changes nothing. Otherwise exactly one order is appended
      with the next order id and the cart total, one order item per entry is
      appended behind it in cart order, each product's stock drops by what
      the cart bought of it (possibly below zero), and the users table is
      untouched. */
  function Confirm(db: Db, email: string, cart: seq<CartItem>, now: string): (d: Db)
    requires HasQuantities(cart)
    ensures cart == [] ==> d == db
    ensures cart != [] ==>
      && d.orders == db.orders + [Order(db.orderSeq + 1, email, Total(cart), now)]
      && d.orderSeq == db.orderSeq + 1
      && d.orderItems == db.orderItems + Snapshots(db.products, db.orderSeq + 1, db.itemSeq, cart)
      && d.itemSeq == db.itemSeq + |cart|
    ensures d.users == db.users && d.userSeq == db.userSeq
    ensures SameCatalog(db.products, d.products)
    ensures forall j :: 0 <= j < |db.products| ==>
      d.products[j].stock == db.products[j].stock - Bought(db.products, cart, db.products[j].id)
  {
    if cart == [] then db
    else
      var orderId := db.orderSeq + 1;
      var db1 := db.(orders := db.orders + [Order(orderId, email, Total(cart), now)], orderSeq := orderId);
      FulfilRecords(db1, orderId, cart);
      FulfilStock(db1, orderId, cart);
      Fulfil(db1, orderId, cart)
  }

  /** Price times quantity summed over order items. */
  function ItemsTotal(items: seq<OrderItem>): int
    decreases |items|
  {
    if |items| == 0 then 0 else items[0].unitPrice * items[0].quantity + ItemsTotal(items[1..])
  }

  /** The order items recorded for a cart add up to the total recorded on
      its order. */
  lemma {:induction false} ItemsAddUp(ps: seq<Product>, orderId: nat, lastId: nat, cart: seq<CartItem>)
    requires HasQuantities(cart)
    ensures ItemsTotal(Snapshots(ps, orderId, lastId, cart)) == Total(cart)
    decreases |cart|
  {
    if |cart| > 0 {
      assert Snapshots(ps, orderId, lastId, cart)[1..] == Snapshots(ps, orderId, lastId + 1, cart[1..]);
      ItemsAddUp(ps, orderId, lastId + 1, cart[1..]);
    }
  }

  /** A product none of whose name's entries resolve to it is not bought. */
  lemma {:induction false} UnresolvedIsNotBought(ps: seq<Product>, cart: seq<CartItem>, id: nat)
    requires HasQuantities(cart)
    requires forall i :: 0 <= i < |cart| ==> ResolveId(ps, cart[i].name) != Some(id)
    ensures Bought(ps, cart, id) == 0
    decreases |cart|
  {
    if |cart| > 0 {
      assert ResolveId(ps, cart[0].name) != Some(id);
      UnresolvedIsNotBought(ps, cart[1..], id);
    }
  }

  /** Stock has no floor: buying two units of a product with one in stock
      leaves it at minus one. */
  lemma OversellExample()
    ensures
      var db := Db([], [Product(1, "GPU", 50000, 1)], [], [], 0, 0, 0);
      var d := Confirm(db, "a@b.c", [CartItem("GPU", 50000, Some(2))], "t");
      d.products[0].stock == -1
  {
    var ps := [Product(1, "GPU", 50000, 1)];
    var cart := [CartItem("GPU", 50000, Some(2))];
    assert ps[0].name == "GPU";
    assert ResolveId(ps, "GPU") == Some(1);
    assert Bought(ps, cart, 1) == 2 + Bought(ps, cart[1..], 1);
  }

  /** Confirming a cart of two units of a 10.00 widget and one 5.00 gadget
      records one order of 25.00 with two order items. */
  lemma TwoProductExample(db: Db, now: string)
    ensures
      var cart := [CartItem("Widget", 1000, Some(2)), CartItem("Gadget", 500, Some(1))];
      var d := Confirm(db, "bob@shop.com", cart, now);
      && |d.orders| == |db.orders| + 1
      && d.orders[|db.orders|].total == 2500
      && |d.orderItems| == |db.orderItems| + 2
      && d.orderItems[|db.orderItems|].productName == "Widget"
      && d.orderItems[|db.orderItems|].quantity == 2
      && d.orderItems[|db.orderItems| + 1].productName == "Gadget"
  {
    var cart := [CartItem("Widget", 1000, Some(2)), CartItem("Gadget", 500, Some(1))];
    assert Total(cart) == 2000 + Total(cart[1..]);
    assert Total(cart[1..]) == 500 + Total(cart[2..]);
  }
}
