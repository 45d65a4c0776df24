/** The storefront's cart and checkout handlers, each behind the
    authentication gate, as functions from store, session and request to
    store, session and response. */
module Shop {
  import opened Common
  import opened Cart
  import opened Store
  import opened Checkout
  import opened Web

  /** The session cart, an absent one read as empty. */
  function CartOf(s: Session): seq<CartItem> {
    s.cart.GetOr([])
  }

  /** The cart page, the checkout and the confirmation read every entry's
      quantity and fail on an entry without one; the gate runs first, so
      only a signed-in session's cart must have them. */
  predicate Readable(s: Session) {
    s.user.Some? ==> HasQuantities(CartOf(s))
  }

  /** Add to cart: behind the gate, one unit of the named product at the
      price given in the request is added to the session cart, which is
      written back; the user is sent back to the page they came from. */
  function AddToCart(s: Session, name: string, price: nat): (r: (Session, Response))
    ensures s.user.None? ==> r == (s, RedirectLogin)
    ensures s.user.Some? ==>
      && r.1 == RedirectBack
      && r.0.user == s.user
      && r.0.cart == Some(Add(CartOf(s), name, price))
  {
    match LoginRequired(s)
    case Deny(resp) => (s, resp)
    case Proceed =>
      (s.(cart := Some(Add(CartOf(s), name, price))), RedirectBack)
  }

  /** The cart page: the entries and the sum of price times quantity. */
  function ViewCart(s: Session): (resp: Response)
    requires Readable(s)
    ensures s.user.None? ==> resp == RedirectLogin
    ensures s.user.Some? ==> resp.ShowCart? && resp.items == CartOf(s) && resp.total == Total(CartOf(s))
  {
    match LoginRequired(s)
    case Deny(resp) => resp
    case Proceed => ShowCart(CartOf(s), Total(CartOf(s)))
  }

  /** Checkout: a missing or empty cart is answered with a redirect to the
      cart page and no payment session; otherwise the user is sent to a
      payment session with one line item per entry, for the signed-in
      email. The session is not changed either way. */
  function CheckoutRoute(s: Session): (resp: Response)
    requires Readable(s)
    ensures s.user.None? ==> resp == RedirectLogin
    ensures s.user.Some? && CartOf(s) == [] ==> resp == RedirectCart
    ensures s.user.Some? && CartOf(s) != [] ==>
      && resp.ToPayment?
      && resp.customerEmail == s.user.value
      && resp.lineItems == LineItems(CartOf(s))
      && |resp.lineItems| == |CartOf(s)|
      && (forall i :: 0 <= i < |CartOf(s)| ==>
            resp.lineItems[i].name == CartOf(s)[i].name && resp.lineItems[i].quantity == Qty(CartOf(s)[i]))
      && Charged(resp.lineItems) == Total(CartOf(s))
  {
    match LoginRequired(s)
    case Deny(resp) => resp
    case Proceed =>
      match StartCheckout(CartOf(s), s.user.value)
      case EmptyCart => RedirectCart
      case Payment(items, customer) => ToPayment(items, customer)
  }

  /** The confirmation page: behind the gate, the cart is always taken out
      of the session; a non-empty cart is confirmed as an order of the
      signed-in user at time `now`, and an empty or missing one changes no
      table. */
  function Success(db: Db, s: Session, now: string): (r: (Db, Session, Response))
    requires Readable(s)
    ensures s.user.None? ==> r == (db, s, RedirectLogin)
    ensures s.user.Some? ==> r.1 == s.(cart := None) && r.2 == ShowSuccess
    ensures s.user.Some? && CartOf(s) == [] ==> r.0 == db
    ensures s.user.Some? && CartOf(s) != [] ==>
      && r.0.orders == db.orders + [Order(db.orderSeq + 1, s.user.value, Total(CartOf(s)), now)]
      && r.0.orderSeq == db.orderSeq + 1
      && r.0.orderItems == db.orderItems + Snapshots(db.products, db.orderSeq + 1, db.itemSeq, CartOf(s))
      && r.0.itemSeq == db.itemSeq + |CartOf(s)|
    ensures r.0.users == db.users && r.0.userSeq == db.userSeq
    ensures SameCatalog(db.products, r.0.products)
    ensures s.user.Some? ==>
      forall j :: 0 <= j < |db.products| ==>
        r.0.products[j].stock == db.products[j].stock - Bought(db.products, CartOf(s), db.products[j].id)
  {
    match LoginRequired(s)
    case Deny(resp) => (db, s, resp)
    case Proceed =>
      var cart := CartOf(s);
      (Confirm(db, s.user.value, cart, now), s.(cart := None), ShowSuccess)
  }

  /** Cancelling the payment returns to the cart page and leaves the cart as
      it was, so the checkout can be resumed. */
  function Cancel(s: Session): (r: (Session, Response))
    ensures r.0 == s
    ensures r.1 == (if s.user.Some? then RedirectCart else RedirectLogin)
  {
    match LoginRequired(s)
    case Deny(resp) => (s, resp)
    case Proceed => (s, RedirectCart)
  }

  /** The cart invariant holds of every session cart: adding to a cart that
      any version of the handler could have stored yields one with distinct
      names and quantities of at least 1, and a refused add keeps the cart. */
  lemma AddToCartKeepsInvariant(s: Session, name: string, price: nat)
    requires Stored(CartOf(s))
    ensures s.user.Some? ==> Valid(CartOf(AddToCart(s, name, price).0))
    ensures s.user.None? ==> CartOf(AddToCart(s, name, price).0) == CartOf(s)
  {
    if s.user.Some? {
      AddKeepsValid(CartOf(s), name, price);
    }
  }

  /** Without a signed-in user no cart or checkout handler runs: every one
      of them answers with the login redirect and changes neither the store
      nor the session. */
  lemma GateGuardsEveryHandler(db: Db, s: Session, name: string, price: nat, now: string)
    requires s.user.None?
    ensures AddToCart(s, name, price) == (s, RedirectLogin)
    ensures ViewCart(s) == RedirectLogin
    ensures CheckoutRoute(s) == RedirectLogin
    ensures Success(db, s, now) == (db, s, RedirectLogin)
    ensures Cancel(s) == (s, RedirectLogin)
  {
  }

  /** One price throughout: the amount requested from the payment provider,
      the total shown on the cart page and the total recorded on the order
      are the same number. */
  lemma OneTotalEverywhere(db: Db, s: Session, now: string)
    requires s.user.Some? && Readable(s) && CartOf(s) != []
    ensures
      var d := Success(db, s, now).0;
      && Charged(CheckoutRoute(s).lineItems) == ViewCart(s).total
      && d.orders[|db.orders|].total == ViewCart(s).total
      && ItemsTotal(d.orderItems[|db.orderItems|..]) == ViewCart(s).total
  {
    var d := Success(db, s, now).0;
    var items := Snapshots(db.products, db.orderSeq + 1, db.itemSeq, CartOf(s));
    assert d.orderItems[|db.orderItems|..] == items;
    ItemsAddUp(db.products, db.orderSeq + 1, db.itemSeq, CartOf(s));
  }

  /** Reloading the confirmation page records nothing more: the first visit
      took the cart out of the session, so a second one with the resulting
      session leaves the store unchanged. */
  lemma SuccessTwiceIsOnce(db: Db, s: Session, now: string, later: string)
    requires Readable(s)
    ensures
      var (d1, s1, _) := Success(db, s, now);
      Readable(s1) && Success(d1, s1, later) == (d1, s1, if s.user.Some? then ShowSuccess else RedirectLogin)
  {
  }

  /** The confirmation checks no evidence of payment and keeps no record of
      which carts it has confirmed: a request carrying the session as it was
      before the first confirmation (a second tab, a replayed or doubled
      request, since the session lives in a client-held cookie) records the
      same order a second time. */
  lemma ReplayRecordsAgain(db: Db, s: Session, now: string, later: string)
    requires s.user.Some? && Readable(s) && CartOf(s) != []
    ensures
      var d1 := Success(db, s, now).0;
      var d2 := Success(d1, s, later).0;
      && |d2.orders| == |db.orders| + 2
      && d2.orders[|db.orders|].total == d2.orders[|db.orders| + 1].total == Total(CartOf(s))
      && |d2.orderItems| == |db.orderItems| + 2 * |CartOf(s)|
  {
  }

  /** Adding a product and viewing the cart: the total grows by exactly the
      unit price of the product added, the one already stored for that name
      if it was in the cart. */
  lemma AddThenViewCart(s: Session, name: string, price: nat)
    requires s.user.Some? && HasQuantities(CartOf(s))
    ensures
      var s1 := AddToCart(s, name, price).0;
      var unit := match IndexOf(CartOf(s), name)
        case Some(k) => CartOf(s)[k].price
        case None => price;
      Readable(s1) && ViewCart(s1).total == ViewCart(s).total + unit
  {
    AddTotal(CartOf(s), name, price);
    FillKeepsComplete(CartOf(s));
  }
}
