/** The session cart: an ordered list of entries keyed by product name, with
    merge-on-add, and the total shown on the cart page. Prices are whole
    cents. */
module Cart {
  import opened Common

  /** One cart entry: product name, unit price in cents, and the quantity.
      Carts written by earlier versions of the add handler may lack the
      quantity, hence the option. */
  datatype CartItem = CartItem(name: string, price: nat, quantity: Option<int>)

  /** The quantity an entry has once filled in: a missing one counts as 1. */
  function Qty(e: CartItem): (q: int)
    ensures e.quantity.Some? ==> q == e.quantity.value
    ensures e.quantity.None? ==> q == 1
  {
    e.quantity.GetOr(1)
  }

  /** Every entry carries a quantity. */
  predicate HasQuantities(cart: seq<CartItem>) {
    forall i :: 0 <= i < |cart| ==> cart[i].quantity.Some?
  }

  /** No product name occurs twice. */
  predicate DistinctNames(cart: seq<CartItem>) {
    forall i, j :: 0 <= i < j < |cart| ==> cart[i].name != cart[j].name
  }

  /** The cart invariant: names distinct and every quantity at least 1. */
  predicate Valid(cart: seq<CartItem>) {
    && DistinctNames(cart)
    && forall i :: 0 <= i < |cart| ==> cart[i].quantity.Some? && cart[i].quantity.value >= 1
  }

  /** What any version of the add handler leaves behind: names distinct and
      every quantity that is present at least 1. */
  predicate Stored(cart: seq<CartItem>) {
    && DistinctNames(cart)
    && forall i :: 0 <= i < |cart| ==> Qty(cart[i]) >= 1
  }

  /** Gives every entry lacking a quantity the quantity 1 and leaves
      everything else as it is. */
  function FillQuantities(cart: seq<CartItem>): (r: seq<CartItem>)
    ensures |r| == |cart| && HasQuantities(r)
    ensures forall i :: 0 <= i < |cart| ==>
      && r[i].name == cart[i].name
      && r[i].price == cart[i].price
      && (cart[i].quantity.Some? ==> r[i].quantity == cart[i].quantity)
      && (cart[i].quantity.None? ==> r[i].quantity == Some(1))
  {
    seq(|cart|, i requires 0 <= i < |cart| => cart[i].(quantity := Some(Qty(cart[i]))))
  }

  /** A cart in which every entry already has a quantity is left unchanged
      by filling in quantities. */
  lemma FillKeepsComplete(cart: seq<CartItem>)
    requires HasQuantities(cart)
    ensures FillQuantities(cart) == cart
  {
    assert forall i :: 0 <= i < |cart| ==> FillQuantities(cart)[i] == cart[i];
  }

  /** Some entry is named `name`. */
  predicate HasName(cart: seq<CartItem>, name: string) {
    exists i :: 0 <= i < |cart| && cart[i].name == name
  }

  /** Position of the first entry named `name`, if any: the entry the merge
      loop of the add handler stops at. */
  function IndexOf(cart: seq<CartItem>, name: string): (r: Option<nat>)
    ensures r.None? <==> !HasName(cart, name)
    ensures r.Some? ==> r.value < |cart| && cart[r.value].name == name
    ensures r.Some? ==> !HasName(cart[..r.value], name)
  {
    var r := FindFirst(cart, (e: CartItem) => e.name == name);
    assert r.Some? ==> forall j :: 0 <= j < r.value ==> cart[..r.value][j] == cart[j];
    r
  }

  /** Adds one unit of the product `name` at `price`: after filling in the
      quantities, the first entry with that name gets one more unit and
      keeps the price it was added with; with no such entry a new entry of
      quantity 1 is appended. */
  function Add(cart: seq<CartItem>, name: string, price: nat): (r: seq<CartItem>)
    ensures HasQuantities(r)
    ensures HasName(cart, name) <==> |r| == |cart|
    ensures !HasName(cart, name) ==>
      && |r| == |cart| + 1
      && r[..|cart|] == FillQuantities(cart)
      && r[|cart|] == CartItem(name, price, Some(1))
    ensures IndexOf(cart, name).Some? ==>
      var k := IndexOf(cart, name).value;
      && r[k] == CartItem(name, cart[k].price, Some(Qty(cart[k]) + 1))
      && forall j :: 0 <= j < |r| && j != k ==> r[j] == FillQuantities(cart)[j]
  {
    var c := FillQuantities(cart);
    match IndexOf(cart, name)
    case Some(k) =>
      c[k := CartItem(name, c[k].price, Some(Qty(cart[k]) + 1))]
    case None =>
      var r := c + [CartItem(name, price, Some(1))];
      assert r[..|cart|] == c;
      r
  }

  /** Adding to a cart that satisfies the stored-cart condition yields a
      cart satisfying the full invariant. */
  lemma AddKeepsValid(cart: seq<CartItem>, name: string, price: nat)
    requires Stored(cart)
    ensures Valid(Add(cart, name, price))
  {
    var r := Add(cart, name, price);
    var c := FillQuantities(cart);
    if IndexOf(cart, name).Some? {
      assert forall i :: 0 <= i < |r| ==> r[i].name == cart[i].name;
    } else {
      assert forall i :: 0 <= i < |cart| ==> r[i] == c[i];
    }
  }

  /** Price times quantity of one complete entry. */
  function LineTotal(e: CartItem): int
    requires e.quantity.Some?
  {
    e.price * e.quantity.value
  }

  /** The total on the cart page: the sum over the entries of price times
      quantity. */
  function Total(cart: seq<CartItem>): int
    requires HasQuantities(cart)
    decreases |cart|
  {
    if |cart| == 0 then 0 else LineTotal(cart[0]) + Total(cart[1..])
  }

  /** The total of a concatenation is the sum of the totals. */
  lemma {:induction false} TotalAppend(a: seq<CartItem>, b: seq<CartItem>)
    requires HasQuantities(a) && HasQuantities(b)
    ensures HasQuantities(a + b)
    ensures Total(a + b) == Total(a) + Total(b)
    decreases |a|
  {
    if |a| > 0 {
      assert (a + b)[1..] == a[1..] + b;
      TotalAppend(a[1..], b);
    } else {
      assert a + b == b;
    }
  }

  /** Replacing one entry changes the total by the difference of the two
      line totals. */
  lemma {:induction false} TotalUpdate(cart: seq<CartItem>, k: nat, e: CartItem)
    requires HasQuantities(cart) && k < |cart| && e.quantity.Some?
    ensures HasQuantities(cart[k := e])
    ensures Total(cart[k := e]) == Total(cart) - LineTotal(cart[k]) + LineTotal(e)
    decreases |cart|
  {
    if k > 0 {
      assert cart[k := e][1..] == cart[1..][k - 1 := e];
      TotalUpdate(cart[1..], k - 1, e);
    } else {
      assert cart[k := e][1..] == cart[1..];
    }
  }

  /** Adding one unit raises the total by exactly one unit price: the price
      already stored for that name when the name is present, the given
      price otherwise. */
  lemma AddTotal(cart: seq<CartItem>, name: string, price: nat)
    ensures
      var unit := match IndexOf(cart, name)
        case Some(k) => cart[k].price
        case None => price;
      Total(Add(cart, name, price)) == Total(FillQuantities(cart)) + unit
  {
    match IndexOf(cart, name)
    case Some(k) => AddTotalPresent(cart, name, price, k);
    case None => AddTotalAbsent(cart, name, price);
  }

  /** A known name: the merged entry's line total grows by its stored price. */
  lemma AddTotalPresent(cart: seq<CartItem>, name: string, price: nat, k: nat)
    requires IndexOf(cart, name) == Some(k)
    ensures Total(Add(cart, name, price)) == Total(FillQuantities(cart)) + cart[k].price
  {
    var c := FillQuantities(cart);
    var r := Add(cart, name, price);
    var q := Qty(cart[k]);
    var e := CartItem(name, c[k].price, Some(q + 1));
    assert r == c[k := e];
    assert c[k].quantity == Some(q);
    assert LineTotal(e) == c[k].price * q + c[k].price;
    TotalUpdate(c, k, e);
  }

  /** A new name: the appended entry adds one unit at the request's price. */
  lemma AddTotalAbsent(cart: seq<CartItem>, name: string, price: nat)
    requires IndexOf(cart, name).None?
    ensures Total(Add(cart, name, price)) == Total(FillQuantities(cart)) + price
  {
    var c := FillQuantities(cart);
    var e := [CartItem(name, price, Some(1))];
    assert Add(cart, name, price) == c + e;
    TotalAppend(c, e);
  }

  /** The first add to an empty cart creates the one-entry cart. */
  lemma AddToEmpty(name: string, price: nat)
    ensures Add([], name, price) == [CartItem(name, price, Some(1))]
  {
    assert !HasName([], name);
  }

  /** Adding a product to a cart holding only that product bumps its
      quantity and keeps its stored price, whatever price comes with the
      second add. */
  lemma AddToSingle(name: string, stored: nat, q: int, price: nat)
    ensures Add([CartItem(name, stored, Some(q))], name, price) == [CartItem(name, stored, Some(q + 1))]
  {
    var one := [CartItem(name, stored, Some(q))];
    assert one[0].name == name;
    assert IndexOf(one, name) == Some(0);
  }

  /** Two adds of the same product to an empty cart give one entry of
      quantity 2 whose total is twice the unit price. */
  lemma AddTwiceExample()
    ensures Add(Add([], "Widget", 1000), "Widget", 1000) == [CartItem("Widget", 1000, Some(2))]
    ensures Total(Add(Add([], "Widget", 1000), "Widget", 1000)) == 2000
  {
    AddToEmpty("Widget", 1000);
    AddToSingle("Widget", 1000, 1, 1000);
    var twice := [CartItem("Widget", 1000, Some(2))];
    assert Total(twice) == LineTotal(twice[0]) + Total(twice[1..]);
  }

}
