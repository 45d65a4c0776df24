/** The storefront's relational store: the users, products, orders and
    order_items tables, each a sequence of rows in row order, with the
    AUTOINCREMENT counters that hand out their ids. */
module Store {
  import opened Common

  /** A users row: no role column in the storefront's schema. */
  datatype User = User(id: nat, email: string, password: string)

  /** A products row; description, image and category are never read by the
      modelled handlers and are left out. Stock is a signed count. */
  datatype Product = Product(id: nat, name: string, price: nat, stock: int)

  /** An orders row. */
  datatype Order = Order(id: nat, userEmail: string, total: int, createdAt: string)

  /** An order_items row, snapshotting name, price and quantity; the product
      id is NULL when no product of that name was found. */
  datatype OrderItem = OrderItem(
    id: nat, orderId: nat, productId: Option<nat>, productName: string, unitPrice: nat, quantity: int)

  /** The whole store. `userSeq`, `orderSeq` and `itemSeq` are the last ids
      handed out for each table, so a new row gets the next one. */
  datatype Db = Db(
    users: seq<User>,
    products: seq<Product>,
    orders: seq<Order>,
    orderItems: seq<OrderItem>,
    userSeq: nat,
    orderSeq: nat,
    itemSeq: nat)

  /** The UNIQUE constraint on users.email. */
  predicate UniqueEmails(users: seq<User>) {
    forall i, j :: 0 <= i < j < |users| ==> users[i].email != users[j].email
  }

  /** Some users row has exactly this email. */
  predicate EmailTaken(users: seq<User>, email: string) {
    exists i :: 0 <= i < |users| && users[i].email == email
  }

  /** The UNIQUE constraint admits a row whose email no row has yet. */
  lemma AppendFreshKeepsUnique(users: seq<User>, row: User)
    requires !EmailTaken(users, row.email)
    ensures UniqueEmails(users) ==> UniqueEmails(users + [row])
  {
    if UniqueEmails(users) {
      var all := users + [row];
      forall i, j | 0 <= i < j < |all|
        ensures all[i].email != all[j].email
      {
        assert all[i] == users[i];
        if j < |users| {
          assert all[j] == users[j];
        }
      }
    }
  }

  /** `SELECT … FROM users WHERE email = ?` followed by `fetchone()`: the
      position of the first row with that email. */
  function FindUser(users: seq<User>, email: string): (r: Option<nat>)
    ensures r.None? <==> !EmailTaken(users, email)
    ensures r.Some? ==> r.value < |users| && users[r.value].email == email
  {
    FindFirst(users, (u: User) => u.email == email)
  }

  /** A row appended under a new email is the one the lookup then finds. */
  lemma AppendedUserIsFound(users: seq<User>, row: User)
    requires !EmailTaken(users, row.email)
    ensures FindUser(users + [row], row.email) == Some(|users|)
  {
    var all := users + [row];
    assert all[|users|] == row;
    forall i | 0 <= i < |users|
      ensures all[i].email != row.email
    {
      assert all[i] == users[i];
    }
  }

  /** Some product has this name. */
  predicate NameListed(products: seq<Product>, name: string) {
    exists j :: 0 <= j < |products| && products[j].name == name
  }

  /** `SELECT id FROM products WHERE name = ?` followed by `fetchone()`: the
      id of the first product in row order with that name, if any. */
  function ResolveId(products: seq<Product>, name: string): (r: Option<nat>)
    ensures r.None? <==> !NameListed(products, name)
    ensures r.Some? ==> exists j :: 0 <= j < |products| && products[j].name == name && products[j].id == r.value
  {
    match FindFirst(products, (p: Product) => p.name == name)
    case Some(k) => Some(products[k].id)
    case None => None
  }

  /** Two product tables hold the same rows apart from their stock. */
  predicate SameCatalog(ps: seq<Product>, qs: seq<Product>) {
    && |ps| == |qs|
    && forall j :: 0 <= j < |ps| ==> ps[j].id == qs[j].id && ps[j].name == qs[j].name && ps[j].price == qs[j].price
  }

  /** Name lookup sees only ids and names, so it gives the same answer on
      two tables that differ in stock alone. */
  lemma ResolveIdIgnoresStock(ps: seq<Product>, qs: seq<Product>, name: string)
    requires SameCatalog(ps, qs)
    ensures ResolveId(ps, name) == ResolveId(qs, name)
  {
    FindFirstAgrees(ps, (p: Product) => p.name == name, qs, (p: Product) => p.name == name);
  }

  /** `UPDATE products SET stock = stock - q WHERE id = id`: every row with
      that id loses `q` units, with no lower bound; no other row changes. */
  function Decrement(ps: seq<Product>, id: nat, q: int): (r: seq<Product>)
    ensures SameCatalog(ps, r)
    ensures forall j :: 0 <= j < |ps| && ps[j].id == id ==> r[j].stock == ps[j].stock - q
    ensures forall j :: 0 <= j < |ps| && ps[j].id != id ==> r[j] == ps[j]
  {
    seq(|ps|, j requires 0 <= j < |ps| =>
      if ps[j].id == id then ps[j].(stock := ps[j].stock - q) else ps[j])
  }
}
