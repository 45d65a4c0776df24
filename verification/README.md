# Webshop core in Dafny

A model of the state-transition rules of a small Flask storefront with an
administration application. Two applications are covered. The storefront
(`app.py`) handles registration and login keyed on a normalised email, a
session cart with merge-on-add, the cart total, the checkout that hands line
items to a hosted payment page, and the confirmation that turns the cart
into an order, order items and stock decrements. The administration
application (`admin_route.py`) has its own users table with a role column,
an administrator gate that reads the role from the store on every request,
an idempotent default-administrator seed, and registration and login that
use the email exactly as typed.

Every handler is a pure function from (store, session, request) to
(store, session, response). The model makes four simplifications:

- prices are whole cents;
- the salted password hash and its check are function parameters;
- the current time is a parameter;
- the payment provider is represented only by the request the storefront
  would send it.

Modules:

- `Common`: the option type, and the first-match search that both a
  `for … break` loop and `fetchone()` perform.
- `Password`: the strength rule.
- `Email`: `strip().lower()`.
- `Cart`: cart entries, merge-on-add, the cart invariant and the total.
- `Store`: the storefront's four tables with their AUTOINCREMENT counters,
  lookup by email and by product name, and the stock update.
- `Checkout`: line items, and the order confirmation.
- `Web`: the session, responses, the authentication gate and logout.
- `Credentials`: storefront registration and login.
- `Shop`: the storefront's cart and checkout handlers behind the gate.
- `Admin`: the administration application.

Behaviour notes:

- The confirmation handler takes the cart out of the session before it
  writes anything. A second visit that carries the session the first visit
  produced records nothing more (`Shop.SuccessTwiceIsOnce`). The session is
  a client-held signed cookie, though, and the handler checks no evidence
  of payment. A request that still carries the session from before the
  confirmation records the same order again (`Shop.ReplayRecordsAgain`).
  That happens with two requests in flight at once, such as a double
  submit, or with a deliberately replayed cookie.
- The administration application stores and looks up the email exactly as
  typed, while the storefront strips and lower-cases it
  (`Admin.RegistrationIsCaseSensitive`).
- The stock update has no floor, so buying more than the stock leaves a
  negative count (`Checkout.OversellExample`).

## Model

| member | source | states |
|---|---|---|
| `Password.PasswordIsStrong` | app.py:38-45 | A password is accepted iff it is at least 8 long and contains an ASCII capital, an ASCII small letter, a digit and one of the 20 listed symbols (identical rule at admin_route.py:25-32) |
| `Password.Search` | app.py:41-44 | A single-class regular-expression search succeeds iff some character of the password lies in the class |
| `Password.StrongIsKeptByExtension` | app.py:38-45 | The rule tests only for the presence of characters, so appending to a strong password keeps it strong |
| `Password.SeedPasswordIsStrong` | admin_route.py:88-91 | The default administrator password itself passes the strength rule |
| `Password.SevenCharactersAreWeak` | app.py:40 | The length bound is inclusive at 8: a 7-character password with all four classes is refused, an 8-character one accepted |
| `Email.TrimStart` | app.py:123 | Dropping leading white space yields a suffix whose cut-off prefix is all white space and which does not start with white space |
| `Email.TrimEnd` | app.py:123 | Dropping trailing white space yields a prefix whose cut-off suffix is all white space and which does not end with white space |
| `Email.Strip` | app.py:123 | `strip()` yields an infix with no white space at either end, and everything cut from either side is white space |
| `Email.Lower` | app.py:123 | `lower()` keeps the length and folds every ASCII capital to its small letter |
| `Email.Normalise` | app.py:123 | The account key has no surrounding white space and no capitals, and is no longer than the typed address |
| `Email.NormaliseIsIdempotent` | app.py:152 | Normalising a stored key again gives the same key, so login finds what registration stored |
| `Email.NormaliseIgnoresCase` | app.py:152 | An address and its lower-cased spelling have the same key |
| `Email.NormaliseIgnoresPadding` | app.py:152 | Extra white space in front of an address does not change its key |
| `Email.StripLower` | app.py:123 | Lower-casing commutes with stripping |
| `Common.FindFirst` | app.py:187-190 | A scan that stops at its first hit returns the position of the first matching element, or nothing iff no element matches |
| `Cart.Qty` | app.py:184-185 | An entry without a quantity counts as quantity 1 |
| `Cart.FillQuantities` | app.py:183-185 | Filling in quantities gives every entry a quantity: a missing one becomes 1, everything else is kept, and the order and length stay the same |
| `Cart.FillKeepsComplete` | app.py:183-185 | A cart whose entries all have a quantity is left unchanged by filling in quantities |
| `Cart.IndexOf` | app.py:187-190 | The merge loop stops at the first entry with that name; it finds nothing iff no entry has the name |
| `Cart.Add` | app.py:181-192 | A name already present: length unchanged, the first entry with that name gets exactly one more unit and keeps its stored price, all other entries unchanged. A new name: exactly one entry `{name, price, 1}` appended after the unchanged prefix |
| `Cart.AddKeepsValid` | app.py:183-192 | Adding to a cart with distinct names and quantities of at least 1, where missing quantities count as 1, yields a cart with distinct names and every quantity present and at least 1 |
| `Cart.AddTotal` | app.py:187-192 | Adding one unit raises the cart total by exactly one unit price: the stored price for a known name, the request price for a new one |
| `Cart.AddToEmpty` | app.py:191-192 | The first add to an empty cart gives the one-entry cart of quantity 1 |
| `Cart.AddToSingle` | app.py:187-190 | A second add of the same product bumps the quantity and keeps the first price, whatever price the second request carries |
| `Cart.AddTwiceExample` | app.py:181-192 | Two adds of a 10.00 widget give one entry of quantity 2 with total 20.00 |
| `Cart.TotalAppend` | app.py:244 | The total of a concatenation of carts is the sum of their totals |
| `Cart.TotalUpdate` | app.py:244 | Replacing one entry changes the total by the difference of the two line totals |
| `Store.FindUser` | app.py:157-158 | The login lookup finds a row carrying exactly that email, and finds nothing iff no row has it |
| `Store.ResolveId` | app.py:292-294 | Product resolution by name returns the id of a product with that name, or NULL iff no product has that name |
| `Store.ResolveIdIgnoresStock` | app.py:292-299 | Stock updates earlier in the loop do not change how later entries resolve |
| `Store.Decrement` | app.py:299 | The stock update lowers by the quantity, with no floor, every row with that id, and leaves every other row and every other column as it was |
| `Checkout.LineItems` | app.py:256-265 | One line item per cart entry, in cart order, with the entry's name, price, quantity and the currency usd |
| `Checkout.ChargedIsTotal` | app.py:256-265 | In integer cents, the amount the line items ask the payment provider to charge equals the cart-page total |
| `Checkout.StartCheckout` | app.py:251-265 | An empty cart creates no payment session. A non-empty one asks for a session for the signed-in email, with one line item per entry in order, the same names and quantities. In integer cents it charges exactly the cart total |
| `Checkout.PlaceEffect` | app.py:291-299 | One pass of the loop appends one snapshot order item and lowers only the resolved product's stock by the entry's quantity |
| `Checkout.FulfilRecords` | app.py:291-297 | The loop appends one order item per cart entry, in cart order, with consecutive ids. Each item snapshots the entry's name, price and quantity and the id resolved by name. Users and orders are untouched |
| `Checkout.FulfilStock` | app.py:291-299 | After the loop each product's stock is lower by exactly the summed quantities of the entries resolving to its id. Ids, names and prices stay |
| `Checkout.Confirm` | app.py:283-301 | An empty cart changes no table. Otherwise exactly one order is appended with the next id, the user's email, the cart total and the given time, and the order items follow in cart order. Stock drops with no floor. Unbought products and the users table stay as they were |
| `Checkout.ItemsAddUp` | app.py:284-297 | The order items recorded for a cart add up to the total recorded on its order |
| `Checkout.UnresolvedIsNotBought` | app.py:298-299 | A product that no cart entry resolves to loses no stock |
| `Checkout.OversellExample` | app.py:299 | Buying two units of a product with one in stock leaves its stock at -1 |
| `Checkout.TwoProductExample` | app.py:282-299 | Confirming two 10.00 widgets and one 5.00 gadget records one order of 25.00 and two order items in cart order |
| `Web.LoginRequired` | app.py:48-55 | The handler runs iff the session has a user. Otherwise the answer is the login redirect (identical gate at admin_route.py:37-44) |
| `Web.Logout` | app.py:172-175 | Logout removes only the session user and always answers with the redirect home: the cart survives, and the gate then refuses the session (identical at admin_route.py:164-168) |
| `Credentials.Register` | app.py:122-141 | Weak iff the password fails the rule. Duplicate iff the password is strong and the normalised email is present. Either refusal leaves the store unchanged. Otherwise one row is added with the next id, the normalised email and `hash(password)`. Email uniqueness is preserved |
| `Credentials.RegisterResponse` | app.py:126-141 | A created account is sent to the login page, any refusal back to the registration page |
| `Credentials.Login` | app.py:147-166 | A signed-in session is sent home unchanged. Otherwise the session is signed in, under the normalised email, only if the row found for that email has a digest that checks against the password. The cart is never touched |
| `Credentials.LoginSucceedsIffDigestChecks` | app.py:152-161 | With unique emails, login succeeds iff some account has the normalised email and its stored digest checks against the password |
| `Credentials.RegisterThenLogin` | app.py:123-161 | A strong password under an address whose key is not yet taken is registered, and the new account can then be signed into with the same password and any spelling of the address that has the same key |
| `Credentials.SecondRegistrationRejected` | app.py:123-141 | Registering again under an address differing only in case or padding is refused as a duplicate and changes nothing |
| `Shop.AddToCart` | app.py:178-196 | Without a user, nothing changes and the answer is the login redirect. Otherwise the session cart, with a missing cart read as empty, is replaced by the result of adding the product, and the user is sent back |
| `Shop.AddToCartKeepsInvariant` | app.py:181-194 | The session cart keeps the invariant of distinct names and every quantity at least 1 across adds |
| `Shop.ViewCart` | app.py:240-245 | The cart page shows the session cart (missing = empty) and the sum of price times quantity |
| `Shop.CheckoutRoute` | app.py:248-276 | Missing or empty cart: redirect to the cart and no payment session. Otherwise the user is sent to a payment session for their email. It has one line item per entry, in cart order, and item i carries entry i's name and quantity. In integer cents it charges the cart total |
| `Shop.Success` | app.py:279-302 | Behind the gate the cart is always removed from the session. With an empty or missing cart no table changes. Otherwise one order with the next id and the cart total is recorded, with its items in cart order and consecutive ids. Stock drops by the quantities bought. The users table is untouched |
| `Shop.Cancel` | app.py:304-308 | Cancelling leaves the session, and so the cart, unchanged and returns to the cart page |
| `Shop.GateGuardsEveryHandler` | app.py:48-55 | Without a user, no cart or checkout handler runs: each answers with the login redirect and changes neither store nor session |
| `Shop.OneTotalEverywhere` | app.py:244-297 | In integer cents, the amount charged, the cart-page total, the order total and the sum over the order items are the same number |
| `Shop.SuccessTwiceIsOnce` | app.py:282-283 | A second confirmation with the session produced by the first records nothing more |
| `Shop.ReplayRecordsAgain` | app.py:279-299 | A second confirmation with the session from before the first, still holding the cart, records a second order with the same total and a second set of order items |
| `Shop.AddThenViewCart` | app.py:187-192 | After an add, the cart page total is higher by exactly one unit price of the product added |
| `Admin.FindAccount` | admin_route.py:59-60 | The role lookup finds a row with exactly that email, and nothing iff none has it |
| `Admin.RoleOf` | admin_route.py:56-60 | The role read for an email belongs to a row with that email, and there is none iff the email has no account |
| `Admin.AdminRequired` | admin_route.py:51-66 | No user: login redirect. The handler runs iff the role currently stored for the session email is exactly `admin`. A missing account or any other role is sent home |
| `Admin.AdminGateIffStoredRole` | admin_route.py:56-66 | With unique emails, the gate opens iff the account of the session email has role `admin` |
| `Admin.RoleChangeTakesEffect` | admin_route.py:56-64 | For the same session, a role change made in the store decides the very next request: `admin` opens the gate, any other role closes it |
| `Admin.Seed` | admin_route.py:86-91 | If `admin@shop.com` already has a row, the seed changes nothing. Otherwise it inserts exactly one row with that address, the digest of the default password and role `admin`. Email uniqueness is kept |
| `Admin.SeedIsIdempotent` | admin_route.py:86-91 | Running the seed twice, even with a different salt, gives the store one run gives |
| `Admin.SeededAdminPassesGate` | admin_route.py:86-91 | On a store without the administrator address, the seeded account opens the administrator gate |
| `Admin.SeedDoesNotPromote` | admin_route.py:86-87 | An existing `admin@shop.com` account with another role keeps it through the seed, and the gate stays shut |
| `Admin.Register` | admin_route.py:110-127 | Weak iff the password fails the rule. Duplicate iff the password is strong and the exact email is present. Either refusal leaves the store unchanged. Otherwise one row is added with the next id, the email as typed, `hash(password)` and role `user`. Email uniqueness is preserved |
| `Admin.RegistrationIsCaseSensitive` | admin_route.py:111-123 | With the administrator seeded, `ADMIN@shop.com` registers as a separate account, and that account does not pass the administrator gate |
| `Admin.Login` | admin_route.py:139-157 | A signed-in session is sent home unchanged. Otherwise the session is signed in, under the typed email, only if the row with exactly that email has a digest that checks against the password |
| `Admin.LoginSucceedsIffDigestChecks` | admin_route.py:148-157 | With unique emails, login succeeds iff an account with exactly that email exists and its digest checks against the password. On failure the session is unchanged |
| `Admin.SeededAdminCanSignIn` | admin_route.py:86-152 | After the seed, signing in as `admin@shop.com` with the default password succeeds, and the session then passes the administrator gate |

## Left out

- Template rendering, `flash` messages and the GET branches of register and login only render pages. Redirect targets are collapsed into the `Response` type, and `request.referrer or main` is `RedirectBack`.
- The home page and the product detail page have no gate. They, the product category pages and the administration pages only read the store and render a page or redirect, and change neither store nor session. Only the gates in front of them are modelled. `show_users.py` is a console print loop and is not part of this model.
- The connection lifecycle (`get_db`, `close_connection`) and the table creation in `init_db` are plumbing. The store is a Dafny value, and the products columns description, image and category are never read by these handlers.
- Prices are integer cents throughout. Flask's float converter is unsigned, hence `nat`.
- `Checkout.LineItems`: the unit amount is the price in cents. The float product `int(price * 100)` and its truncation are not modelled, for the same reason.
- `Checkout.ChargedIsTotal`: the equality holds only in integer cents. The program sends the truncated `int(price * 100)`, which can be a cent below the price (0.29 becomes 28), so the real charge can fall below the total shown.
- `Shop.OneTotalEverywhere`: the same cents abstraction. The charged amount can be below the cart-page and order totals by up to one cent per unit bought, because the truncated unit amount is multiplied by the quantity.
- The payment provider's `Session.create` is a network call. Only the line items and the customer email it would receive are modelled, not the success and cancel URLs.
- `generate_password_hash` and `check_password_hash` are salted and opaque. They are the parameters `hash` and `check`.
- `datetime.utcnow()` is the parameter `now`. Secret key and environment loading are configuration.
- `Email.Lower`: folds only the ASCII capitals, while Python's `str.lower()` folds every Unicode capital. Full Unicode case mapping is outside the model.
- `Shop.ViewCart`, `Shop.CheckoutRoute`, `Shop.Success`: a cart entry without a quantity makes these handlers raise `KeyError`. Their precondition therefore asks that a signed-in session's cart has every quantity. The error response is not modelled.
- Exceptions in the middle of the confirmation loop, and the commit and rollback that would follow, are not modelled. The confirmation is one total function.
- `Common.FindFirst`, `Store.ResolveId`: rows come back from a query without `ORDER BY` in row-id order, which the model takes as the sequence order.
- Both applications open the same database file with different `users` schemas. The model keeps the two users tables separate, as two applications that do not share a store.
- Session keys other than the user and the cart are not modelled.
