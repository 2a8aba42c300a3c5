# estore cart and checkout, modelled in Dafny

This project models the cart and checkout logic of a small Flask storefront (`app.py`).
Shoppers register and log in. They add catalog products to a per-user cart and see the cart's total.
They can remove rows by product id. Checkout sends one payment line item per cart row to a hosted gateway.
When the gateway redirects back, the `success` handler empties the shopper's cart.

The store is modelled as three sequences of records, kept in store order:
- `users`: id, email, password hash, name;
- `products`: id, name, price in whole dollars;
- `cart`: id, `items` (a copy of the product name), product id, user id.

The session is the logged-in user's id, or `None` when nobody is logged in.
Class `Storefront.Shop` holds the tables and the session. Its methods are the handlers.
The handlers that write (`Register`, `Login`, `Add`, `RemoveFromCart`, `Success`) change the tables or the session in place.
`ViewCart` and `CreateCheckoutSession` only read, and modify nothing.
The parts that only decide or compute are functions:
- the `admin_only` check;
- the `login` decision;
- the price-to-cents scaling `int(str(price) + "00")`;
- the lookups, the joins and the totals.

Files:
- `wrappers.dfy`: `Option`, `Result`, `Outcome`.
- `decimal.dfy`: Python's `str` and `int` on decimal text, and the cents scaling.
- `schema.dfy`: the record shapes, the `user` column widths, `ColumnValue` (what a `varchar(n)` column stores), and the errors.
- `queries.dfy`: `Query.first()` / `Query.get()` lookups, and the cart-to-product join.
- `cart.dfy`: per-user views of the cart table, totals, removal by product id, and the purge.
- `checkout.dfy`: line items, the session request, and the gateway's reply.
- `access.dfy`: `admin_only` and the login decision.
- `shop.dfy`: the store and its handlers.

Where the code and the documented intent differ, the model follows the code:
- On `add`, `cart`, `remove_from_cart`, `create_checkout_session` and `cancel`, the `@login_required` decorator sits above `@app.route`.
  Flask registers the undecorated function, so these routes are not guarded and anonymous visitors reach them.
  (`logout` has the decorators the other way round and is guarded; `success` has none.)
  A handler that reads `current_user.id` then fails, modelled as `AnonymousUser`.
  `remove_from_cart` never reads `current_user`, so an anonymous visitor can delete any row.
- `admin_only` also reads `current_user.id`. With nobody logged in it fails the same way rather than answering 403.
- The cents amount is computed as the code computes it, by concatenating decimal text.
  `Decimal.ShowHundredfold` proves this equals `price * 100` for every integer, negative ones included.
- `success` purges the cart of whoever is logged in. Nothing ties it to a completed payment.

## Model

| member | source | states |
|---|---|---|
| Decimal.Show | app.py:209 | `str` of an integer: non-empty text that starts with a minus sign exactly when the number is negative |
| Decimal.Parse | app.py:209 | `int` of text: a result only for non-empty text, and a negative result only after a leading minus sign |
| Decimal.ParseAccepts | app.py:209 | the model's `int` accepts exactly one or more ASCII decimal digits, optionally after a single `+` or `-` sign, which covers all text `str` of an integer produces; it refuses all other text |
| Decimal.Digits | app.py:209 | `str` of a natural number: one or more decimal digits, with a leading zero only for 0 |
| Decimal.ParseShow | app.py:209 | `int(str(n)) == n` for every integer `n` |
| Decimal.ShowHundredfold | app.py:209 | `int(str(n) + "00") == n * 100` for every integer `n`, including negative ones and 0 |
| Decimal.MinorUnits | app.py:209 | the `unit_amount` computed from a price is that price times 100 |
| Queries.FirstIndex | app.py:179 | `.first()`: the index of the earliest row satisfying the filter; None exactly when no row does |
| Queries.FindUserByEmail | app.py:137 | the earliest user with the email; None exactly when no user has it |
| Queries.FindUserById | app.py:32-34 | `load_user`: the user with the session's id; None exactly when no user has that id |
| Queries.FindProduct | app.py:153 | `Products.query.get(pid)`: a catalog product with id `pid`; None exactly when there is none |
| Queries.FindRowByProduct | app.py:179 | the earliest cart row naming `pid`, whatever its owner; None exactly when no row names it |
| Queries.Join | app.py:169 | the list comprehension has one entry per cart row, in row order |
| Queries.JoinEntries | app.py:169 | entry k is missing exactly when no catalog product has the id row k names; otherwise it is a catalog product with that id |
| Queries.Resolve | app.py:169-172 | the joined products exist exactly when no row dangles; then there is one per row, in row order |
| Queries.JoinResolves | app.py:169 | the join resolves exactly when every row's product is in the catalog; product k is the one row k names |
| CartRows.OwnedBy | app.py:168 | `filter_by(user_id=uid).all()`: the rows whose owner is `uid`, in store order (defined as that filter) |
| CartRows.OwnedByMembers | app.py:168 | every row returned is a cart row owned by the user, and every cart row the user owns is returned |
| CartRows.OwnedByAppend | app.py:154-160 | an appended row adds to its owner's rows, at the end; every other user's rows are unchanged |
| CartRows.CartTotalIsRowsTotal | app.py:168-172 | the cart page's total is the sum, over the user's rows, of each row's product price; a product added twice counts twice; the total exists exactly when no row dangles |
| CartRows.AddRaisesTotal | app.py:168-172 | after a row for product `p` is added, its owner's total is the old total plus `p.price`; other users' rows are untouched |
| CartRows.RemoveTakesOneRow | app.py:179-181 | removal fails exactly when no row names the product; otherwise one matching row goes: the owner's rows were those before it, that row, and those after it, and afterwards are those before and after it, in order; every other user's rows stay as they were |
| CartRows.SecondRemoveFails | app.py:179-181 | when only one row names a product, removing it a second time fails |
| CartRows.RemoveKeepsIds | app.py:180 | deleting a row keeps only rows that were there, and cart ids stay unique |
| CartRows.PurgeClears | app.py:249-251 | after the purge the user has no cart rows |
| CartRows.PurgeKeepsOthers | app.py:249-251 | the purge leaves every other user's rows unchanged and in order |
| CartRows.PurgeByIds | app.py:238-251 | deleting the user's fetched rows one by one, by primary key, leaves exactly the other users' rows |
| CartRows.PurgeKeepsIds | app.py:249-251 | the purge keeps only rows that were there, and cart ids stay unique |
| Checkout.ItemFor | app.py:203-212 | a product's line item: currency usd, the product's name, quantity 1, unit amount price × 100 |
| Checkout.LineItems | app.py:200-214 | `checkout_items` has one item per product, in order, each that product's item |
| Checkout.BuildRequest | app.py:216-229 | the session request carries these line items and the customer's email; mode `payment`, card payment only, `off_session` future usage, shipping to US and CA; `/success` and `/cancel` under the domain |
| Checkout.Answer | app.py:230-232 | a created session answers its id; a gateway exception answers its message as an error |
| Checkout.LineItemsMatchRows | app.py:197-214 | a resolvable cart yields exactly one item per cart row, in row order, each with quantity 1, currency usd, the name of that row's product and its price in cents |
| Access.AdminOnly | app.py:37-44 | the wrapped handler runs and answers exactly when user 1 is logged in; another user gets 403 (`Forbidden`); with nobody logged in the guard itself fails |
| Access.LoginDecision | app.py:137-146 | unknown email exactly when no user has it; bad password exactly when the earliest user with the email fails the check; otherwise that user |
| Access.RegisterThenLogin | app.py:115-145 | after a registration with a new email, logging in with the same password picks the new user, provided the hash check accepts that password |
| Storefront.JoinOfResolvableRows | app.py:169-172 | when every cart row names a catalog product, every user's join resolves |
| Storefront.Shop.CurrentUser | app.py:32-34 | the current user exists exactly when someone is logged in, and is the stored user with the session's id |
| Schema.ColumnValue | app.py:50-52 | a `varchar(n)` column stores a value exactly when it fits or everything past `n` is spaces; what it stores fits, is a prefix of the value, and drops only spaces; a value that fits is stored unchanged, and a longer one is stored as exactly its first `n` characters |
| Storefront.Shop.Valid | app.py:47-70 | the tables' constraints: unique user ids and emails, unique product and cart ids, ids below the counters, and a session that names a stored user |
| Storefront.Shop.StoredRowsAreFound | app.py:47-60 | with unique keys, `.first()` by email and `.get()` by id find each stored user, and `.get()` finds each catalog product |
| Storefront.Shop.constructor | app.py:47-73 | a store with the catalog, no users, an empty cart, and nobody logged in; both id counters start at 1; no cart row dangles |
| Storefront.Shop.Register | app.py:112-129 | a known email fails with `EmailExists` and changes nothing. A value the columns refuse (widths 100, 100 and 1000, app.py:50-52) fails with `ValueTooLong` and changes nothing. An email that once cut to its column equals a stored one fails with `UniqueViolation` and changes nothing. Otherwise exactly one user is appended with the next id and the email, hash and name as the columns store them, and is logged in |
| Storefront.Shop.Login | app.py:136-146 | logs in the user the decision picks; a refused login leaves the session as it was |
| Storefront.Shop.Add | app.py:152-160 | an unknown `pid` fails and leaves the cart unchanged; nobody logged in fails the same way; otherwise exactly one row is appended with the product's name, `pid` and the user's id, and all earlier rows are kept |
| Storefront.Shop.ViewCart | app.py:167-173 | the page shows the user's joined products and the sum of their prices, or fails on a dangling row; it never fails for a logged-in user when no cart row dangles |
| Storefront.Shop.RemoveFromCart | app.py:178-182 | deletes exactly the earliest row naming `pid`, whoever owns it; with no such row it fails and the cart is unchanged |
| Storefront.Shop.CreateCheckoutSession | app.py:196-232 | answers the gateway's reply to one line item per joined product of the user's rows, sent with the user's email; it modifies nothing, whether the gateway succeeds or fails |
| Storefront.Shop.Success | app.py:237-252 | the new cart is the old one without the user's rows, which (with the purge lemmas) leaves the user none and every other user's rows unchanged |

## Left out

- Flask routing, templates, `flash`, `redirect` and `jsonify`: only the handlers' effects on the store and their outcomes are modelled.
  Outcomes are a value, an `Outcome`, or an error.
- WTForms validation: `register` and `login` are modelled on a submitted, valid form.
  A GET, or a form that fails validation, only renders a page.
- `login_required`: not modelled as a guard, because on the modelled routes the decorators as ordered do not wrap the handler.
- The handlers `home`, `product`, `new_product`, `logout` and `cancel`, and the contact form's `send_email`, are not part of this model.
  `admin_only` is modelled generically, over any wrapped handler.
- The payment gateway (`stripe.checkout.Session.create`) is a function parameter, from request to created-or-failed reply.
  Its internals and the network are outside the model.
- Storefront.Shop.CreateCheckoutSession: the redirect domain is a string parameter.
  An unset `DOMAIN` would raise inside the `try` and be answered as a gateway error; that case is not modelled.
- `generate_password_hash` and `check_password_hash` (PBKDF2-SHA256 with a random salt): the hash is a parameter of `Register`.
  The check is a function parameter of `Login`.
- The confirmation email in `success` is a no-op in the model.
  In the code, an SMTP failure would abort the request before the purge; that path is not modelled.
- SQLAlchemy mechanics: sessions, one commit per deleted row, relationships and backrefs.
  Autoincrement ids are modelled as counters starting at 1. Concurrent requests are not modelled.
  An insert the database refuses may still use up a value of PostgreSQL's id sequence; the model's counter does not advance then, which changes only the id the next new user gets.
- Column widths follow PostgreSQL's rule for `varchar(n)`, modelled by `Schema.ColumnValue`.
  A longer value is cut to `n` characters when everything past `n` is spaces, and the insert is refused otherwise.
  Only the `user` columns are written by a modelled handler. The cart's `items` column is `Text` and has no width.
- The `description` and `image` columns of `products` are not modelled, since no modelled handler reads them.
- Decimal.MinorUnits: prices are unbounded integers. The SQL `Integer` column's 32-bit range is not modelled.
- Decimal.Parse: accepts an optional sign and ASCII decimal digits. Python's `int` also accepts surrounding whitespace, underscores between digits, and non-ASCII Unicode decimal digits such as `"٣"`.
  Text produced by `str` of an integer has none of these.
- The running `total` in `create_checkout_session` is never used. It is modelled only through its effect: a dangling product fails the handler.
- One browser session: the session field is the current request's logged-in user.
