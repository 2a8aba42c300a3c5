/**
 * The three tables of the storefront (`user`, `products`, `cart`) as record
 * values, and the ways a handler of the cart and checkout flow can fail.
 */
module Schema {
  import opened Wrappers

  /** A row of the `user` table; `passwordHash` is the salted hash, never the password. */
  datatype User = User(id: int, email: string, passwordHash: string, name: string)

  /** A row of the `products` table; the price is a whole number of dollars. */
  datatype Product = Product(id: int, name: string, price: int)

  /**
   * A row of the `cart` table: one per "add to cart" action. `items` holds
   * a copy of the product's name taken when the row was added.
   */
  datatype CartRow = CartRow(id: int, items: string, productId: int, userId: int)

  /** Declared widths of the `user` table's `String` columns, in characters. */
  const EMAIL_WIDTH := 100
  const PASSWORD_WIDTH := 100
  const NAME_WIDTH := 1000

  /**
   * What PostgreSQL stores when `s` is assigned to a `varchar(width)` column:
   * a value that fits is stored as it is; a longer one is cut to the width
   * when everything past the width is spaces, and refused otherwise.
   */
  function ColumnValue(s: string, width: nat): (r: Option<string>)
    ensures r.Some? <==> |s| <= width || forall k :: width <= k < |s| ==> s[k] == ' '
    ensures |s| <= width ==> r == Some(s)
    ensures r.Some? && |s| > width ==> r.value == s[..width]
    ensures r.Some? ==>
      && |r.value| <= width && r.value <= s
      && forall k :: |r.value| <= k < |s| ==> s[k] == ' '
  {
    if |s| <= width then Some(s)
    else if forall k :: width <= k < |s| ==> s[k] == ' ' then Some(s[..width])
    else None
  }

  datatype Error =
    | AnonymousUser        // the handler read `current_user.id` while nobody was logged in
    | Forbidden            // `admin_only` refused a logged-in user other than user 1 (HTTP 403)
    | EmailExists          // registration with an email some user already has
    | ValueTooLong         // the database refused a value wider than its `String(n)` column
    | UniqueViolation      // the database refused a row whose stored email another user has
    | UnknownEmail         // login with an email no user has
    | BadPassword          // login whose password does not match the stored hash
    | ProductNotFound      // add-to-cart of a product id the catalog lacks
    | NotFound             // removal when no cart row has the product id
    | DanglingProduct      // a cart row refers to a product the catalog lacks
    | GatewayError(message: string)  // the payment gateway refused to create a session
}
