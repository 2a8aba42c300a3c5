/**
 * The storefront's state and the request handlers of the cart and checkout
 * flow. The three tables are sequences in store order; the session is the id
 * of the logged-in user (`current_user`), or None when nobody is logged in.
 * The handlers that write (register, login, add, remove, success) change the
 * tables and the session in place, as the database session would; the cart
 * page and checkout only read.
 */
module Storefront {
  import opened Wrappers
  import opened Schema
  import opened Queries
  import opened CartRows
  import opened Checkout
  import opened Access

  /** What the cart page renders: the joined products, as the handler passes them on, and their total. */
  datatype CartPage = CartPage(products: seq<Option<Product>>, total: int)

  /** The `user` table: ids from 1 below the next id to hand out, ids and emails unique. */
  predicate UsersWellFormed(users: seq<User>, nextUserId: int)
  {
    && (forall k :: 0 <= k < |users| ==> 1 <= users[k].id < nextUserId)
    && (forall i, j :: 0 <= i < j < |users| ==> users[i].id != users[j].id)
    && (forall i, j :: 0 <= i < j < |users| ==> users[i].email != users[j].email)
  }

  /** The database accepts a new user's email, password hash and name into their columns. */
  predicate Fits(email: string, passwordHash: string, name: string)
  {
    && ColumnValue(email, EMAIL_WIDTH).Some?
    && ColumnValue(passwordHash, PASSWORD_WIDTH).Some?
    && ColumnValue(name, NAME_WIDTH).Some?
  }

  /** The primary key of the `products` table. */
  predicate UniqueProductIds(products: seq<Product>)
  {
    forall i, j :: 0 <= i < j < |products| ==> products[i].id != products[j].id
  }

  /** When every row of the cart names a catalog product, every user's join resolves. */
  lemma JoinOfResolvableRows(products: seq<Product>, cart: seq<CartRow>, uid: int)
    requires forall r :: r in cart ==> FindProduct(products, r.productId).Some?
    ensures Resolve(Join(products, OwnedBy(cart, uid))).Some?
  {
    var rows := OwnedBy(cart, uid);
    OwnedByMembers(cart, uid);
    JoinResolves(products, rows);
    assert forall k :: 0 <= k < |rows| ==> rows[k] in cart;
  }

  class Shop {
    var users: seq<User>
    var products: seq<Product>
    var cart: seq<CartRow>
    var nextUserId: int
    var nextCartId: int
    var session: Option<int>

    /**
     * The store's integrity constraints: the primary keys and the unique
     * email, ids below the counters, and a session naming a stored user.
     */
    ghost predicate Valid()
      reads this
    {
      && 1 <= nextUserId && 1 <= nextCartId
      && UsersWellFormed(users, nextUserId)
      && UniqueProductIds(products)
      && UniqueIds(cart)
      && (forall r :: r in cart ==> 1 <= r.id < nextCartId)
      && (session.Some? ==> FindUserById(users, session.value).Some?)
    }

    /**
     * Because ids and emails are unique, each stored user is the one
     * `.first()` finds by email and `.get()` finds by id, and each catalog
     * product the one `.get()` finds by id.
     */
    lemma StoredRowsAreFound()
      requires Valid()
      ensures forall k :: 0 <= k < |users| ==>
        FindUserByEmail(users, users[k].email) == Some(k) && FindUserById(users, users[k].id) == Some(users[k])
      ensures forall k :: 0 <= k < |products| ==>
        FindProduct(products, products[k].id) == Some(products[k])
    {
    }

    /** Every cart row names a product of the catalog: no join can dangle. */
    predicate RowsResolve()
      reads this
    {
      forall r :: r in cart ==> FindProduct(products, r.productId).Some?
    }

    /** A missing entry in the current user's join means some cart row dangles. */
    lemma DanglingEntry(found: seq<Option<Product>>, i: nat)
      requires session.Some? && found == Join(products, OwnedBy(cart, session.value))
      requires i < |found| && found[i].None?
      ensures Resolve(found).None? && !RowsResolve()
    {
      if RowsResolve() {
        JoinOfResolvableRows(products, cart, session.value);
      }
    }

    /** `current_user`, loaded from the session's user id. */
    function CurrentUser(): (u: Option<User>)
      reads this
      requires Valid()
      ensures u.Some? <==> session.Some?
      ensures u.Some? ==> u.value in users && u.value.id == session.value
    {
      match session
      case None => None
      case Some(id) => FindUserById(users, id)
    }

    /** A storefront with the given catalog, no users, empty carts and nobody logged in. */
    constructor (catalog: seq<Product>)
      requires UniqueProductIds(catalog)
      ensures Valid() && RowsResolve()
      ensures products == catalog && users == [] && cart == [] && session == None
      ensures nextUserId == 1 && nextCartId == 1
    {
      users := [];
      products := catalog;
      cart := [];
      nextUserId := 1;
      nextCartId := 1;
      session := None;
    }

    /**
     * `register`, on a submitted form: an email already on file creates
     * nobody and sends the visitor to log in; otherwise the user is stored,
     * with the hash of the password, and logged in. The commit stores each
     * value as its `String(n)` column takes it: a value wider than the column
     * is cut to the width when the excess is all spaces, and otherwise makes
     * the database refuse the row. The lookup compares the email as typed, so
     * an email that only matches a stored one once cut breaks the unique
     * constraint. A refused row stores and logs in nobody.
     */
    method Register(email: string, passwordHash: string, name: string) returns (r: Outcome<Error>)
      requires Valid()
      modifies this`users, this`nextUserId, this`session
      ensures Valid()
      ensures FindUserByEmail(old(users), email).Some? ==>
        && r == Fail(EmailExists)
        && users == old(users) && nextUserId == old(nextUserId) && session == old(session)
      ensures FindUserByEmail(old(users), email).None? && !Fits(email, passwordHash, name) ==>
        && r == Fail(ValueTooLong)
        && users == old(users) && nextUserId == old(nextUserId) && session == old(session)
      ensures FindUserByEmail(old(users), email).None? && Fits(email, passwordHash, name) ==>
        var stored := ColumnValue(email, EMAIL_WIDTH).value;
        if FindUserByEmail(old(users), stored).Some? then
          && r == Fail(UniqueViolation)
          && users == old(users) && nextUserId == old(nextUserId) && session == old(session)
        else
          && r == Pass
          && users == old(users) + [User(old(nextUserId), stored,
               ColumnValue(passwordHash, PASSWORD_WIDTH).value, ColumnValue(name, NAME_WIDTH).value)]
          && nextUserId == old(nextUserId) + 1
          && session == Some(old(nextUserId))
    {
      if FindUserByEmail(users, email).Some? {
        return Fail(EmailExists);
      }
      if !Fits(email, passwordHash, name) {
        return Fail(ValueTooLong);
      }
      var stored := ColumnValue(email, EMAIL_WIDTH).value;
      if FindUserByEmail(users, stored).Some? {
        return Fail(UniqueViolation);
      }
      var user := User(nextUserId, stored,
        ColumnValue(passwordHash, PASSWORD_WIDTH).value, ColumnValue(name, NAME_WIDTH).value);
      users := users + [user];
      assert users[|users| - 1] == user;
      session := Some(nextUserId);
      nextUserId := nextUserId + 1;
      r := Pass;
    }

    /**
     * `login`, on a submitted form: logs in the user the decision picks; on a
     * refusal the session stays as it was.
     */
    method Login(email: string, password: string, matches: (string, string) -> bool)
      returns (r: Outcome<Error>)
      requires Valid()
      modifies this`session
      ensures Valid()
      ensures match LoginDecision(users, email, password, matches)
        case Ok(u) => r == Pass && session == Some(u.id)
        case Err(e) => r == Fail(e) && session == old(session)
    {
      match LoginDecision(users, email, password, matches)
      case Ok(u) =>
        session := Some(u.id);
        r := Pass;
      case Err(e) =>
        r := Fail(e);
    }

    /**
     * `add`: a row for product `pid`, owned by the logged-in user and labelled
     * with the product's name, goes at the end of the cart table. The product
     * is looked up first, so an unknown `pid` fails even for nobody logged in.
     */
    method Add(pid: int) returns (r: Outcome<Error>)
      requires Valid()
      modifies this`cart, this`nextCartId
      ensures Valid()
      ensures FindProduct(products, pid).None? ==>
        r == Fail(ProductNotFound) && cart == old(cart) && nextCartId == old(nextCartId)
      ensures FindProduct(products, pid).Some? && session.None? ==>
        r == Fail(AnonymousUser) && cart == old(cart) && nextCartId == old(nextCartId)
      ensures FindProduct(products, pid).Some? && session.Some? ==>
        var p := FindProduct(products, pid).value;
        && r == Pass
        && cart == old(cart) + [CartRow(old(nextCartId), p.name, pid, session.value)]
        && nextCartId == old(nextCartId) + 1
      ensures old(RowsResolve()) ==> RowsResolve()
    {
      var found := FindProduct(products, pid);
      if found.None? {
        return Fail(ProductNotFound);
      }
      var product := found.value;
      if session.None? {
        return Fail(AnonymousUser);
      }
      cart := cart + [CartRow(nextCartId, product.name, product.id, session.value)];
      nextCartId := nextCartId + 1;
      r := Pass;
    }

    /**
     * `cart`: the logged-in user's rows joined to their products, and the sum
     * of those products' prices. A row whose product is missing fails the page.
     */
    method ViewCart() returns (r: Result<CartPage, Error>)
      requires Valid()
      ensures session.None? ==> r == Err(AnonymousUser)
      ensures session.Some? ==>
        var found := Join(products, OwnedBy(cart, session.value));
        match Resolve(found)
        case None => r == Err(DanglingProduct)
        case Some(ps) => r == Ok(CartPage(found, SumPrices(ps)))
      ensures session.Some? && RowsResolve() ==> r.Ok?
    {
      if session.None? {
        return Err(AnonymousUser);
      }
      var rows := OwnedBy(cart, session.value);
      var found := Join(products, rows);
      var total := 0;
      var i := 0;
      while i < |found|
        invariant 0 <= i <= |found|
        invariant Resolve(found[..i]).Some?
        invariant total == SumPrices(Resolve(found[..i]).value)
      {
        if found[i].None? {
          DanglingEntry(found, i);
          return Err(DanglingProduct);
        }
        var product := found[i].value;
        ghost var ps := Resolve(found[..i]).value;
        ResolveExtend(found, i);
        assert (ps + [product])[..|ps|] == ps;
        total := total + product.price;
        i := i + 1;
      }
      assert found[..|found|] == found;
      r := Ok(CartPage(found, total));
    }

    /**
     * `remove_from_cart`: deletes the first row, in store order, that names
     * product `pid`, whoever owns it; the session is never consulted. With no
     * such row the deletion fails and the table is as it was.
     */
    method RemoveFromCart(pid: int) returns (r: Outcome<Error>)
      requires Valid()
      modifies this`cart
      ensures Valid()
      ensures match FindRowByProduct(old(cart), pid)
        case None => r == Fail(NotFound) && cart == old(cart)
        case Some(i) => r == Pass && cart == old(cart)[..i] + old(cart)[i + 1..]
      ensures old(RowsResolve()) ==> RowsResolve()
    {
      match FindRowByProduct(cart, pid)
      case None =>
        r := Fail(NotFound);
      case Some(i) =>
        RemoveKeepsIds(cart, i);
        cart := cart[..i] + cart[i + 1..];
        r := Pass;
    }

    /**
     * `create_checkout_session`: one line item per product of the logged-in
     * user's cart, in cart order, handed to the gateway with the user's
     * email; the answer is the session id or the gateway's error. The method
     * modifies nothing: checkout leaves every table and the session alone,
     * whether the gateway succeeds or fails.
     */
    method CreateCheckoutSession(gateway: CheckoutRequest -> GatewayReply, domain: string)
      returns (r: Result<string, Error>)
      requires Valid()
      ensures session.None? ==> r == Err(AnonymousUser)
      ensures session.Some? ==>
        var found := Join(products, OwnedBy(cart, session.value));
        match Resolve(found)
        case None => r == Err(DanglingProduct)
        case Some(ps) =>
          r == Answer(gateway(BuildRequest(CurrentUser().value.email, LineItems(ps), domain)))
    {
      if session.None? {
        return Err(AnonymousUser);
      }
      var rows := OwnedBy(cart, session.value);
      var found := Join(products, rows);
      var items := [];
      var i := 0;
      while i < |found|
        invariant 0 <= i <= |found|
        invariant Resolve(found[..i]).Some?
        invariant items == LineItems(Resolve(found[..i]).value)
      {
        if found[i].None? {
          return Err(DanglingProduct);
        }
        var product := found[i].value;
        ghost var ps := Resolve(found[..i]).value;
        ResolveExtend(found, i);
        assert (ps + [product])[..|ps|] == ps;
        items := items + [ItemFor(product)];
        i := i + 1;
      }
      assert found[..|found|] == found;
      var reply := gateway(BuildRequest(CurrentUser().value.email, items, domain));
      r := Answer(reply);
    }

    /**
     * `success`: deletes, one at a time, every row the logged-in user owns;
     * every other user's rows stay, in order. The confirmation email is not
     * part of the model.
     */
    method Success() returns (r: Outcome<Error>)
      requires Valid()
      modifies this`cart
      ensures Valid()
      ensures session.None? ==> r == Fail(AnonymousUser) && cart == old(cart)
      ensures session.Some? ==> r == Pass && cart == NotOwnedBy(old(cart), session.value)
      ensures old(RowsResolve()) ==> RowsResolve()
    {
      if session.None? {
        return Fail(AnonymousUser);
      }
      var uid := session.value;
      var rows := OwnedBy(cart, uid);
      var i := 0;
      DropNothing(cart);
      while i < |rows|
        invariant 0 <= i <= |rows|
        invariant cart == DropIds(old(cart), Ids(rows[..i]))
      {
        DropOneMore(old(cart), Ids(rows[..i]), rows[i].id);
        IdsExtend(rows, i);
        cart := DropIds(cart, {rows[i].id});
        i := i + 1;
      }
      assert rows[..|rows|] == rows;
      PurgeByIds(old(cart), uid);
      assert cart == NotOwnedBy(old(cart), uid);
      PurgeKeepsIds(old(cart), uid);
      r := Pass;
    }
  }
}
