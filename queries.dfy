/**
 * The lookups the handlers run against the store. `Query.first()` is the
 * first matching row in store order; `Query.get(id)` is a primary-key lookup,
 * which on a table with unique ids is the same thing.
 */
module Queries {
  import opened Wrappers
  import opened Schema

  /** The index of the first element of `s` that satisfies `p`, if any. */
  function FirstIndex<T>(s: seq<T>, p: T -> bool): (r: Option<nat>)
    ensures r.None? <==> forall k :: 0 <= k < |s| ==> !p(s[k])
    ensures r.Some? ==> r.value < |s| && p(s[r.value]) && forall k :: 0 <= k < r.value ==> !p(s[k])
  {
    if s == [] then None
    else if p(s[0]) then Some(0)
    else match FirstIndex(s[1..], p)
      case None => None
      case Some(i) => Some(i + 1)
  }

  /** `User.query.filter_by(email=email).first()`, as an index into the table. */
  function FindUserByEmail(users: seq<User>, email: string): (r: Option<nat>)
    ensures r.None? <==> forall k :: 0 <= k < |users| ==> users[k].email != email
    ensures r.Some? ==> r.value < |users| && users[r.value].email == email
    ensures r.Some? ==> forall k :: 0 <= k < r.value ==> users[k].email != email
  {
    FirstIndex(users, (u: User) => u.email == email)
  }

  /** `User.query.get(id)`: how the session's user id becomes `current_user`. */
  function FindUserById(users: seq<User>, id: int): (r: Option<User>)
    ensures r.None? <==> forall k :: 0 <= k < |users| ==> users[k].id != id
    ensures r.Some? ==> r.value in users && r.value.id == id
  {
    match FirstIndex(users, (u: User) => u.id == id)
    case None => None
    case Some(i) => Some(users[i])
  }

  /** `Products.query.get(pid)`, also `Products.query.filter_by(id=pid).first()`. */
  function FindProduct(products: seq<Product>, pid: int): (r: Option<Product>)
    ensures r.None? <==> forall k :: 0 <= k < |products| ==> products[k].id != pid
    ensures r.Some? ==> r.value in products && r.value.id == pid
  {
    match FirstIndex(products, (p: Product) => p.id == pid)
    case None => None
    case Some(i) => Some(products[i])
  }

  /** `Cart.query.filter_by(product_id=pid).first()`, as an index into the table. */
  function FindRowByProduct(cart: seq<CartRow>, pid: int): (r: Option<nat>)
    ensures r.None? <==> forall k :: 0 <= k < |cart| ==> cart[k].productId != pid
    ensures r.Some? ==> r.value < |cart| && cart[r.value].productId == pid
    ensures r.Some? ==> forall k :: 0 <= k < r.value ==> cart[k].productId != pid
  {
    FirstIndex(cart, (row: CartRow) => row.productId == pid)
  }

  /**
   * The product each cart row refers to, in row order: the list comprehension
   * both the cart page and checkout build. A dangling reference gives None.
   */
  function Join(products: seq<Product>, rows: seq<CartRow>): (r: seq<Option<Product>>)
    ensures |r| == |rows|
  {
    seq(|rows|, k requires 0 <= k < |rows| => FindProduct(products, rows[k].productId))
  }

  /** The joined products when none is missing; None as soon as one row dangles. */
  function Resolve(found: seq<Option<Product>>): (r: Option<seq<Product>>)
    ensures r.Some? <==> forall k :: 0 <= k < |found| ==> found[k].Some?
    ensures r.Some? ==> |r.value| == |found|
    ensures r.Some? ==> forall k :: 0 <= k < |found| ==> found[k] == Some(r.value[k])
  {
    if found == [] then Some([])
    else
      match Resolve(found[..|found| - 1])
      case None => None
      case Some(ps) =>
        match found[|found| - 1]
        case None => None
        case Some(p) => Some(ps + [p])
  }

  /** Resolving one more entry of a join: the products so far, and this entry's product. */
  lemma ResolveExtend(found: seq<Option<Product>>, i: nat)
    requires i < |found| && Resolve(found[..i]).Some? && found[i].Some?
    ensures Resolve(found[..i + 1]) == Some(Resolve(found[..i]).value + [found[i].value])
  {
    assert found[..i + 1][..i] == found[..i];
  }

  /**
   * Entry `k` of the join is missing exactly when no catalog product has the
   * id row `k` names; otherwise it is a catalog product with that id.
   */
  lemma JoinEntries(products: seq<Product>, rows: seq<CartRow>, k: nat)
    requires k < |rows|
    ensures Join(products, rows)[k].None? <==>
      forall j :: 0 <= j < |products| ==> products[j].id != rows[k].productId
    ensures Join(products, rows)[k].Some? ==>
      Join(products, rows)[k].value in products && Join(products, rows)[k].value.id == rows[k].productId
  {
  }

  /** A join all of whose rows resolve yields the products the rows name, in row order. */
  lemma JoinResolves(products: seq<Product>, rows: seq<CartRow>)
    ensures Resolve(Join(products, rows)).Some? <==>
      forall k :: 0 <= k < |rows| ==> FindProduct(products, rows[k].productId).Some?
    ensures Resolve(Join(products, rows)).Some? ==>
      forall k :: 0 <= k < |rows| ==>
        Some(Resolve(Join(products, rows)).value[k]) == FindProduct(products, rows[k].productId)
  {
    var found := Join(products, rows);
    assert forall k :: 0 <= k < |rows| ==> found[k] == FindProduct(products, rows[k].productId);
  }
}
