/**
 * The cart table seen per user: whose rows are whose, what they add up to,
 * what removing a row by product id does, and what purging a user's rows
 * leaves behind.
 */
module CartRows {
  import opened Wrappers
  import opened Schema
  import opened Queries

  /** `Cart.query.filter_by(user_id=uid).all()`: the user's rows in store order. */
  function OwnedBy(cart: seq<CartRow>, uid: int): seq<CartRow>
  {
    if cart == [] then []
    else
      var last := cart[|cart| - 1];
      OwnedBy(cart[..|cart| - 1], uid) + if last.userId == uid then [last] else []
  }

  /** The rows of every user but `uid`, in store order. */
  function NotOwnedBy(cart: seq<CartRow>, uid: int): seq<CartRow>
  {
    if cart == [] then []
    else
      var last := cart[|cart| - 1];
      NotOwnedBy(cart[..|cart| - 1], uid) + if last.userId == uid then [] else [last]
  }

  /** The sum of the prices, each product counted once per occurrence. */
  function SumPrices(ps: seq<Product>): int
  {
    if ps == [] then 0 else SumPrices(ps[..|ps| - 1]) + ps[|ps| - 1].price
  }

  /**
   * Reference definition of a cart's value, row by row from the front: the
   * price of the product each row names, summed; None if a row dangles.
   */
  function RowsTotal(products: seq<Product>, rows: seq<CartRow>): Option<int>
  {
    if rows == [] then Some(0)
    else
      match FindProduct(products, rows[0].productId)
      case None => None
      case Some(p) =>
        match RowsTotal(products, rows[1..])
        case None => None
        case Some(t) => Some(p.price + t)
  }

  /** How many rows name product `pid`. */
  function CountFor(cart: seq<CartRow>, pid: int): nat
  {
    if cart == [] then 0
    else CountFor(cart[..|cart| - 1], pid) + if cart[|cart| - 1].productId == pid then 1 else 0
  }

  /** The ids of the given rows. */
  function Ids(rows: seq<CartRow>): set<int>
  {
    if rows == [] then {} else Ids(rows[..|rows| - 1]) + {rows[|rows| - 1].id}
  }

  /** The rows whose id is not in `gone`: what is left after deleting those rows. */
  function DropIds(cart: seq<CartRow>, gone: set<int>): seq<CartRow>
  {
    if cart == [] then []
    else
      var last := cart[|cart| - 1];
      DropIds(cart[..|cart| - 1], gone) + if last.id in gone then [] else [last]
  }

  /** The primary key of the cart table: no two rows share an id. */
  predicate UniqueIds(cart: seq<CartRow>)
  {
    forall i, j :: 0 <= i < j < |cart| ==> cart[i].id != cart[j].id
  }

  // ---------------------------------------------------------------------------
  // Filters

  lemma {:induction false} OwnedByConcat(a: seq<CartRow>, b: seq<CartRow>, uid: int)
    ensures OwnedBy(a + b, uid) == OwnedBy(a, uid) + OwnedBy(b, uid)
    decreases |b|
  {
    if b == [] {
      assert a + b == a;
    } else {
      var b' := b[..|b| - 1];
      assert (a + b)[..|a + b| - 1] == a + b';
      OwnedByConcat(a, b', uid);
    }
  }

  /**
   * `OwnedBy` keeps exactly the user's rows: each row it returns is a row of
   * the cart owned by the user, and each cart row the user owns is returned.
   */
  lemma {:induction false} OwnedByMembers(cart: seq<CartRow>, uid: int)
    ensures forall r :: r in OwnedBy(cart, uid) ==> r in cart && r.userId == uid
    ensures forall k :: 0 <= k < |cart| && cart[k].userId == uid ==> cart[k] in OwnedBy(cart, uid)
    decreases |cart|
  {
    if cart != [] {
      var init := cart[..|cart| - 1];
      OwnedByMembers(init, uid);
      assert forall k :: 0 <= k < |init| ==> cart[k] == init[k];
    }
  }

  /** Appending a row changes only its owner's view of the cart, by that row. */
  lemma OwnedByAppend(cart: seq<CartRow>, row: CartRow)
    ensures OwnedBy(cart + [row], row.userId) == OwnedBy(cart, row.userId) + [row]
    ensures forall v :: v != row.userId ==> OwnedBy(cart + [row], v) == OwnedBy(cart, v)
  {
  }

  // ---------------------------------------------------------------------------
  // Totals

  lemma {:induction false} SumPricesPrepend(p: Product, ps: seq<Product>)
    ensures SumPrices([p] + ps) == p.price + SumPrices(ps)
    decreases |ps|
  {
    if ps != [] {
      assert ([p] + ps)[..|ps|] == [p] + ps[..|ps| - 1];
      SumPricesPrepend(p, ps[..|ps| - 1]);
    }
  }

  /** Resolving a join one row longer at the front. */
  lemma ResolvePrepend(o: Option<Product>, found: seq<Option<Product>>)
    ensures Resolve([o] + found) ==
      match o
      case None => None
      case Some(p) =>
        match Resolve(found)
        case None => None
        case Some(ps) => Some([p] + ps)
  {
    var all := [o] + found;
    if o.Some? && Resolve(found).Some? {
      var ps := [o.value] + Resolve(found).value;
      assert forall k :: 0 <= k < |all| ==> all[k] == Some(ps[k]);
      assert Resolve(all).value == ps;
    } else if o.Some? {
      var k :| 0 <= k < |found| && found[k].None?;
      assert all[k + 1].None?;
    } else {
      assert all[0].None?;
    }
  }

  /**
   * The total the cart page shows, the sum over the joined products, is the
   * reference total of the rows: the price of each row's product, a product
   * added twice counted twice. Either both exist or a row dangles.
   */
  lemma {:induction false} CartTotalIsRowsTotal(products: seq<Product>, rows: seq<CartRow>)
    ensures Resolve(Join(products, rows)).Some? <==> RowsTotal(products, rows).Some?
    ensures Resolve(Join(products, rows)).Some? ==>
      SumPrices(Resolve(Join(products, rows)).value) == RowsTotal(products, rows).value
    decreases |rows|
  {
    if rows == [] {
      assert Join(products, rows) == [];
    } else {
      var rest := rows[1..];
      var head := FindProduct(products, rows[0].productId);
      assert Join(products, rows) == [head] + Join(products, rest);
      CartTotalIsRowsTotal(products, rest);
      ResolvePrepend(head, Join(products, rest));
      if head.Some? && Resolve(Join(products, rest)).Some? {
        SumPricesPrepend(head.value, Resolve(Join(products, rest)).value);
      }
    }
  }

  lemma {:induction false} RowsTotalAppend(products: seq<Product>, rows: seq<CartRow>, row: CartRow, p: Product)
    requires FindProduct(products, row.productId) == Some(p)
    ensures RowsTotal(products, rows + [row]) ==
      match RowsTotal(products, rows)
      case None => None
      case Some(t) => Some(t + p.price)
    decreases |rows|
  {
    if rows == [] {
      assert (rows + [row])[1..] == [];
    } else {
      assert (rows + [row])[1..] == rows[1..] + [row];
      RowsTotalAppend(products, rows[1..], row, p);
    }
  }

  /**
   * Adding product `p` for a user raises that user's cart total by exactly
   * `p.price`, however many rows for `p` the cart holds already, and leaves
   * every other user's rows as they were.
   */
  lemma AddRaisesTotal(products: seq<Product>, cart: seq<CartRow>, row: CartRow, p: Product)
    requires FindProduct(products, row.productId) == Some(p)
    ensures RowsTotal(products, OwnedBy(cart + [row], row.userId)) ==
      match RowsTotal(products, OwnedBy(cart, row.userId))
      case None => None
      case Some(t) => Some(t + p.price)
    ensures forall v :: v != row.userId ==> OwnedBy(cart + [row], v) == OwnedBy(cart, v)
  {
    OwnedByAppend(cart, row);
    RowsTotalAppend(products, OwnedBy(cart, row.userId), row, p);
  }

  // ---------------------------------------------------------------------------
  // Removal by product id

  lemma {:induction false} CountForConcat(a: seq<CartRow>, b: seq<CartRow>, pid: int)
    ensures CountFor(a + b, pid) == CountFor(a, pid) + CountFor(b, pid)
    decreases |b|
  {
    if b == [] {
      assert a + b == a;
    } else {
      var b' := b[..|b| - 1];
      assert (a + b)[..|a + b| - 1] == a + b';
      CountForConcat(a, b', pid);
    }
  }

  lemma {:induction false} CountForZero(cart: seq<CartRow>, pid: int)
    ensures CountFor(cart, pid) == 0 <==> forall k :: 0 <= k < |cart| ==> cart[k].productId != pid
    decreases |cart|
  {
    if cart != [] {
      CountForZero(cart[..|cart| - 1], pid);
    }
  }

  lemma CountWithout(cart: seq<CartRow>, i: nat, pid: int)
    requires i < |cart|
    ensures CountFor(cart, pid) ==
      CountFor(cart[..i] + cart[i + 1..], pid) + if cart[i].productId == pid then 1 else 0
  {
    assert cart == cart[..i] + [cart[i]] + cart[i + 1..];
    CountForConcat(cart[..i] + [cart[i]], cart[i + 1..], pid);
    CountForConcat(cart[..i], [cart[i]], pid);
    CountForConcat(cart[..i], cart[i + 1..], pid);
    assert [cart[i]][..0] == [];
  }

  lemma OwnedWithout(cart: seq<CartRow>, i: nat, v: int)
    requires i < |cart|
    ensures OwnedBy(cart, v) ==
      OwnedBy(cart[..i], v) + (if cart[i].userId == v then [cart[i]] else []) + OwnedBy(cart[i + 1..], v)
    ensures OwnedBy(cart[..i] + cart[i + 1..], v) == OwnedBy(cart[..i], v) + OwnedBy(cart[i + 1..], v)
  {
    assert cart == cart[..i] + [cart[i]] + cart[i + 1..];
    OwnedByConcat(cart[..i] + [cart[i]], cart[i + 1..], v);
    OwnedByConcat(cart[..i], [cart[i]], v);
    OwnedByConcat(cart[..i], cart[i + 1..], v);
    assert [cart[i]][..0] == [];
  }

  /**
   * Removal finds a row exactly when some row names the product; the row it
   * deletes is the first such row, whoever owns it. One row for the product
   * goes, the owner loses exactly that row, and every other user's rows stay
   * as they were.
   */
  lemma RemoveTakesOneRow(cart: seq<CartRow>, pid: int)
    ensures FindRowByProduct(cart, pid).None? <==> CountFor(cart, pid) == 0
    ensures FindRowByProduct(cart, pid).Some? ==>
      var i := FindRowByProduct(cart, pid).value;
      var rest := cart[..i] + cart[i + 1..];
      && CountFor(rest, pid) == CountFor(cart, pid) - 1
      && OwnedBy(cart, cart[i].userId) ==
           OwnedBy(cart[..i], cart[i].userId) + [cart[i]] + OwnedBy(cart[i + 1..], cart[i].userId)
      && OwnedBy(rest, cart[i].userId) ==
           OwnedBy(cart[..i], cart[i].userId) + OwnedBy(cart[i + 1..], cart[i].userId)
      && forall v :: v != cart[i].userId ==> OwnedBy(rest, v) == OwnedBy(cart, v)
  {
    CountForZero(cart, pid);
    if FindRowByProduct(cart, pid).Some? {
      var i := FindRowByProduct(cart, pid).value;
      CountWithout(cart, i, pid);
      OwnedWithout(cart, i, cart[i].userId);
      forall v | v != cart[i].userId
        ensures OwnedBy(cart[..i] + cart[i + 1..], v) == OwnedBy(cart, v)
      {
        OwnedWithout(cart, i, v);
      }
    }
  }

  /** Once the only row for a product is removed, removing it again fails. */
  lemma SecondRemoveFails(cart: seq<CartRow>, pid: int)
    requires CountFor(cart, pid) == 1
    ensures FindRowByProduct(cart, pid).Some?
    ensures var i := FindRowByProduct(cart, pid).value;
      FindRowByProduct(cart[..i] + cart[i + 1..], pid).None?
  {
    RemoveTakesOneRow(cart, pid);
    var i := FindRowByProduct(cart, pid).value;
    RemoveTakesOneRow(cart[..i] + cart[i + 1..], pid);
  }

  /** Deleting one row keeps the primary key unique. */
  lemma RemoveKeepsIds(cart: seq<CartRow>, i: nat)
    requires i < |cart|
    ensures forall r :: r in cart[..i] + cart[i + 1..] ==> r in cart
    ensures UniqueIds(cart) ==> UniqueIds(cart[..i] + cart[i + 1..])
  {
  }

  // ---------------------------------------------------------------------------
  // Purge of a user's rows

  /** After the purge the user has no rows left. */
  lemma {:induction false} PurgeClears(cart: seq<CartRow>, uid: int)
    ensures OwnedBy(NotOwnedBy(cart, uid), uid) == []
    decreases |cart|
  {
    if cart != [] {
      var last := cart[|cart| - 1];
      var init := NotOwnedBy(cart[..|cart| - 1], uid);
      PurgeClears(cart[..|cart| - 1], uid);
      if last.userId != uid {
        OwnedByAppend(init, last);
      } else {
        assert NotOwnedBy(cart, uid) == init;
      }
    }
  }

  /** The purge leaves every other user's rows exactly as they were, in order. */
  lemma {:induction false} PurgeKeepsOthers(cart: seq<CartRow>, uid: int, other: int)
    requires other != uid
    ensures OwnedBy(NotOwnedBy(cart, uid), other) == OwnedBy(cart, other)
    decreases |cart|
  {
    if cart != [] {
      var last := cart[|cart| - 1];
      var init := NotOwnedBy(cart[..|cart| - 1], uid);
      PurgeKeepsOthers(cart[..|cart| - 1], uid, other);
      if last.userId != uid {
        OwnedByAppend(init, last);
      } else {
        assert NotOwnedBy(cart, uid) == init;
      }
      OwnedByAppend(cart[..|cart| - 1], last);
      assert cart == cart[..|cart| - 1] + [last];
    }
  }

  lemma {:induction false} IdsMember(rows: seq<CartRow>, x: int)
    ensures x in Ids(rows) <==> exists k :: 0 <= k < |rows| && rows[k].id == x
    decreases |rows|
  {
    if rows != [] {
      var init := rows[..|rows| - 1];
      IdsMember(init, x);
      if x in Ids(init) {
        var k :| 0 <= k < |init| && init[k].id == x;
        assert rows[k].id == x;
      }
    }
  }

  /** The ids of one more row. */
  lemma IdsExtend(rows: seq<CartRow>, i: nat)
    requires i < |rows|
    ensures Ids(rows[..i + 1]) == Ids(rows[..i]) + {rows[i].id}
  {
    assert rows[..i + 1][..i] == rows[..i];
  }

  lemma {:induction false} OwnedIdsWithin(cart: seq<CartRow>, uid: int)
    ensures Ids(OwnedBy(cart, uid)) <= Ids(cart)
    decreases |cart|
  {
    if cart != [] {
      var last := cart[|cart| - 1];
      var init := cart[..|cart| - 1];
      OwnedIdsWithin(init, uid);
      var o := OwnedBy(init, uid);
      if last.userId == uid {
        assert (o + [last])[..|o|] == o;
      } else {
        assert OwnedBy(cart, uid) == o;
      }
    }
  }

  lemma {:induction false} DropAbsent(cart: seq<CartRow>, gone: set<int>, x: int)
    requires x !in Ids(cart)
    ensures DropIds(cart, gone + {x}) == DropIds(cart, gone)
    decreases |cart|
  {
    if cart != [] {
      DropAbsent(cart[..|cart| - 1], gone, x);
    }
  }

  lemma {:induction false} DropNothing(cart: seq<CartRow>)
    ensures DropIds(cart, {}) == cart
    decreases |cart|
  {
    if cart != [] {
      DropNothing(cart[..|cart| - 1]);
      assert cart == cart[..|cart| - 1] + [cart[|cart| - 1]];
    }
  }

  /** Deleting one more row after some others is deleting them all at once. */
  lemma {:induction false} DropOneMore(cart: seq<CartRow>, gone: set<int>, x: int)
    ensures DropIds(DropIds(cart, gone), {x}) == DropIds(cart, gone + {x})
    decreases |cart|
  {
    if cart != [] {
      var last := cart[|cart| - 1];
      var init := DropIds(cart[..|cart| - 1], gone);
      DropOneMore(cart[..|cart| - 1], gone, x);
      if last.id !in gone {
        assert (init + [last])[..|init|] == init;
      } else {
        assert DropIds(cart, gone) == init;
      }
    }
  }

  /**
   * Deleting, one by one, the rows a user owns leaves exactly the other
   * users' rows: the row ids are unique, so no other user's row shares an id
   * with a deleted one.
   */
  lemma {:induction false} PurgeByIds(cart: seq<CartRow>, uid: int)
    requires UniqueIds(cart)
    ensures DropIds(cart, Ids(OwnedBy(cart, uid))) == NotOwnedBy(cart, uid)
    decreases |cart|
  {
    if cart != [] {
      var last := cart[|cart| - 1];
      var init := cart[..|cart| - 1];
      var owned := OwnedBy(init, uid);
      PurgeByIds(init, uid);
      IdsMember(init, last.id);
      assert last.id !in Ids(init);
      if last.userId == uid {
        assert (owned + [last])[..|owned|] == owned;
        assert Ids(OwnedBy(cart, uid)) == Ids(owned) + {last.id};
        DropAbsent(init, Ids(owned), last.id);
      } else {
        OwnedIdsWithin(init, uid);
        assert OwnedBy(cart, uid) == owned;
      }
    }
  }

  /** Every row the purge keeps was in the cart; the primary key stays unique. */
  lemma {:induction false} PurgeKeepsIds(cart: seq<CartRow>, uid: int)
    ensures forall r :: r in NotOwnedBy(cart, uid) ==> r in cart
    ensures UniqueIds(cart) ==> UniqueIds(NotOwnedBy(cart, uid))
    decreases |cart|
  {
    if cart != [] {
      var last := cart[|cart| - 1];
      var init := cart[..|cart| - 1];
      PurgeKeepsIds(init, uid);
      var kept := NotOwnedBy(init, uid);
      if UniqueIds(cart) && last.userId != uid {
        forall i, j | 0 <= i < j < |kept + [last]|
          ensures (kept + [last])[i].id != (kept + [last])[j].id
        {
          if j == |kept| {
            var r := kept[i];
            assert r in init;
            var k :| 0 <= k < |init| && init[k] == r;
            assert cart[k] == r;
          }
        }
      }
    }
  }
}
