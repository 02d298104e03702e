/** The cart operations behind `addToCart`, `getCart`, `updateCartItem`,
    `removeFromCart` and the cart clearing at checkout. Entries of all users
    share one sequence; an entry belongs to the user whose id it carries. */
module Cart {
  import opened Model
  import opened Seqs
  import opened Catalogue

  /** `data.quantity || 1`: an absent or zero quantity counts as one. */
  function QuantityOrOne(q: Option<int>): (n: int)
    ensures n != 0
    ensures q.Some? && q.value != 0 ==> n == q.value
    ensures q.None? || q.value == 0 ==> n == 1
  {
    if q.Some? && q.value != 0 then q.value else 1
  }

  predicate SamePair(a: CartEntry, b: CartEntry)
  {
    a.userId == b.userId && a.productId == b.productId
  }

  /** No two entries share a (user, product) pair. */
  predicate UniquePairs(cart: seq<CartEntry>)
  {
    forall i, j :: 0 <= i < j < |cart| ==> !SamePair(cart[i], cart[j])
  }

  /** The first entry of `userId` for `productId`. */
  function EntryIndex(cart: seq<CartEntry>, userId: int, productId: int): int
  {
    FirstIndex(cart, (e: CartEntry) => e.userId == userId && e.productId == productId)
  }

  /** The first entry with id `cartItemId` that belongs to `userId`. */
  function OwnedIndex(cart: seq<CartEntry>, cartItemId: int, userId: int): int
  {
    FirstIndex(cart, (e: CartEntry) => e.id == cartItemId && e.userId == userId)
  }

  /** `addToCart`: an existing entry for the pair has its quantity raised and
      nothing else changes; otherwise one entry is appended whose id is the
      cart's length plus one. */
  function AddItem(cart: seq<CartEntry>, userId: int, productId: int, quantity: int, now: nat): (r: seq<CartEntry>)
    ensures var k := EntryIndex(cart, userId, productId);
      if 0 <= k then
        |r| == |cart| && r[k] == cart[k].(quantity := cart[k].quantity + quantity)
        && forall i :: 0 <= i < |cart| && i != k ==> r[i] == cart[i]
      else
        r == cart + [CartEntry(|cart| + 1, userId, productId, quantity, now)]
    ensures UniquePairs(cart) ==> UniquePairs(r)
  {
    var k := EntryIndex(cart, userId, productId);
    if 0 <= k then
      cart[k := cart[k].(quantity := cart[k].quantity + quantity)]
    else
      var e := CartEntry(|cart| + 1, userId, productId, quantity, now);
      assert forall i :: 0 <= i < |cart| ==> !SamePair(cart[i], e);
      cart + [e]
  }

  /** The quantity a user has of a product (zero when there is no entry). */
  function QuantityOf(cart: seq<CartEntry>, userId: int, productId: int): int
  {
    var k := EntryIndex(cart, userId, productId);
    if 0 <= k then cart[k].quantity else 0
  }

  /** Adding accumulates: the user's quantity of the product grows by exactly the amount added. */
  lemma AddItemAccumulates(cart: seq<CartEntry>, userId: int, productId: int, quantity: int, now: nat)
    ensures QuantityOf(AddItem(cart, userId, productId, quantity, now), userId, productId)
         == QuantityOf(cart, userId, productId) + quantity
  {
    var f := (e: CartEntry) => e.userId == userId && e.productId == productId;
    var k := EntryIndex(cart, userId, productId);
    var r := AddItem(cart, userId, productId, quantity, now);
    if 0 <= k {
      assert forall i :: 0 <= i < k ==> r[i] == cart[i];
      assert f(r[k]);
      assert FirstIndex(r, f) == k;
    } else {
      FirstIndexAppend(cart, CartEntry(|cart| + 1, userId, productId, quantity, now), f);
    }
  }

  /** Adding 2 and then 3 of a product not yet in the cart gives one new entry
      holding 5, not two entries. */
  lemma AddTwiceMerges(cart: seq<CartEntry>, userId: int, productId: int, t1: nat, t2: nat)
    requires EntryIndex(cart, userId, productId) == -1
    ensures var r := AddItem(AddItem(cart, userId, productId, 2, t1), userId, productId, 3, t2);
      |r| == |cart| + 1 && r[..|cart|] == cart
      && r[|cart|] == CartEntry(|cart| + 1, userId, productId, 5, t1)
  {
    var f := (e: CartEntry) => e.userId == userId && e.productId == productId;
    var e := CartEntry(|cart| + 1, userId, productId, 2, t1);
    FirstIndexAppend(cart, e, f);
    var c1 := AddItem(cart, userId, productId, 2, t1);
    assert c1 == cart + [e];
    assert EntryIndex(c1, userId, productId) == |cart|;
    var r := AddItem(c1, userId, productId, 3, t2);
    assert r[..|cart|] == cart;
  }

  /** `updateCartItem`: the entry at `k` takes the given quantity, whatever it is. */
  function WithQuantity(cart: seq<CartEntry>, k: nat, quantity: int): (r: seq<CartEntry>)
    requires k < |cart|
    ensures |r| == |cart| && r[k] == cart[k].(quantity := quantity)
    ensures forall i :: 0 <= i < |cart| && i != k ==> r[i] == cart[i]
    ensures UniquePairs(cart) ==> UniquePairs(r)
  {
    var r := cart[k := cart[k].(quantity := quantity)];
    assert forall i :: 0 <= i < |cart| ==> SamePair(r[i], cart[i]) && (i != k ==> r[i] == cart[i]);
    r
  }

  /** `removeFromCart` (`splice(k, 1)`): the entry at `k` goes and the others keep their order. */
  function RemoveAt(cart: seq<CartEntry>, k: nat): (r: seq<CartEntry>)
    requires k < |cart|
    ensures |r| == |cart| - 1
    ensures forall i :: 0 <= i < k ==> r[i] == cart[i]
    ensures forall i :: k <= i < |r| ==> r[i] == cart[i + 1]
    ensures UniquePairs(cart) ==> UniquePairs(r)
  {
    var r := cart[..k] + cart[k + 1..];
    assert forall i :: 0 <= i < |r| ==> r[i] == cart[if i < k then i else i + 1];
    r
  }

  /** The entries of `userId`, in cart order. */
  function UserEntries(cart: seq<CartEntry>, userId: int): (r: seq<CartEntry>)
    ensures forall i :: 0 <= i < |r| ==> r[i] in cart && r[i].userId == userId
    ensures forall i :: 0 <= i < |cart| && cart[i].userId == userId ==> cart[i] in r
  {
    Filter(cart, (e: CartEntry) => e.userId == userId)
  }

  /** Order and count of a user's entries: an entry appended to the cart is
      appended to its owner's entries and to nobody else's. */
  lemma UserEntriesAppend(cart: seq<CartEntry>, e: CartEntry, userId: int)
    ensures UserEntries(cart + [e], userId) ==
      UserEntries(cart, userId) + (if e.userId == userId then [e] else [])
  {
    FilterAppend(cart, [e], (x: CartEntry) => x.userId == userId);
    FilterSingleton(e, (x: CartEntry) => x.userId == userId);
  }

  /** Checkout's `db.cart.filter(item => item.userId !== userId)`. */
  function ClearUser(cart: seq<CartEntry>, userId: int): (r: seq<CartEntry>)
    ensures UserEntries(r, userId) == []
    ensures forall i :: 0 <= i < |r| ==> r[i] in cart
    ensures forall i :: 0 <= i < |cart| && cart[i].userId != userId ==> cart[i] in r
    ensures UniquePairs(cart) ==> UniquePairs(r)
  {
    var r := Filter(cart, (e: CartEntry) => e.userId != userId);
    NoneLeft(r, userId);
    if UniquePairs(cart) then FilterKeepsUniquePairs(cart, (e: CartEntry) => e.userId != userId); r else r
  }

  lemma {:induction false} NoneLeft(r: seq<CartEntry>, userId: int)
    requires forall i :: 0 <= i < |r| ==> r[i].userId != userId
    ensures UserEntries(r, userId) == []
  {
    if r != [] {
      NoneLeft(r[1..], userId);
    }
  }

  lemma {:induction false} FilterKeepsUniquePairs(cart: seq<CartEntry>, f: CartEntry -> bool)
    requires UniquePairs(cart)
    ensures UniquePairs(Filter(cart, f))
  {
    if cart != [] {
      var tail := cart[1..];
      HeadApart(cart);
      FilterKeepsUniquePairs(tail, f);
      var rest := Filter(tail, f);
      ApartFromSubset(cart[0], tail, rest);
      if f(cart[0]) {
        assert Filter(cart, f) == [cart[0]] + rest;
        ConsUnique(cart[0], rest);
      } else {
        assert Filter(cart, f) == rest;
      }
    }
  }

  /** The head of a cart with unique pairs shares its pair with no later
      entry, and the tail has unique pairs. */
  lemma HeadApart(cart: seq<CartEntry>)
    requires UniquePairs(cart) && cart != []
    ensures UniquePairs(cart[1..])
    ensures forall k :: 0 <= k < |cart[1..]| ==> !SamePair(cart[0], cart[1..][k])
  {
    var tail := cart[1..];
    assert forall k :: 0 <= k < |tail| ==> tail[k] == cart[k + 1];
  }

  /** An entry apart from every entry of `t` is apart from every entry drawn from `t`. */
  lemma ApartFromSubset(h: CartEntry, t: seq<CartEntry>, r: seq<CartEntry>)
    requires forall k :: 0 <= k < |t| ==> !SamePair(h, t[k])
    requires forall i :: 0 <= i < |r| ==> r[i] in t
    ensures forall i :: 0 <= i < |r| ==> !SamePair(h, r[i])
  {
  }

  /** Putting in front an entry apart from all the others keeps the pairs unique. */
  lemma ConsUnique(h: CartEntry, rest: seq<CartEntry>)
    requires UniquePairs(rest)
    requires forall i :: 0 <= i < |rest| ==> !SamePair(h, rest[i])
    ensures UniquePairs([h] + rest)
  {
    var r := [h] + rest;
    assert forall i :: 0 < i < |r| ==> r[i] == rest[i - 1];
  }

  /** Clearing one user's cart leaves every other user's entries exactly as they were, in order. */
  lemma {:induction false} ClearUserKeepsOthers(cart: seq<CartEntry>, userId: int, other: int)
    requires other != userId
    ensures UserEntries(ClearUser(cart, userId), other) == UserEntries(cart, other)
  {
    if cart != [] {
      ClearUserKeepsOthers(cart[1..], userId, other);
      var rest := ClearUser(cart[1..], userId);
      var r := ClearUser(cart, userId);
      assert r == (if cart[0].userId != userId then [cart[0]] else []) + rest;
      assert UserEntries(cart, other) == (if cart[0].userId == other then [cart[0]] else []) + UserEntries(cart[1..], other);
      if cart[0].userId != userId {
        assert r[0] == cart[0] && r[1..] == rest;
        assert UserEntries(r, other) == (if cart[0].userId == other then [cart[0]] else []) + UserEntries(rest, other);
      } else {
        assert r == rest;
        assert UserEntries(cart, other) == UserEntries(cart[1..], other);
      }
    }
  }

  /** `getCart`: the caller's entries in cart order, each joined with the live
      catalogue product of its id (absent when no product has that id). */
  function CartView(cart: seq<CartEntry>, products: seq<Product>, userId: int): (r: seq<CartLine>)
    ensures |r| == |UserEntries(cart, userId)|
    ensures forall i :: 0 <= i < |r| ==> r[i].entry in cart && r[i].entry.userId == userId
    ensures forall i :: 0 <= i < |cart| && cart[i].userId == userId ==> exists j :: 0 <= j < |r| && r[j].entry == cart[i]
    ensures forall i :: 0 <= i < |r| && r[i].product.Some? ==>
      r[i].product.value in products && r[i].product.value.id == r[i].entry.productId
    ensures forall i :: 0 <= i < |r| && r[i].product.None? ==>
      forall p :: p in products ==> p.id != r[i].entry.productId
    ensures forall i :: 0 <= i < |r| ==>
      r[i].entry == UserEntries(cart, userId)[i] && r[i].product == FindProduct(products, r[i].entry.productId)
  {
    var mine := UserEntries(cart, userId);
    var r := seq(|mine|, i requires 0 <= i < |mine| => CartLine(mine[i], FindProduct(products, mine[i].productId)));
    assert forall i :: 0 <= i < |cart| && cart[i].userId == userId ==> exists j :: 0 <= j < |r| && r[j].entry == cart[i] by {
      forall i | 0 <= i < |cart| && cart[i].userId == userId
        ensures exists j :: 0 <= j < |r| && r[j].entry == cart[i]
      {
        var j :| 0 <= j < |mine| && mine[j] == cart[i];
        assert r[j].entry == cart[i];
      }
    }
    r
  }

  /** Ids are the cart's length plus one, so removing an entry lets a later
      addition reuse an id still held: adding two products, removing the
      first and adding a third leaves two entries with id 2. */
  lemma CartIdReused()
    ensures var c2 := AddItem(AddItem([], 7, 1, 1, 0), 7, 2, 1, 0);
      |c2| == 2 &&
      var c4 := AddItem(RemoveAt(c2, 0), 7, 3, 1, 0);
      |c4| == 2 && c4[0].id == 2 && c4[1].id == 2
  {
    TwoProductsAdded();
    var c3 := RemoveAt([CartEntry(1, 7, 1, 1, 0), CartEntry(2, 7, 2, 1, 0)], 0);
    assert c3 == [CartEntry(2, 7, 2, 1, 0)];
    assert EntryIndex(c3, 7, 3) == -1;
  }

  lemma TwoProductsAdded()
    ensures AddItem(AddItem([], 7, 1, 1, 0), 7, 2, 1, 0) == [CartEntry(1, 7, 1, 1, 0), CartEntry(2, 7, 2, 1, 0)]
  {
    var c1 := AddItem([], 7, 1, 1, 0);
    assert c1 == [CartEntry(1, 7, 1, 1, 0)];
    assert EntryIndex(c1, 7, 2) == -1;
  }
}
