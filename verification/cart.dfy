/** The shopping-cart store: a sequence of lines, each a product and a
    quantity, with `addToCart`, `removeFromCart` and the derived
    `cartCount` and `cartTotal`. The reactive wrapper is removed: every
    action is a function from the old line sequence to the new one. */
module CartStore {
  import opened Wrappers
  import opened ProductTypes

  /** One cart line. The quantity is never validated by the store, so it
      is any integer, not necessarily positive. */
  datatype CartItem = CartItem(product: Product, quantity: int)

  type Cart = seq<CartItem>

  /** The cart the store starts with. */
  const EmptyCart: Cart := []

  /** The quantity `addToCart` uses when the caller leaves it out. */
  const DefaultQuantity: int := 1

  /** The store's key invariant: at most one line per product id. */
  ghost predicate UniqueIds(items: Cart) {
    forall i, j :: 0 <= i < j < |items| ==> items[i].product.id != items[j].product.id
  }

  /** Some line carries product id `id`. */
  ghost predicate HasId(items: Cart, id: int) {
    exists k :: 0 <= k < |items| && items[k].product.id == id
  }

  /** `k` is the first line whose product id is `id`. */
  ghost predicate FirstWithId(items: Cart, id: int, k: int) {
    && 0 <= k < |items|
    && items[k].product.id == id
    && forall j :: 0 <= j < k ==> items[j].product.id != id
  }

  // ---------------------------------------------------------------------
  // Derived values

  /** What one line contributes to the total. */
  function LineTotal(item: CartItem): int {
    item.product.price * item.quantity
  }

  /** The reference meaning of the total: the sum of `price * quantity`
      over the lines. */
  function Sum(items: Cart): int {
    if |items| == 0 then 0 else LineTotal(items[0]) + Sum(items[1..])
  }

  /** `Array.prototype.reduce` with the accumulator `acc`: a left fold that
      visits the lines front to back. */
  function Reduce(items: Cart, acc: int): int {
    if |items| == 0 then acc else Reduce(items[1..], acc + LineTotal(items[0]))
  }

  /** `cartTotal`: the reduction started at 0. */
  function CartTotal(items: Cart): (total: int)
    ensures total == Sum(items)
    ensures items == [] ==> total == 0
  {
    ReduceIsSum(items, 0);
    Reduce(items, 0)
  }

  /** The starting cart holds the invariant, has no lines and totals 0. */
  lemma EmptyCartInvariant()
    ensures UniqueIds(EmptyCart)
    ensures CartCount(EmptyCart) == 0 && CartTotal(EmptyCart) == 0
  {
  }

  /** `cartCount`: the number of lines, not the sum of their quantities. */
  function CartCount(items: Cart): nat {
    |items|
  }

  lemma {:induction false} ReduceIsSum(items: Cart, acc: int)
    ensures Reduce(items, acc) == acc + Sum(items)
    decreases |items|
  {
    if |items| != 0 {
      ReduceIsSum(items[1..], acc + LineTotal(items[0]));
    }
  }

  lemma {:induction false} SumAppend(a: Cart, b: Cart)
    ensures Sum(a + b) == Sum(a) + Sum(b)
    decreases |a|
  {
    if |a| == 0 {
      assert a + b == b;
    } else {
      assert (a + b)[1..] == a[1..] + b;
      SumAppend(a[1..], b);
    }
  }

  /** Changing one line's quantity by `q` moves the total by `q` times that
      line's price. */
  lemma {:induction false} SumBumpQuantity(items: Cart, k: int, q: int)
    requires 0 <= k < |items|
    ensures Sum(items[k := items[k].(quantity := items[k].quantity + q)])
         == Sum(items) + q * items[k].product.price
    decreases |items|
  {
    var bumped := items[k := items[k].(quantity := items[k].quantity + q)];
    if k == 0 {
      assert bumped[1..] == items[1..];
    } else {
      assert bumped[1..] == items[1..][k - 1 := items[k].(quantity := items[k].quantity + q)];
      SumBumpQuantity(items[1..], k - 1, q);
    }
  }

  // ---------------------------------------------------------------------
  // addToCart

  /** `items.find(item => item.product.id === id)`, as the index of the line
      found. */
  function FindLine(items: Cart, id: int): (r: Option<nat>)
    ensures r.None? <==> !HasId(items, id)
    ensures r.Some? ==> FirstWithId(items, id, r.value)
  {
    if |items| == 0 then None
    else if items[0].product.id == id then Some(0)
    else match FindLine(items[1..], id)
      case None => None
      case Some(k) => Some(k + 1)
  }

  /** `addToCart(product, quantity = 1)`. `quantity` is `None` when the
      caller leaves the argument out. A product whose id already has a line
      adds to that line's quantity; otherwise a new line is appended. */
  function AddToCart(items: Cart, product: Product, quantity: Option<int>): Cart {
    var q := quantity.GetOr(DefaultQuantity);
    match FindLine(items, product.id)
    case Some(k) => items[k := items[k].(quantity := items[k].quantity + q)]
    case None => items + [CartItem(product, q)]
  }

  /** A product whose id has no line is appended as one new line with the
      requested quantity; the earlier lines are left as they were. */
  lemma AddToCartNewLine(items: Cart, product: Product, quantity: Option<int>)
    requires !HasId(items, product.id)
    ensures var r := AddToCart(items, product, quantity);
      && |r| == |items| + 1
      && r[..|items|] == items
      && r[|items|] == CartItem(product, quantity.GetOr(DefaultQuantity))
  {
    assert AddToCart(items, product, quantity)
        == items + [CartItem(product, quantity.GetOr(DefaultQuantity))];
  }

  /** A product whose id already has a line (the first one, `k`) adds the
      quantity to that line. The line keeps its own product record, the
      line count is unchanged, and every other line is left as it was. */
  lemma AddToCartExistingLine(items: Cart, product: Product, quantity: Option<int>, k: int)
    requires FirstWithId(items, product.id, k)
    ensures var r := AddToCart(items, product, quantity);
      && |r| == |items|
      && r[k].product == items[k].product
      && r[k].quantity == items[k].quantity + quantity.GetOr(DefaultQuantity)
      && (forall j :: 0 <= j < |items| && j != k ==> r[j] == items[j])
  {
    FirstWithIdUnique(items, product.id, k);
    assert FindLine(items, product.id) == Some(k);
  }

  /** Leaving the quantity out is the same as passing 1. */
  lemma AddToCartDefaultIsOne(items: Cart, product: Product)
    ensures AddToCart(items, product, None) == AddToCart(items, product, Some(1))
  {
  }

  /** `addToCart` keeps at most one line per product id. */
  lemma AddToCartPreservesUniqueIds(items: Cart, product: Product, quantity: Option<int>)
    requires UniqueIds(items)
    ensures UniqueIds(AddToCart(items, product, quantity))
  {
    var r := AddToCart(items, product, quantity);
    match FindLine(items, product.id)
    case Some(k) =>
      AddToCartExistingLine(items, product, quantity, k);
      forall i, j | 0 <= i < j < |r|
        ensures r[i].product.id != r[j].product.id
      {
        assert r[i].product.id == items[i].product.id;
        assert r[j].product.id == items[j].product.id;
      }
    case None =>
      AddToCartNewLine(items, product, quantity);
      forall i, j | 0 <= i < j < |r|
        ensures r[i].product.id != r[j].product.id
      {
        assert r[i] == items[i];
        if j == |items| {
          assert items[i].product.id != product.id;
        } else {
          assert r[j] == items[j];
        }
      }
  }

  /** `cartCount` rises by one exactly when `addToCart` sees a new id, and
      is unchanged otherwise. */
  lemma AddToCartCount(items: Cart, product: Product, quantity: Option<int>)
    ensures CartCount(AddToCart(items, product, quantity))
         == CartCount(items) + (if HasId(items, product.id) then 0 else 1)
  {
    if HasId(items, product.id) {
      var k := FindLine(items, product.id).value;
      assert FirstWithId(items, product.id, k);
    }
  }

  /** `cartTotal` rises by the added quantity times the price stored on the
      line that received it: the matched line's own product record, or the
      new product when a line is appended. */
  lemma AddToCartTotal(items: Cart, product: Product, quantity: Option<int>)
    ensures !HasId(items, product.id) ==>
      Sum(AddToCart(items, product, quantity))
        == Sum(items) + quantity.GetOr(DefaultQuantity) * product.price
    ensures forall k :: FirstWithId(items, product.id, k) ==>
      Sum(AddToCart(items, product, quantity))
        == Sum(items) + quantity.GetOr(DefaultQuantity) * items[k].product.price
  {
    if !HasId(items, product.id) {
      AddNewLineTotal(items, product, quantity);
    }
    forall k | FirstWithId(items, product.id, k)
      ensures Sum(AddToCart(items, product, quantity))
        == Sum(items) + quantity.GetOr(DefaultQuantity) * items[k].product.price
    {
      AddExistingLineTotal(items, product, quantity, k);
    }
  }

  lemma AddNewLineTotal(items: Cart, product: Product, quantity: Option<int>)
    requires !HasId(items, product.id)
    ensures Sum(AddToCart(items, product, quantity))
         == Sum(items) + quantity.GetOr(DefaultQuantity) * product.price
  {
    var line := CartItem(product, quantity.GetOr(DefaultQuantity));
    assert AddToCart(items, product, quantity) == items + [line];
    SumAppendLine(items, line);
  }

  lemma AddExistingLineTotal(items: Cart, product: Product, quantity: Option<int>, k: int)
    requires FirstWithId(items, product.id, k)
    ensures Sum(AddToCart(items, product, quantity))
         == Sum(items) + quantity.GetOr(DefaultQuantity) * items[k].product.price
  {
    var q := quantity.GetOr(DefaultQuantity);
    var bumped := items[k := items[k].(quantity := items[k].quantity + q)];
    assert FindLine(items, product.id) == Some(k);
    assert AddToCart(items, product, quantity) == bumped;
    SumBumpQuantity(items, k, q);
  }

  lemma FirstWithIdUnique(items: Cart, id: int, k: int)
    requires FirstWithId(items, id, k)
    ensures forall k' :: FirstWithId(items, id, k') ==> k' == k
  {
  }

  lemma SumAppendLine(items: Cart, line: CartItem)
    ensures Sum(items + [line]) == Sum(items) + LineTotal(line)
  {
    SumAppend(items, [line]);
    assert [line][1..] == [];
  }

  // ---------------------------------------------------------------------
  // removeFromCart

  /** `items.filter(item => item.product.id !== productId)`. */
  function RemoveFromCart(items: Cart, productId: int): (r: Cart)
    ensures !HasId(r, productId)
    ensures |r| <= |items|
  {
    if |items| == 0 then []
    else if items[0].product.id != productId then [items[0]] + RemoveFromCart(items[1..], productId)
    else RemoveFromCart(items[1..], productId)
  }

  /** Removing an id no line carries changes nothing. */
  lemma {:induction false} RemoveAbsentIsIdentity(items: Cart, productId: int)
    requires !HasId(items, productId)
    ensures RemoveFromCart(items, productId) == items
    decreases |items|
  {
    if |items| != 0 {
      assert items[0].product.id != productId;
      assert !HasId(items[1..], productId) by {
        forall k | 0 <= k < |items[1..]|
          ensures items[1..][k].product.id != productId
        {
          assert items[1..][k] == items[k + 1];
        }
      }
      RemoveAbsentIsIdentity(items[1..], productId);
      assert [items[0]] + items[1..] == items;
    }
  }

  /** Removing twice is removing once. */
  lemma RemoveFromCartIdempotent(items: Cart, productId: int)
    ensures RemoveFromCart(RemoveFromCart(items, productId), productId)
         == RemoveFromCart(items, productId)
  {
    RemoveAbsentIsIdentity(RemoveFromCart(items, productId), productId);
  }

  /** A stand-alone law of the filter, not a promise of the store itself:
      removing from a joined cart is removing from each part and joining
      the results. It lets a caller reason about one segment of the cart
      at a time. */
  lemma {:induction false} RemoveFromCartAppend(a: Cart, b: Cart, productId: int)
    ensures RemoveFromCart(a + b, productId)
         == RemoveFromCart(a, productId) + RemoveFromCart(b, productId)
    decreases |a|
  {
    if |a| == 0 {
      assert a + b == b;
    } else {
      assert (a + b)[0] == a[0];
      assert (a + b)[1..] == a[1..] + b;
      RemoveFromCartAppend(a[1..], b, productId);
    }
  }

  /** `r` is read off `items` at the positions `idx`. */
  ghost predicate PicksFrom(items: Cart, r: Cart, idx: seq<int>) {
    && |idx| == |r|
    && forall i :: 0 <= i < |idx| ==> 0 <= idx[i] < |items| && r[i] == items[idx[i]]
  }

  ghost predicate Increasing(idx: seq<int>) {
    forall i, j :: 0 <= i < j < |idx| ==> idx[i] < idx[j]
  }

  /** Every line whose id is not `productId` sits at one of the positions. */
  ghost predicate CoversOthers(items: Cart, productId: int, idx: seq<int>) {
    forall k :: 0 <= k < |items| && items[k].product.id != productId ==> k in idx
  }

  /** `idx` lists, in increasing order, the positions in `items` that
      `r` is made of, and covers every line whose id is not `productId`. */
  ghost predicate KeptPositions(items: Cart, productId: int, r: Cart, idx: seq<int>) {
    PicksFrom(items, r, idx) && Increasing(idx) && CoversOthers(items, productId, idx)
  }

  /** The kept lines stay in their original relative order: the result is
      the lines with a different id, picked out of `items` at increasing
      positions, none skipped. */
  lemma {:induction false} RemoveFromCartKeepsOrder(items: Cart, productId: int) returns (idx: seq<int>)
    ensures KeptPositions(items, productId, RemoveFromCart(items, productId), idx)
    decreases |items|
  {
    if |items| == 0 {
      idx := [];
    } else {
      var rest := RemoveFromCartKeepsOrder(items[1..], productId);
      idx := ExtendPositions(items, productId, rest);
      ExtendPicks(items, productId, rest);
      ExtendIncreasing(items, productId, rest);
      ExtendCovers(items, productId, rest);
    }
  }

  /** One step of the order argument: the tail's positions shifted by one,
      with position 0 in front when the head line is kept. */
  function ExtendPositions(items: Cart, productId: int, rest: seq<int>): seq<int>
    requires |items| > 0
  {
    if items[0].product.id != productId then [0] + ShiftPositions(rest) else ShiftPositions(rest)
  }

  lemma ExtendPicks(items: Cart, productId: int, rest: seq<int>)
    requires |items| > 0
    requires PicksFrom(items[1..], RemoveFromCart(items[1..], productId), rest)
    ensures PicksFrom(items, RemoveFromCart(items, productId), ExtendPositions(items, productId, rest))
  {
    var tail := items[1..];
    var rr := RemoveFromCart(tail, productId);
    var r := RemoveFromCart(items, productId);
    var shifted := ShiftPositions(rest);
    var idx := ExtendPositions(items, productId, rest);
    forall i | 0 <= i < |shifted|
      ensures 0 < shifted[i] < |items| && rr[i] == items[shifted[i]]
    {
      assert tail[rest[i]] == items[rest[i] + 1];
    }
    if items[0].product.id != productId {
      assert r == [items[0]] + rr;
      forall i | 1 <= i < |idx|
        ensures 0 <= idx[i] < |items| && r[i] == items[idx[i]]
      {
        assert idx[i] == shifted[i - 1] && r[i] == rr[i - 1];
      }
    } else {
      assert r == rr;
    }
  }

  lemma ExtendIncreasing(items: Cart, productId: int, rest: seq<int>)
    requires |items| > 0
    requires Increasing(rest)
    requires forall i :: 0 <= i < |rest| ==> 0 <= rest[i]
    ensures Increasing(ExtendPositions(items, productId, rest))
  {
    var shifted := ShiftPositions(rest);
    var idx := ExtendPositions(items, productId, rest);
    if items[0].product.id != productId {
      forall i, j | 0 <= i < j < |idx|
        ensures idx[i] < idx[j]
      {
        assert idx[j] == shifted[j - 1];
        if i > 0 { assert idx[i] == shifted[i - 1]; }
      }
    }
  }

  lemma ExtendCovers(items: Cart, productId: int, rest: seq<int>)
    requires |items| > 0
    requires CoversOthers(items[1..], productId, rest)
    ensures CoversOthers(items, productId, ExtendPositions(items, productId, rest))
  {
    var tail := items[1..];
    var shifted := ShiftPositions(rest);
    ShiftPositionsMembers(rest);
    var idx := ExtendPositions(items, productId, rest);
    forall k | 1 <= k < |items| && items[k].product.id != productId
      ensures k in shifted
    {
      assert tail[k - 1] == items[k];
      assert k - 1 in rest;
    }
    if items[0].product.id != productId {
      assert idx[0] == 0;
      assert forall k :: k in shifted ==> k in idx;
    }
  }

  /** Every position plus one. */
  function ShiftPositions(positions: seq<int>): seq<int> {
    seq(|positions|, i requires 0 <= i < |positions| => positions[i] + 1)
  }

  /** A position is in the shifted list exactly when its predecessor is in
      the original one. */
  lemma ShiftPositionsMembers(positions: seq<int>)
    ensures forall k :: k in ShiftPositions(positions) <==> k - 1 in positions
  {
    var r := ShiftPositions(positions);
    forall k | k - 1 in positions
      ensures k in r
    {
      var i :| 0 <= i < |positions| && positions[i] == k - 1;
      assert r[i] == k;
    }
  }

  /** The tail of a cart with unique ids has unique ids. */
  lemma UniqueIdsTail(items: Cart)
    requires UniqueIds(items) && |items| > 0
    ensures UniqueIds(items[1..])
  {
    var tail := items[1..];
    forall i, j | 0 <= i < j < |tail|
      ensures tail[i].product.id != tail[j].product.id
    {
      assert tail[i] == items[i + 1] && tail[j] == items[j + 1];
    }
  }

  /** In a cart with unique ids the head's id occurs nowhere in the tail. */
  lemma HeadIdNotInTail(items: Cart)
    requires UniqueIds(items) && |items| > 0
    ensures !HasId(items[1..], items[0].product.id)
  {
    var tail := items[1..];
    forall j | 0 <= j < |tail|
      ensures tail[j].product.id != items[0].product.id
    {
      assert tail[j] == items[j + 1];
    }
  }

  /** When ids are unique, removing a present id deletes exactly the line
      that carries it. */
  lemma {:induction false} RemoveUniqueIsDelete(items: Cart, k: int)
    requires UniqueIds(items)
    requires 0 <= k < |items|
    ensures RemoveFromCart(items, items[k].product.id) == items[..k] + items[k + 1..]
    decreases |items|
  {
    var id := items[k].product.id;
    var tail := items[1..];
    if k == 0 {
      HeadIdNotInTail(items);
      RemoveAbsentIsIdentity(tail, id);
      assert items[..0] + tail == tail;
    } else {
      assert items[0].product.id != id;
      UniqueIdsTail(items);
      assert tail[k - 1] == items[k];
      RemoveUniqueIsDelete(tail, k - 1);
      assert tail[..k - 1] + tail[k..] == items[1..k] + items[k + 1..];
      assert [items[0]] + (items[1..k] + items[k + 1..]) == items[..k] + items[k + 1..];
    }
  }

  /** With unique ids, removing a present id drops `cartCount` by one and
      `cartTotal` by that line's `price * quantity`. */
  lemma RemoveFromCartTotal(items: Cart, k: int)
    requires UniqueIds(items)
    requires 0 <= k < |items|
    ensures CartCount(RemoveFromCart(items, items[k].product.id)) == CartCount(items) - 1
    ensures Sum(RemoveFromCart(items, items[k].product.id)) == Sum(items) - LineTotal(items[k])
  {
    RemoveUniqueIsDelete(items, k);
    SumAppend(items[..k], items[k + 1..]);
    SumSplitAt(items, k);
  }

  /** The total splits around any line. */
  lemma SumSplitAt(items: Cart, k: int)
    requires 0 <= k < |items|
    ensures Sum(items) == Sum(items[..k]) + LineTotal(items[k]) + Sum(items[k + 1..])
  {
    assert items == items[..k] + items[k..];
    SumAppend(items[..k], items[k..]);
    assert items[k..][1..] == items[k + 1..];
  }

  /** The lines `removeFromCart` drops: those carrying `productId`. */
  function LinesWithId(items: Cart, productId: int): Cart {
    if |items| == 0 then []
    else if items[0].product.id == productId then [items[0]] + LinesWithId(items[1..], productId)
    else LinesWithId(items[1..], productId)
  }

  /** For any cart, invariant or not, `removeFromCart` lowers the total by
      exactly what the dropped lines contributed, and the line count by
      their number. */
  lemma {:induction false} RemoveFromCartSplitsTotal(items: Cart, productId: int)
    ensures Sum(items) == Sum(RemoveFromCart(items, productId)) + Sum(LinesWithId(items, productId))
    ensures |items| == |RemoveFromCart(items, productId)| + |LinesWithId(items, productId)|
    decreases |items|
  {
    if |items| != 0 {
      RemoveFromCartSplitsTotal(items[1..], productId);
      var head := [items[0]];
      assert head[1..] == [];
      if items[0].product.id == productId {
        SumAppend(head, LinesWithId(items[1..], productId));
      } else {
        SumAppend(head, RemoveFromCart(items[1..], productId));
      }
    }
  }

  /** `removeFromCart` keeps the unique-id invariant. */
  lemma RemoveFromCartPreservesUniqueIds(items: Cart, productId: int)
    requires UniqueIds(items)
    ensures UniqueIds(RemoveFromCart(items, productId))
  {
    var r := RemoveFromCart(items, productId);
    var idx := RemoveFromCartKeepsOrder(items, productId);
    forall i, j | 0 <= i < j < |r|
      ensures r[i].product.id != r[j].product.id
    {
      assert idx[i] < idx[j];
    }
  }

  /** Under the invariant, `cartCount` is the number of distinct products in
      the cart. */
  lemma {:induction false} CartCountIsDistinctProducts(items: Cart)
    requires UniqueIds(items)
    ensures CartCount(items) == |set k | 0 <= k < |items| :: items[k].product.id|
    decreases |items|
  {
    if |items| != 0 {
      var tail := items[1..];
      UniqueIdsTail(items);
      HeadIdNotInTail(items);
      CartCountIsDistinctProducts(tail);
      var all := set k | 0 <= k < |items| :: items[k].product.id;
      var rest := set k | 0 <= k < |tail| :: tail[k].product.id;
      assert all == rest + {items[0].product.id} by {
        forall x | x in all ensures x in rest + {items[0].product.id} {
          var k :| 0 <= k < |items| && items[k].product.id == x;
          if k != 0 { assert tail[k - 1] == items[k]; }
        }
        forall x | x in rest ensures x in all {
          var k :| 0 <= k < |tail| && tail[k].product.id == x;
          assert tail[k] == items[k + 1];
        }
      }
    }
  }
}
