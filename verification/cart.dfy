/**
 * The shopping cart hook: a list of (product, quantity) lines keyed by product id,
 * and whether the cart drawer is open. Each update computes the new list with
 * `find`/`map`/`filter` (the functions below) and overwrites the state field (the
 * methods of `Cart`).
 */
module CartState {
  import opened Wrappers
  import opened Domain
  import Seqs

  /** No two lines hold the same product. */
  ghost predicate UniqueIds(items: seq<CartItem>) {
    forall i, j :: 0 <= i < j < |items| ==> items[i].product.id != items[j].product.id
  }

  /** `items.find(item => item.product.id === id)`. */
  function Find(items: seq<CartItem>, id: string): (r: Option<CartItem>)
    ensures r.None? <==> forall i :: 0 <= i < |items| ==> items[i].product.id != id
    ensures r.Some? ==> exists i :: 0 <= i < |items| && items[i].product.id == id && r.value == items[i]
  {
    if items == [] then None
    else if items[0].product.id == id then Some(items[0])
    else
      var r := Find(items[1..], id);
      assert r.Some? ==> exists i :: 0 <= i < |items| && items[i].product.id == id && r.value == items[i] by {
        if r.Some? {
          var i :| 0 <= i < |items[1..]| && items[1..][i].product.id == id && r.value == items[1..][i];
          assert items[i + 1] == items[1..][i];
        }
      }
      r
  }

  /** `addToCart`: bump the quantity of the matching line, or append a new line. */
  function Added(items: seq<CartItem>, product: Product, quantity: int): (r: seq<CartItem>)
    ensures |r| == if Find(items, product.id).Some? then |items| else |items| + 1
    ensures forall i :: 0 <= i < |items| && items[i].product.id != product.id ==> r[i] == items[i]
  {
    if Find(items, product.id).Some? then
      seq(|items|, i requires 0 <= i < |items| =>
        if items[i].product.id == product.id then items[i].(quantity := items[i].quantity + quantity) else items[i])
    else items + [CartItem(product, quantity)]
  }

  /** The positive branch of `updateQuantity`: every line of that product gets the quantity. */
  function WithQuantity(items: seq<CartItem>, id: string, quantity: int): (r: seq<CartItem>)
    ensures |r| == |items| && forall i :: 0 <= i < |r| ==> r[i].product == items[i].product
    ensures Find(items, id).None? ==> r == items
    ensures forall i :: 0 <= i < |r| && r[i].product.id == id ==> r[i].quantity == quantity
  {
    seq(|items|, i requires 0 <= i < |items| =>
      if items[i].product.id == id then items[i].(quantity := quantity) else items[i])
  }

  /** `removeFromCart`: the lines of every other product, in order. */
  function Removed(items: seq<CartItem>, id: string): (r: seq<CartItem>)
    ensures Find(r, id).None? && |r| <= |items|
    ensures forall i :: 0 <= i < |items| && items[i].product.id != id ==> items[i] in r
  {
    Seqs.Filter(items, OtherThan(id))
  }

  function OtherThan(id: string): CartItem -> bool {
    (item: CartItem) => item.product.id != id
  }

  /** `getTotalItems`: the number of units in the cart. */
  function TotalItems(items: seq<CartItem>): (n: int)
    ensures (forall i :: 0 <= i < |items| ==> items[i].quantity > 0) ==> n >= |items|
  {
    Seqs.SumAtLeast(items, Units, 1);
    Seqs.SumOf(items, Units)
  }

  function Units(item: CartItem): int { item.quantity }

  function LineAmount(item: CartItem): int { item.product.priceLkr * item.quantity }

  /** `getTotalAmount`: the price of every unit in the cart. */
  function TotalAmount(items: seq<CartItem>): (n: int)
    ensures (forall i :: 0 <= i < |items| ==> items[i].product.priceLkr >= 0 && items[i].quantity >= 0) ==> n >= 0
  {
    Seqs.SumAtLeast(items, LineAmount, 0);
    Seqs.SumOf(items, LineAmount)
  }

  // ------------------------------------------------------------------ lemmas

  /** Adding a product already in the cart raises that one line's quantity and touches nothing else. */
  lemma AddExisting(items: seq<CartItem>, product: Product, quantity: int, k: nat)
    requires UniqueIds(items) && k < |items| && items[k].product.id == product.id
    ensures Added(items, product, quantity) == items[k := items[k].(quantity := items[k].quantity + quantity)]
  {
  }

  /** Adding a product not yet in the cart appends one line at the end. */
  lemma AddNew(items: seq<CartItem>, product: Product, quantity: int)
    requires forall i :: 0 <= i < |items| ==> items[i].product.id != product.id
    ensures Added(items, product, quantity) == items + [CartItem(product, quantity)]
  {
  }

  /** Adding keeps product ids unique and leaves the product in the cart. */
  lemma AddKeepsIdsUnique(items: seq<CartItem>, product: Product, quantity: int)
    requires UniqueIds(items)
    ensures UniqueIds(Added(items, product, quantity))
    ensures Find(Added(items, product, quantity), product.id).Some?
  {
    var r := Added(items, product, quantity);
    if Find(items, product.id).None? {
      assert r[|items|].product.id == product.id;
    } else {
      var i :| 0 <= i < |items| && items[i].product.id == product.id;
      assert r[i].product.id == product.id;
    }
  }

  /** Adding `q` units raises the unit count by `q` and the amount by `q` times the line's price. */
  lemma AddRaisesTotals(items: seq<CartItem>, product: Product, quantity: int)
    requires UniqueIds(items)
    ensures TotalItems(Added(items, product, quantity)) == TotalItems(items) + quantity
    ensures TotalAmount(Added(items, product, quantity)) ==
      TotalAmount(items) + quantity * Find(items, product.id).GetOr(CartItem(product, 0)).product.priceLkr
  {
    if Find(items, product.id).Some? {
      var k :| 0 <= k < |items| && items[k].product.id == product.id && Find(items, product.id).value == items[k];
      AddExisting(items, product, quantity, k);
      BumpTotals(items, k, quantity);
      assert Find(items, product.id).GetOr(CartItem(product, 0)) == items[k];
    } else {
      AppendTotals(items, CartItem(product, quantity));
    }
  }

  /** Appending a line adds its units and its amount. */
  lemma AppendTotals(items: seq<CartItem>, line: CartItem)
    ensures TotalItems(items + [line]) == TotalItems(items) + line.quantity
    ensures TotalAmount(items + [line]) == TotalAmount(items) + line.quantity * line.product.priceLkr
  {
    Seqs.SumAppend(items, [line], Units);
    Seqs.SumAppend(items, [line], LineAmount);
  }

  /** Raising line `k` by `quantity` units raises the totals by those units and their price. */
  lemma BumpTotals(items: seq<CartItem>, k: nat, quantity: int)
    requires k < |items|
    ensures var bumped := items[k := items[k].(quantity := items[k].quantity + quantity)];
      TotalItems(bumped) == TotalItems(items) + quantity &&
      TotalAmount(bumped) == TotalAmount(items) + quantity * items[k].product.priceLkr
  {
    var bumped := items[k].(quantity := items[k].quantity + quantity);
    Seqs.SumOfUpdate(items, k, bumped, Units);
    Seqs.SumOfUpdate(items, k, bumped, LineAmount);
    Distribute(items[k].product.priceLkr, items[k].quantity, quantity);
  }

  lemma Distribute(price: int, a: int, b: int)
    ensures price * (a + b) == price * a + b * price
  {
  }

  /** Removing the product at position `k` drops exactly that line and keeps the others in order. */
  lemma RemoveDropsOne(items: seq<CartItem>, k: nat)
    requires UniqueIds(items) && k < |items|
    ensures Removed(items, items[k].product.id) == items[..k] + items[k + 1..]
  {
    var id := items[k].product.id;
    var pre, post := items[..k], items[k + 1..];
    assert items == pre + [items[k]] + post;
    OthersDiffer(items, k, pre, post);
    RemoveAbsent(pre, id);
    RemoveAbsent(post, id);
    RemoveSplit(pre, items[k], post);
  }

  lemma OthersDiffer(items: seq<CartItem>, k: nat, pre: seq<CartItem>, post: seq<CartItem>)
    requires UniqueIds(items) && k < |items|
    requires pre == items[..k] && post == items[k + 1..]
    ensures forall i :: 0 <= i < |pre| ==> pre[i].product.id != items[k].product.id
    ensures forall i :: 0 <= i < |post| ==> post[i].product.id != items[k].product.id
  {
    forall i | 0 <= i < |post| ensures post[i].product.id != items[k].product.id {
      assert post[i] == items[k + 1 + i];
    }
  }

  lemma RemoveSplit(pre: seq<CartItem>, x: CartItem, post: seq<CartItem>)
    ensures Removed(pre + [x] + post, x.product.id) == Removed(pre, x.product.id) + Removed(post, x.product.id)
  {
    Seqs.FilterAppend(pre + [x], post, OtherThan(x.product.id));
    Seqs.FilterAppend(pre, [x], OtherThan(x.product.id));
    assert Seqs.Filter([x], OtherThan(x.product.id)) == [];
  }

  /** Removing a product that is not in the cart changes nothing. */
  lemma RemoveAbsent(items: seq<CartItem>, id: string)
    requires forall i :: 0 <= i < |items| ==> items[i].product.id != id
    ensures Removed(items, id) == items
  {
    Seqs.FilterAll(items, OtherThan(id));
  }

  /** Removing keeps product ids unique and leaves no line of that product. */
  lemma RemoveKeepsIdsUnique(items: seq<CartItem>, id: string)
    requires UniqueIds(items)
    ensures UniqueIds(Removed(items, id))
    ensures Find(Removed(items, id), id).None?
  {
    if Find(items, id).Some? {
      var k :| 0 <= k < |items| && items[k].product.id == id && Find(items, id).value == items[k];
      RemoveDropsOne(items, k);
      UniqueWithout(items, k);
    } else {
      RemoveAbsent(items, id);
    }
  }

  /** Dropping line `k` keeps ids unique. */
  lemma UniqueWithout(items: seq<CartItem>, k: nat)
    requires UniqueIds(items) && k < |items|
    ensures UniqueIds(items[..k] + items[k + 1..])
  {
    var r := items[..k] + items[k + 1..];
    forall i | 0 <= i < k ensures r[i] == items[i] {
    }
    forall i | k <= i < |r| ensures r[i] == items[i + 1] {
    }
  }

  /** A positive quantity update sets one line's quantity; length, order and other lines stay. */
  lemma SetQuantityShape(items: seq<CartItem>, id: string, quantity: int)
    ensures |WithQuantity(items, id, quantity)| == |items|
    ensures forall i :: 0 <= i < |items| ==>
      WithQuantity(items, id, quantity)[i] == if items[i].product.id == id then items[i].(quantity := quantity) else items[i]
    ensures Find(items, id).None? ==> WithQuantity(items, id, quantity) == items
    ensures UniqueIds(items) ==> UniqueIds(WithQuantity(items, id, quantity))
  {
  }

  // ------------------------------------------------------------------ state

  /** The hook's state: `cartItems` and `isCartOpen`. */
  class Cart {
    var items: seq<CartItem>
    var isCartOpen: bool

    ghost predicate Valid()
      reads this
    {
      UniqueIds(items)
    }

    constructor ()
      ensures Valid() && items == [] && !isCartOpen
    {
      items := [];
      isCartOpen := false;
    }

    method AddToCart(product: Product, quantity: int := 1)
      requires Valid()
      modifies this
      ensures Valid() && Find(items, product.id).Some?
      ensures items == Added(old(items), product, quantity) && isCartOpen == old(isCartOpen)
    {
      AddKeepsIdsUnique(items, product, quantity);
      items := Added(items, product, quantity);
    }

    method UpdateQuantity(productId: string, quantity: int)
      requires Valid()
      modifies this
      ensures Valid() && isCartOpen == old(isCartOpen)
      ensures quantity <= 0 ==> items == Removed(old(items), productId)
      ensures quantity > 0 ==> items == WithQuantity(old(items), productId, quantity)
    {
      if quantity <= 0 {
        RemoveFromCart(productId);
        return;
      }
      SetQuantityShape(items, productId, quantity);
      items := WithQuantity(items, productId, quantity);
    }

    method RemoveFromCart(productId: string)
      requires Valid()
      modifies this
      ensures Valid() && Find(items, productId).None?
      ensures items == Removed(old(items), productId) && isCartOpen == old(isCartOpen)
    {
      RemoveKeepsIdsUnique(items, productId);
      items := Removed(items, productId);
    }

    method ClearCart()
      modifies this
      ensures Valid() && items == [] && isCartOpen == old(isCartOpen)
    {
      items := [];
    }

    function GetTotalItems(): (n: int)
      reads this
      ensures n == TotalItems(items)
      ensures (forall i :: 0 <= i < |items| ==> items[i].quantity > 0) ==> n >= |items|
    {
      TotalItems(items)
    }

    function GetTotalAmount(): (n: int)
      reads this
      ensures n == TotalAmount(items)
      ensures (forall i :: 0 <= i < |items| ==> items[i].product.priceLkr >= 0 && items[i].quantity >= 0) ==> n >= 0
    {
      TotalAmount(items)
    }

    method OpenCart()
      modifies this
      ensures isCartOpen && items == old(items)
    {
      isCartOpen := true;
    }

    method CloseCart()
      modifies this
      ensures !isCartOpen && items == old(items)
    {
      isCartOpen := false;
    }
  }
}
