/** The shopping cart service: a list of product entries keyed by id, each with a
    quantity. */
module Cart {
  import opened Catalog
  import opened Seqs

  /** Index of the first entry with this id, or -1 (the `find` in `addToCart`). */
  function FindById(items: seq<Product>, id: string): (k: int)
    ensures -1 <= k < |items|
    ensures k == -1 <==> forall i :: 0 <= i < |items| ==> items[i].id != id
    ensures 0 <= k ==> items[k].id == id && forall i :: 0 <= i < k ==> items[i].id != id
  {
    if items == [] then -1
    else if items[0].id == id then 0
    else
      var k := FindById(items[1..], id);
      if k < 0 then -1 else k + 1
  }

  ghost predicate UniqueIds(items: seq<Product>) {
    forall i, j :: 0 <= i < j < |items| ==> items[i].id != items[j].id
  }

  /** The cart after `addToCart(product)`. */
  function Added(items: seq<Product>, product: Product): seq<Product> {
    var k := FindById(items, product.id);
    if k < 0 then items + [product.(quantity := 1)]
    else items[k := items[k].(quantity := items[k].quantity + 1)]
  }

  function HasOtherId(id: string): Product -> bool {
    (item: Product) => item.id != id
  }

  /** The cart after `removeItem(id)`. */
  function Removed(items: seq<Product>, id: string): seq<Product> {
    Filter(items, HasOtherId(id))
  }

  /** `cartItemCount`: the sum of the entries' quantities. */
  function ItemCount(items: seq<Product>): int {
    if items == [] then 0 else items[0].quantity + ItemCount(items[1..])
  }

  /** Sum of the quantities of the entries with this id. */
  function QuantityOf(items: seq<Product>, id: string): int {
    if items == [] then 0
    else (if items[0].id == id then items[0].quantity else 0) + QuantityOf(items[1..], id)
  }

  /** The cart after adding each product of `products` in turn. */
  function AddAll(items: seq<Product>, products: seq<Product>): seq<Product>
    decreases |products|
  {
    if products == [] then items
    else AddAll(Added(items, products[0]), products[1..])
  }

  /** Adding an id the cart does not hold appends a copy of the product with quantity 1;
      the quantity the product came with plays no part. */
  lemma AddAbsentAppends(items: seq<Product>, product: Product)
    requires forall i :: 0 <= i < |items| ==> items[i].id != product.id
    ensures |Added(items, product)| == |items| + 1
    ensures Added(items, product)[..|items|] == items
    ensures Added(items, product)[|items|] == product.(quantity := 1)
  {
  }

  /** Adding an id the cart holds raises that entry's quantity by exactly one and
      changes nothing else, not even the entry's other fields. */
  lemma AddPresentIncrements(items: seq<Product>, product: Product, k: nat)
    requires UniqueIds(items) && k < |items| && items[k].id == product.id
    ensures |Added(items, product)| == |items|
    ensures Added(items, product)[k] == items[k].(quantity := items[k].quantity + 1)
    ensures forall i :: 0 <= i < |items| && i != k ==> Added(items, product)[i] == items[i]
  {
    assert FindById(items, product.id) == k;
  }

  lemma AddPreservesUniqueIds(items: seq<Product>, product: Product)
    requires UniqueIds(items)
    ensures UniqueIds(Added(items, product))
  {
  }

  /** Starting from an empty cart, no sequence of additions creates two entries with the same id. */
  lemma {:induction false} AddAllUniqueIds(items: seq<Product>, products: seq<Product>)
    requires UniqueIds(items)
    ensures UniqueIds(AddAll(items, products))
    decreases |products|
  {
    if products != [] {
      AddPreservesUniqueIds(items, products[0]);
      AddAllUniqueIds(Added(items, products[0]), products[1..]);
    }
  }

  lemma {:induction false} ItemCountAppend(items: seq<Product>, item: Product)
    ensures ItemCount(items + [item]) == ItemCount(items) + item.quantity
  {
    if items != [] {
      assert (items + [item])[1..] == items[1..] + [item];
      ItemCountAppend(items[1..], item);
    }
  }

  lemma {:induction false} ItemCountUpdate(items: seq<Product>, k: nat, item: Product)
    requires k < |items|
    ensures ItemCount(items[k := item]) == ItemCount(items) - items[k].quantity + item.quantity
  {
    if k > 0 {
      assert items[k := item][1..] == items[1..][k - 1 := item];
      ItemCountUpdate(items[1..], k - 1, item);
    }
  }

  /** Every `addToCart` raises `cartItemCount` by exactly one. */
  lemma AddRaisesItemCount(items: seq<Product>, product: Product)
    ensures ItemCount(Added(items, product)) == ItemCount(items) + 1
  {
    var k := FindById(items, product.id);
    if k < 0 {
      ItemCountAppend(items, product.(quantity := 1));
    } else {
      ItemCountUpdate(items, k, items[k].(quantity := items[k].quantity + 1));
    }
  }

  /** `removeItem(id)` leaves no entry with that id and keeps every other entry, as often
      as it occurs and in order. */
  lemma RemovedContents(items: seq<Product>, id: string)
    ensures forall item :: item in Removed(items, id) <==> item in items && item.id != id
    ensures IsSubsequence(Removed(items, id), items)
    ensures forall item :: multiset(Removed(items, id))[item] == if item.id != id then multiset(items)[item] else 0
  {
    FilterCount(items, HasOtherId(id));
  }

  /** Removing an id the cart does not hold changes nothing. */
  lemma RemoveAbsentIsNoop(items: seq<Product>, id: string)
    requires forall i :: 0 <= i < |items| ==> items[i].id != id
    ensures Removed(items, id) == items
  {
    FilterAll(items, HasOtherId(id));
  }

  lemma {:induction false} RemovePreservesUniqueIds(items: seq<Product>, id: string)
    requires UniqueIds(items)
    ensures UniqueIds(Removed(items, id))
  {
    if items != [] {
      RemovePreservesUniqueIds(items[1..], id);
      var rest := Removed(items[1..], id);
      if items[0].id != id {
        forall j | 0 <= j < |rest| ensures items[0].id != rest[j].id {
          assert rest[j] in items[1..];
        }
      }
    }
  }

  /** `removeItem(id)` lowers `cartItemCount` by the quantity held under that id. */
  lemma {:induction false} RemoveLowersItemCount(items: seq<Product>, id: string)
    ensures ItemCount(Removed(items, id)) == ItemCount(items) - QuantityOf(items, id)
  {
    if items != [] {
      RemoveLowersItemCount(items[1..], id);
    }
  }

  /** The cart service. `items` is the `_cartItems` signal; the entries are values, so
      the in-place `quantity++` on the shared entry object is a replacement of the entry. */
  class CartService {
    var items: seq<Product>

    ghost predicate Valid()
      reads this
    {
      UniqueIds(items)
    }

    constructor()
      ensures Valid() && items == []
    {
      items := [];
    }

    function CartItemCount(): (n: int)
      reads this
      ensures items == [] ==> n == 0
    {
      ItemCount(items)
    }

    method AddToCart(product: Product)
      requires Valid()
      modifies this
      ensures Valid()
      ensures items == Added(old(items), product)
    {
      var updated := items;
      var i := 0;
      while i < |updated| && updated[i].id != product.id
        invariant 0 <= i <= |updated|
        invariant forall j :: 0 <= j < i ==> updated[j].id != product.id
      {
        i := i + 1;
      }
      assert i < |updated| ==> FindById(updated, product.id) == i;
      if i < |updated| {
        updated := updated[i := updated[i].(quantity := updated[i].quantity + 1)];
      } else {
        updated := updated + [product.(quantity := 1)];
      }
      AddPreservesUniqueIds(items, product);
      items := updated;
    }

    method ClearCart()
      modifies this
      ensures Valid() && items == [] && CartItemCount() == 0
    {
      items := [];
    }

    method RemoveItem(productId: string)
      requires Valid()
      modifies this
      ensures Valid()
      ensures items == Removed(old(items), productId)
    {
      RemovePreservesUniqueIds(items, productId);
      items := Filter(items, HasOtherId(productId));
    }
  }
}
