/** The cart page: shows the cart service's entries, their total price, and forwards
    removals and a confirmed clear to the service. */
module CartView {
  import opened Wrappers
  import opened Catalog
  import opened Cart

  /** `totalPrice`: the sum over the entries of price times quantity. */
  function TotalPrice(items: seq<Product>): int {
    if items == [] then 0 else items[0].price * items[0].quantity + TotalPrice(items[1..])
  }

  /** Sum of price times quantity over the entries with this id. */
  function PriceOf(items: seq<Product>, id: string): int {
    if items == [] then 0
    else (if items[0].id == id then items[0].price * items[0].quantity else 0) + PriceOf(items[1..], id)
  }

  lemma {:induction false} TotalPriceAppend(items: seq<Product>, item: Product)
    ensures TotalPrice(items + [item]) == TotalPrice(items) + item.price * item.quantity
  {
    if items != [] {
      assert (items + [item])[1..] == items[1..] + [item];
      TotalPriceAppend(items[1..], item);
    }
  }

  lemma {:induction false} TotalPriceUpdate(items: seq<Product>, k: nat, item: Product)
    requires k < |items|
    ensures TotalPrice(items[k := item])
         == TotalPrice(items) - items[k].price * items[k].quantity + item.price * item.quantity
  {
    if k > 0 {
      assert items[k := item][1..] == items[1..][k - 1 := item];
      TotalPriceUpdate(items[1..], k - 1, item);
    }
  }

  /** Adding a product raises the total price by one unit's price: the incoming product's
      price for a new entry, the price already stored on the entry otherwise. */
  lemma AddRaisesTotalPrice(items: seq<Product>, product: Product)
    ensures var k := FindById(items, product.id);
              TotalPrice(Added(items, product))
              == TotalPrice(items) + (if k < 0 then product.price else items[k].price)
  {
    var k := FindById(items, product.id);
    if k < 0 {
      TotalPriceAppend(items, product.(quantity := 1));
    } else {
      var e := items[k];
      TotalPriceUpdate(items, k, e.(quantity := e.quantity + 1));
      assert e.price * (e.quantity + 1) == e.price * e.quantity + e.price;
    }
  }

  /** Removing an id lowers the total price by exactly what that id's entries contributed. */
  lemma {:induction false} RemoveLowersTotalPrice(items: seq<Product>, id: string)
    ensures TotalPrice(Removed(items, id)) == TotalPrice(items) - PriceOf(items, id)
  {
    if items != [] {
      RemoveLowersTotalPrice(items[1..], id);
    }
  }

  class CartPage {
    const cartService: CartService

    constructor(cartService: CartService)
      ensures this.cartService == cartService
    {
      this.cartService := cartService;
    }

    /** `totalCount`, read through from the service. */
    function TotalCount(): (n: int)
      reads cartService
      ensures cartService.items == [] ==> n == 0
    {
      cartService.CartItemCount()
    }

    function CartTotalPrice(): (total: int)
      reads cartService
      ensures cartService.items == [] ==> total == 0
    {
      TotalPrice(cartService.items)
    }

    /** `clearCart` after the confirmation dialog closed with `dialogResult`; `None` is a
        dialog dismissed without a value. Only an explicit `true` clears the cart. */
    method ClearCart(dialogResult: Option<bool>)
      requires cartService.Valid()
      modifies cartService
      ensures cartService.Valid()
      ensures dialogResult == Some(true) ==> cartService.items == []
      ensures dialogResult != Some(true) ==> cartService.items == old(cartService.items)
    {
      if dialogResult == Some(true) {
        cartService.ClearCart();
      }
    }

    method RemoveItem(productId: string)
      requires cartService.Valid()
      modifies cartService
      ensures cartService.Valid()
      ensures cartService.items == Removed(old(cartService.items), productId)
    {
      cartService.RemoveItem(productId);
    }
  }
}
