/** The cart provider's state: the `products` list it holds and the three
    callbacks that replace it. Each callback returns the list it hands to
    storage; the storage itself is outside this model.
 */
module CartProvider {
  import opened Wrappers
  import Cart

  class CartStore {
    /** The cart as the provider currently holds it. */
    var products: seq<Cart.Product>

    /** The provider starts with an empty cart. */
    constructor ()
      ensures products == []
    {
      products := [];
    }

    /** loadProducts: a list found in storage replaces the cart wholesale;
        when storage holds nothing the cart is left as it is. */
    method Load(stored: Option<seq<Cart.Product>>)
      modifies this
      ensures products == if stored.Some? then stored.value else old(products)
    {
      if stored.Some? {
        products := stored.value;
      }
    }

    /** addToCart. The list written to storage is the one from before the call. */
    method AddToCart(item: Cart.ProductInfo) returns (written: seq<Cart.Product>)
      modifies this
      ensures products == Cart.AddToCart(old(products), item)
      ensures written == old(products) && written != products
      ensures Cart.Settled(old(products)) ==> Cart.Settled(products)
    {
      written := products;
      products := Cart.AddToCart(products, item);
      Cart.AddToCartChangesCart(written, item);
      if Cart.Settled(written) {
        Cart.AddToCartPreservesSettled(written, item);
      }
    }

    /** addToCart as evidently intended: the list written to storage is the
        updated cart, as increment and decrement do. */
    method AddToCartWritingUpdate(item: Cart.ProductInfo) returns (written: seq<Cart.Product>)
      modifies this
      ensures products == Cart.AddToCart(old(products), item)
      ensures written == products
      ensures Cart.Settled(old(products)) ==> Cart.Settled(products)
    {
      if Cart.Settled(products) {
        Cart.AddToCartPreservesSettled(products, item);
      }
      products := Cart.AddToCart(products, item);
      written := products;
    }

    /** increment. The list written to storage is the updated cart. */
    method Increment(id: string) returns (written: seq<Cart.Product>)
      modifies this
      ensures products == Cart.Increment(old(products), id)
      ensures written == products
      ensures Cart.Settled(old(products)) ==> Cart.Settled(products)
    {
      if Cart.Settled(products) {
        Cart.IncrementPreservesSettled(products, id);
      }
      products := Cart.Increment(products, id);
      written := products;
    }

    /** decrement: map, then findIndex of a zero quantity, then splice of the
        list just built. The list written to storage is the updated cart. */
    method Decrement(id: string) returns (written: seq<Cart.Product>)
      modifies this
      ensures products == Cart.Decrement(old(products), id)
      ensures written == products
      ensures Cart.Settled(old(products)) ==> Cart.Settled(products)
    {
      if Cart.Settled(products) {
        Cart.DecrementPreservesSettled(products, id);
      }
      var updatedCart := Cart.DecrementEach(products, id);
      var zeroQuantityIndex := Cart.FirstZeroIndex(updatedCart);
      if zeroQuantityIndex != -1 {
        updatedCart := Cart.Splice(updatedCart, zeroQuantityIndex);
      }
      products := updatedCart;
      written := updatedCart;
    }
  }
}
