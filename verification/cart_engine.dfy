/**
 * The `CartProvider` of `src/hooks/useCart.tsx` as an object: the cart state
 * that `setCart` replaces and the persisted slot that is rewritten after each
 * commit. The answers of the stock and catalog services are parameters of
 * the operations; each operation returns the notification it raises.
 */
module CartEngine {
  import opened Wrappers
  import opened CartState

  class CartProvider {
    /** The committed cart every consumer reads. */
    var cart: seq<Line>
    /** The persisted slot: None while it holds no record. */
    var store: Option<seq<Line>>

    /** Loading the persisted slot gives the cart in memory. */
    ghost predicate Synced()
      reads this
    {
      Load(store) == cart
    }

    /**
     * Start-up: the cart is the stored sequence, or empty when the slot holds
     * no record; the slot itself is not rewritten.
     */
    constructor (stored: Option<seq<Line>>)
      ensures stored.None? ==> cart == []
      ensures stored.Some? ==> cart == stored.value
      ensures store == stored
      ensures Synced()
    {
      cart := Load(stored);
      store := stored;
    }

    /** A commit: replace the cart and write it to the persisted slot. */
    method SetCart(updated: seq<Line>)
      modifies this
      ensures cart == updated && store == Some(updated)
      ensures Synced()
    {
      cart := updated;
      store := Some(cart);
    }

    /**
     * `addProduct`, given the stock service's answer and the catalog
     * service's answer for `productId`.
     */
    method AddProduct(productId: int, stock: Option<int>, catalog: Option<Product>) returns (err: Option<CartError>)
      requires Synced()
      modifies this
      ensures Synced()
      ensures var o := Add(old(cart), productId, stock, catalog);
        && err == o.Error()
        && cart == o.After(old(cart))
        && store == (if o.Committed? then Some(cart) else old(store))
      ensures old(Unique(cart)) && (catalog.Some? ==> catalog.value.id == productId) ==> Unique(cart)
      ensures old(AmountsPositive(cart)) ==> AmountsPositive(cart)
    {
      if AmountsPositive(cart) {
        OperationsKeepAmountsPositive(cart, productId, 1, stock, catalog);
      }
      if Unique(cart) && (catalog.Some? ==> catalog.value.id == productId) {
        AddPreservesUnique(cart, productId, stock, catalog);
      }
      if stock.None? {
        return Some(AddFailed);
      }
      var updated := cart;
      var found := IndexOf(updated, productId);
      var cartAmount := if found.Some? && updated[found.value].amount != 0 then updated[found.value].amount + 1 else 0;
      if stock.value < cartAmount {
        return Some(OutOfStock);
      }
      if found.Some? {
        var i := found.value;
        updated := updated[i := updated[i].(amount := updated[i].amount + 1)];
        SetCart(updated);
      } else {
        if catalog.None? {
          return Some(AddFailed);
        }
        updated := updated + [NewLine(catalog.value)];
        SetCart(updated);
      }
      err := None;
    }

    /** `removeProduct`. */
    method RemoveProduct(productId: int) returns (err: Option<CartError>)
      requires Synced()
      modifies this
      ensures Synced()
      ensures var o := Remove(old(cart), productId);
        && err == o.Error()
        && cart == o.After(old(cart))
        && store == (if o.Committed? then Some(cart) else old(store))
      ensures old(Unique(cart)) ==> Unique(cart)
      ensures old(AmountsPositive(cart)) ==> AmountsPositive(cart)
    {
      if AmountsPositive(cart) {
        OperationsKeepAmountsPositive(cart, productId, 1, None, None);
      }
      if Unique(cart) {
        RemovePreservesUnique(cart, productId);
      }
      if IndexOf(cart, productId).None? {
        return Some(RemoveFailed);
      }
      SetCart(Without(cart, productId));
      err := None;
    }

    /** `updateProductAmount`, given the stock service's answer for `productId`. */
    method UpdateProductAmount(productId: int, amount: int, stock: Option<int>) returns (err: Option<CartError>)
      requires Synced()
      modifies this
      ensures Synced()
      ensures var o := UpdateAmount(old(cart), productId, amount, stock);
        && err == o.Error()
        && cart == o.After(old(cart))
        && store == (if o.Committed? then Some(cart) else old(store))
      ensures old(Unique(cart)) ==> Unique(cart)
      ensures old(AmountsPositive(cart)) ==> AmountsPositive(cart)
    {
      if AmountsPositive(cart) {
        OperationsKeepAmountsPositive(cart, productId, amount, stock, None);
      }
      if Unique(cart) {
        UpdatePreservesUnique(cart, productId, amount, stock);
      }
      if amount < 1 {
        return None;
      }
      if stock.None? {
        return Some(UpdateFailed);
      }
      if stock.value < amount {
        return Some(OutOfStock);
      }
      var updated := cart;
      var found := IndexOf(updated, productId);
      if found.Some? && updated[found.value].amount != 0 {
        var i := found.value;
        updated := updated[i := updated[i].(amount := amount)];
        SetCart(updated);
        err := None;
      } else {
        err := Some(UpdateFailed);
      }
    }
  }
}
