/**
 * The cart of `src/hooks/useCart.tsx` as values: line items, the three
 * cart operations as functions from the current cart and the answers of the
 * stock and catalog services to an outcome, and what they promise.
 */
module CartState {
  import opened Wrappers

  /** A catalog entry, as the catalog service returns it for one product id. */
  datatype Product = Product(id: int, title: string, price: real, image: string)

  /** One line of the cart: a catalog entry plus the requested amount. */
  datatype Line = Line(id: int, title: string, price: real, image: string, amount: int)

  /** The notification each failure raises. */
  datatype CartError =
    | OutOfStock    // "Quantidade solicitada fora de estoque"
    | AddFailed     // "Erro na adição do produto"
    | RemoveFailed  // "Erro na remoção do produto"
    | UpdateFailed  // "Erro na alteração de quantidade do produto"

  /**
   * What one operation does: commit a new cart, fail with a notification, or
   * nothing. Only a commit changes the cart: `After` gives back the cart it
   * was handed for a failure and for an ignored call alike.
   */
  datatype Outcome = Committed(cart: seq<Line>) | Failed(error: CartError) | Ignored
  {
    /** The notification raised, if any. */
    function Error(): Option<CartError>
    {
      if Failed? then Some(error) else None
    }

    /** The cart after the operation, given the cart before it. */
    function After(before: seq<Line>): seq<Line>
    {
      if Committed? then cart else before
    }
  }

  /** No two lines share a product id. */
  predicate Unique(cart: seq<Line>)
  {
    forall i, j :: 0 <= i < j < |cart| ==> cart[i].id != cart[j].id
  }

  /** Every line holds at least one unit. */
  predicate AmountsPositive(cart: seq<Line>)
  {
    forall i :: 0 <= i < |cart| ==> cart[i].amount >= 1
  }

  /** No line of the cart has product id `id`. */
  predicate Absent(cart: seq<Line>, id: int)
  {
    forall i :: 0 <= i < |cart| ==> cart[i].id != id
  }

  /** The cart read from the persisted slot at start-up: the stored sequence, or empty when there is no record. */
  function Load(stored: Option<seq<Line>>): (cart: seq<Line>)
  {
    stored.GetOr([])
  }

  /** `find` by product id: the index of the first line with id `id`. */
  function IndexOf(cart: seq<Line>, id: int): (r: Option<nat>)
    ensures r.Some? ==> r.value < |cart| && cart[r.value].id == id
    ensures r.Some? ==> forall j :: 0 <= j < r.value ==> cart[j].id != id
    ensures r.None? <==> Absent(cart, id)
  {
    if |cart| == 0 then None
    else if cart[0].id == id then Some(0)
    else match IndexOf(cart[1..], id)
      case None => None
      case Some(k) => Some(k + 1)
  }

  /** `filter` keeping the lines whose id is not `id`. */
  function Without(cart: seq<Line>, id: int): (r: seq<Line>)
    ensures |r| <= |cart|
    ensures forall l :: l in r ==> l in cart && l.id != id
    ensures forall l :: l in cart && l.id != id ==> l in r
  {
    if |cart| == 0 then []
    else (if cart[0].id == id then [] else [cart[0]]) + Without(cart[1..], id)
  }

  /** The line appended for a first-time add: the catalog entry with amount 1. */
  function NewLine(p: Product): (l: Line)
  {
    Line(p.id, p.title, p.price, p.image, 1)
  }

  /** The line at `i` with its amount replaced by `amount`. */
  function SetAmount(cart: seq<Line>, i: nat, amount: int): (r: seq<Line>)
    requires i < |cart|
    ensures |r| == |cart| && r[i].amount == amount
    ensures forall j :: 0 <= j < |cart| ==> r[j].id == cart[j].id
    ensures forall j :: 0 <= j < |cart| && j != i ==> r[j] == cart[j]
    ensures r[i] == cart[i].(amount := amount)
  {
    cart[i := cart[i].(amount := amount)]
  }

  /**
   * `addProduct`. `stock` is the stock service's answer (None when the query
   * fails), `catalog` the catalog service's answer, consulted only when no
   * line has the id. The comparison value is the existing amount plus one
   * when the first matching line has a non-zero amount, and 0 otherwise, so
   * a first-time add only fails the stock check on a negative stock.
   */
  function Add(cart: seq<Line>, productId: int, stock: Option<int>, catalog: Option<Product>): (o: Outcome)
    ensures !o.Ignored?
    ensures o.Committed? ==> stock.Some?
    ensures o.Committed? && !Absent(cart, productId) ==> |o.cart| == |cart|
    ensures o.Committed? && Absent(cart, productId) ==> catalog.Some? && o.cart == cart + [NewLine(catalog.value)]
  {
    if stock.None? then Failed(AddFailed)
    else
      var found := IndexOf(cart, productId);
      var cartAmount := if found.Some? && cart[found.value].amount != 0 then cart[found.value].amount + 1 else 0;
      if stock.value < cartAmount then Failed(OutOfStock)
      else if found.Some? then Committed(SetAmount(cart, found.value, cart[found.value].amount + 1))
      else if catalog.None? then Failed(AddFailed)
      else Committed(cart + [NewLine(catalog.value)])
  }

  /** `removeProduct`: an error when no line has the id, otherwise every line with the id is dropped. */
  function Remove(cart: seq<Line>, productId: int): (o: Outcome)
    ensures !o.Ignored?
    ensures o.Failed? <==> Absent(cart, productId)
    ensures o.Failed? ==> o.error == RemoveFailed
    ensures o.Committed? ==> |o.cart| < |cart| && Absent(o.cart, productId)
  {
    if IndexOf(cart, productId).None? then Failed(RemoveFailed)
    else
      WithoutShrinks(cart, productId);
      Committed(Without(cart, productId))
  }

  /** Filtering out an id that some line has makes the cart strictly shorter. */
  lemma {:induction false} WithoutShrinks(cart: seq<Line>, id: int)
    requires !Absent(cart, id)
    ensures |Without(cart, id)| < |cart|
  {
    if cart[0].id != id {
      assert !Absent(cart[1..], id) by {
        var i :| 0 <= i < |cart| && cart[i].id == id;
        assert cart[1..][i - 1] == cart[i];
      }
      WithoutShrinks(cart[1..], id);
    }
  }

  /**
   * `updateProductAmount`. Amounts below 1 are ignored before the stock
   * service is asked; the first line with the id must hold a non-zero
   * amount for the update to take place.
   */
  function UpdateAmount(cart: seq<Line>, productId: int, amount: int, stock: Option<int>): (o: Outcome)
    ensures o.Ignored? <==> amount < 1
    ensures o.Committed? ==> |o.cart| == |cart| && stock.Some? && 1 <= amount <= stock.value
    ensures o.Committed? ==> !Absent(cart, productId)
  {
    if amount < 1 then Ignored
    else if stock.None? then Failed(UpdateFailed)
    else if stock.value < amount then Failed(OutOfStock)
    else
      var found := IndexOf(cart, productId);
      if found.Some? && cart[found.value].amount != 0 then Committed(SetAmount(cart, found.value, amount))
      else Failed(UpdateFailed)
  }

  // ---------------------------------------------------------------------
  // Lookup by id

  /** In a cart with unique ids, the line holding an id is the one `find` returns. */
  lemma UniqueIndexOf(cart: seq<Line>, k: nat)
    requires Unique(cart) && k < |cart|
    ensures IndexOf(cart, cart[k].id) == Some(k)
  {
  }

  // ---------------------------------------------------------------------
  // addProduct

  /** A failed stock query is an add error, whatever the cart. */
  lemma AddStockQueryFails(cart: seq<Line>, productId: int, catalog: Option<Product>)
    ensures Add(cart, productId, None, catalog) == Failed(AddFailed)
  {
  }

  /**
   * Adding a product already in the cart, with stock for one unit more:
   * that line's amount grows by exactly one; length, order and every other
   * line stay as they were.
   */
  lemma AddIncrementsExisting(cart: seq<Line>, k: nat, stock: int, catalog: Option<Product>)
    requires Unique(cart) && k < |cart|
    requires stock >= cart[k].amount + 1
    ensures Add(cart, cart[k].id, Some(stock), catalog).Committed?
    ensures var c := Add(cart, cart[k].id, Some(stock), catalog).cart;
      && |c| == |cart|
      && c[k] == cart[k].(amount := cart[k].amount + 1)
      && forall j :: 0 <= j < |cart| && j != k ==> c[j] == cart[j]
  {
    UniqueIndexOf(cart, k);
  }

  /**
   * A line with amount 0 (possible only in a stored cart) gets the comparison
   * value 0, like a new product: any non-negative stock lets the add raise it
   * to 1.
   */
  lemma AddZeroAmountLine(cart: seq<Line>, k: nat, stock: int, catalog: Option<Product>)
    requires Unique(cart) && k < |cart| && cart[k].amount == 0
    ensures stock >= 0 ==> Add(cart, cart[k].id, Some(stock), catalog) == Committed(cart[k := cart[k].(amount := 1)])
    ensures stock < 0 ==> Add(cart, cart[k].id, Some(stock), catalog) == Failed(OutOfStock)
  {
    UniqueIndexOf(cart, k);
  }

  /** Adding a product already in the cart without stock for one unit more is an out-of-stock error. */
  lemma AddExistingOutOfStock(cart: seq<Line>, k: nat, stock: int, catalog: Option<Product>)
    requires Unique(cart) && k < |cart| && cart[k].amount != 0
    requires stock < cart[k].amount + 1
    ensures Add(cart, cart[k].id, Some(stock), catalog) == Failed(OutOfStock)
  {
    UniqueIndexOf(cart, k);
  }

  /**
   * Adding a product that is not in the cart compares the stock against 0:
   * with any non-negative stock (zero included) and a catalog answer, exactly
   * one line with amount 1 is appended; with no catalog answer it is an add
   * error; only a negative stock reports out-of-stock.
   */
  lemma AddNewLine(cart: seq<Line>, productId: int, stock: int, catalog: Option<Product>)
    requires Absent(cart, productId)
    ensures stock >= 0 && catalog.Some? ==>
      Add(cart, productId, Some(stock), catalog) == Committed(cart + [NewLine(catalog.value)])
    ensures stock >= 0 && catalog.None? ==> Add(cart, productId, Some(stock), catalog) == Failed(AddFailed)
    ensures stock < 0 ==> Add(cart, productId, Some(stock), catalog) == Failed(OutOfStock)
  {
  }

  /** Appending a line whose id is new keeps ids unique. */
  lemma {:induction false} AppendKeepsUnique(cart: seq<Line>, l: Line)
    requires Unique(cart) && Absent(cart, l.id)
    ensures Unique(cart + [l])
  {
    var c := cart + [l];
    forall i, j | 0 <= i < j < |c| ensures c[i].id != c[j].id {
      if j < |cart| {
        assert c[i] == cart[i] && c[j] == cart[j];
      } else {
        assert c[i] == cart[i] && c[j] == l;
      }
    }
  }

  /** Changing a line's amount keeps ids unique. */
  lemma SetAmountKeepsIds(cart: seq<Line>, i: nat, amount: int)
    requires i < |cart|
    ensures |SetAmount(cart, i, amount)| == |cart|
    ensures forall j :: 0 <= j < |cart| ==> SetAmount(cart, i, amount)[j].id == cart[j].id
    ensures Unique(cart) ==> Unique(SetAmount(cart, i, amount))
  {
  }

  /**
   * `addProduct` keeps ids unique, provided the catalog answers for the id
   * that was asked (the appended line takes its id from the catalog entry).
   */
  lemma AddPreservesUnique(cart: seq<Line>, productId: int, stock: Option<int>, catalog: Option<Product>)
    requires Unique(cart)
    requires catalog.Some? ==> catalog.value.id == productId
    ensures Unique(Add(cart, productId, stock, catalog).After(cart))
  {
    var o := Add(cart, productId, stock, catalog);
    if o.Committed? {
      var found := IndexOf(cart, productId);
      if found.Some? {
        SetAmountKeepsIds(cart, found.value, cart[found.value].amount + 1);
      } else {
        AppendKeepsUnique(cart, NewLine(catalog.value));
      }
    }
  }

  // ---------------------------------------------------------------------
  // removeProduct

  /** Filtering distributes over concatenation: the kept lines stay in their order. */
  lemma {:induction false} WithoutConcat(a: seq<Line>, b: seq<Line>, id: int)
    ensures Without(a + b, id) == Without(a, id) + Without(b, id)
  {
    if |a| == 0 {
      assert a + b == b;
    } else {
      assert (a + b)[1..] == a[1..] + b;
      WithoutConcat(a[1..], b, id);
    }
  }

  /** Filtering out an id no line has gives the cart back unchanged. */
  lemma {:induction false} WithoutAbsent(cart: seq<Line>, id: int)
    requires Absent(cart, id)
    ensures Without(cart, id) == cart
  {
    if |cart| > 0 {
      WithoutAbsent(cart[1..], id);
    }
  }

  /** Filtering keeps ids unique. */
  lemma {:induction false} WithoutKeepsUnique(cart: seq<Line>, id: int)
    requires Unique(cart)
    ensures Unique(Without(cart, id))
  {
    if |cart| > 0 {
      var tail := cart[1..];
      WithoutKeepsUnique(tail, id);
      var w := Without(cart, id);
      if cart[0].id != id {
        assert w == [cart[0]] + Without(tail, id);
        forall i, j | 0 <= i < j < |w| ensures w[i].id != w[j].id {
          if i == 0 {
            assert w[j] in Without(tail, id);
            assert w[j] in tail;
          }
        }
      }
    }
  }

  /** Removing an id no line has is a remove error and leaves the cart identical. */
  lemma RemoveAbsent(cart: seq<Line>, productId: int)
    requires Absent(cart, productId)
    ensures Remove(cart, productId) == Failed(RemoveFailed)
  {
  }

  /** In a cart with unique ids, no line before or after line `k` has its id. */
  lemma UniqueSplit(cart: seq<Line>, k: nat)
    requires Unique(cart) && k < |cart|
    ensures Absent(cart[..k], cart[k].id) && Absent(cart[k + 1..], cart[k].id)
  {
    var pre, post := cart[..k], cart[k + 1..];
    forall j | 0 <= j < |pre| ensures pre[j].id != cart[k].id {
      assert pre[j] == cart[j];
    }
    forall j | 0 <= j < |post| ensures post[j].id != cart[k].id {
      assert post[j] == cart[k + 1 + j];
    }
  }

  /** Filtering out the id of the one line that has it leaves the lines around it, in order. */
  lemma WithoutSplice(pre: seq<Line>, x: Line, post: seq<Line>)
    requires Absent(pre, x.id) && Absent(post, x.id)
    ensures Without(pre + [x] + post, x.id) == pre + post
  {
    var id := x.id;
    calc {
      Without(pre + [x] + post, id);
      { WithoutConcat(pre + [x], post, id); }
      Without(pre + [x], id) + Without(post, id);
      { WithoutConcat(pre, [x], id); }
      Without(pre, id) + Without([x], id) + Without(post, id);
      { assert Without([x], id) == []; }
      Without(pre, id) + Without(post, id);
      { WithoutAbsent(pre, id); WithoutAbsent(post, id); }
      pre + post;
    }
  }

  /**
   * Removing the id of line `k` from a cart with unique ids commits exactly
   * the other lines, in their original order.
   */
  lemma RemovePresent(cart: seq<Line>, k: nat)
    requires Unique(cart) && k < |cart|
    ensures Remove(cart, cart[k].id) == Committed(cart[..k] + cart[k + 1..])
  {
    UniqueIndexOf(cart, k);
    UniqueSplit(cart, k);
    assert cart == cart[..k] + [cart[k]] + cart[k + 1..];
    WithoutSplice(cart[..k], cart[k], cart[k + 1..]);
  }

  /** `removeProduct` keeps ids unique. */
  lemma RemovePreservesUnique(cart: seq<Line>, productId: int)
    requires Unique(cart)
    ensures Unique(Remove(cart, productId).After(cart))
  {
    WithoutKeepsUnique(cart, productId);
  }

  // ---------------------------------------------------------------------
  // updateProductAmount

  /** An amount below 1 changes nothing and raises nothing, whatever the stock. */
  lemma UpdateBelowOneIgnored(cart: seq<Line>, productId: int, amount: int, stock: Option<int>)
    requires amount < 1
    ensures UpdateAmount(cart, productId, amount, stock) == Ignored
  {
  }

  /**
   * For an amount of at least 1: a failed stock query is an update error,
   * a stock below the amount is out-of-stock, an id with no line is an update
   * error; each leaves the cart unchanged.
   */
  lemma UpdateFailures(cart: seq<Line>, productId: int, amount: int, stock: Option<int>)
    requires amount >= 1
    ensures stock.None? ==> UpdateAmount(cart, productId, amount, stock) == Failed(UpdateFailed)
    ensures stock.Some? && stock.value < amount ==> UpdateAmount(cart, productId, amount, stock) == Failed(OutOfStock)
    ensures stock.Some? && stock.value >= amount && Absent(cart, productId) ==>
      UpdateAmount(cart, productId, amount, stock) == Failed(UpdateFailed)
  {
  }

  /**
   * On a cart with unique ids and enough stock, the update sets line `k`'s
   * amount to exactly `amount` and changes nothing else.
   */
  lemma UpdateSetsExact(cart: seq<Line>, k: nat, amount: int, stock: int)
    requires Unique(cart) && k < |cart| && cart[k].amount != 0
    requires 1 <= amount <= stock
    ensures UpdateAmount(cart, cart[k].id, amount, Some(stock)) == Committed(cart[k := cart[k].(amount := amount)])
  {
    UniqueIndexOf(cart, k);
  }

  /**
   * Whenever an update commits, the cart keeps its length, and the only
   * line that differs has the given id and the given amount, which is at
   * least 1 and at most the stock observed.
   */
  lemma UpdateStockCeiling(cart: seq<Line>, productId: int, amount: int, stock: Option<int>)
    requires UpdateAmount(cart, productId, amount, stock).Committed?
    ensures var c := UpdateAmount(cart, productId, amount, stock).cart;
      && |c| == |cart|
      && stock.Some?
      && forall j :: 0 <= j < |c| && c[j] != cart[j] ==>
           c[j].id == productId && c[j].amount == amount && 1 <= c[j].amount <= stock.value
  {
  }

  /** `updateProductAmount` keeps ids unique. */
  lemma UpdatePreservesUnique(cart: seq<Line>, productId: int, amount: int, stock: Option<int>)
    requires Unique(cart)
    ensures Unique(UpdateAmount(cart, productId, amount, stock).After(cart))
  {
    var o := UpdateAmount(cart, productId, amount, stock);
    if o.Committed? {
      var found := IndexOf(cart, productId);
      SetAmountKeepsIds(cart, found.value, amount);
    }
  }

  // ---------------------------------------------------------------------
  // The amount invariant

  /** No operation introduces a line holding fewer than one unit. */
  lemma OperationsKeepAmountsPositive(cart: seq<Line>, productId: int, amount: int, stock: Option<int>, catalog: Option<Product>)
    requires AmountsPositive(cart)
    ensures AmountsPositive(Add(cart, productId, stock, catalog).After(cart))
    ensures AmountsPositive(Remove(cart, productId).After(cart))
    ensures AmountsPositive(UpdateAmount(cart, productId, amount, stock).After(cart))
  {
    var r := Remove(cart, productId).After(cart);
    forall i | 0 <= i < |r| ensures r[i].amount >= 1 {
      assert r[i] in r;
      var j :| 0 <= j < |cart| && cart[j] == r[i];
    }
  }
}
