/**
 * The per-product quantity lookup of `src/pages/Home/index.tsx`: the catalog
 * page folds the cart into a dictionary from product id to amount, and
 * reads it with a default of 0.
 */
module HomeLookup {
  import opened CartState

  /** The dictionary the fold builds: each line in turn writes its amount under its id. */
  function AmountsOf(cart: seq<Line>): (amounts: map<int, int>)
  {
    if |cart| == 0 then map[]
    else AmountsOf(cart[..|cart| - 1])[cart[|cart| - 1].id := cart[|cart| - 1].amount]
  }

  /** Reading the dictionary, 0 for an id it does not hold. */
  function QuantityInCart(amounts: map<int, int>, id: int): (quantity: int)
  {
    if id in amounts then amounts[id] else 0
  }

  /** The `reduce` over the cart, one dictionary write per line. */
  method ItemsAmount(cart: seq<Line>) returns (amounts: map<int, int>)
    ensures amounts == AmountsOf(cart)
  {
    amounts := map[];
    var i := 0;
    while i < |cart|
      invariant 0 <= i <= |cart|
      invariant amounts == AmountsOf(cart[..i])
    {
      assert cart[..i + 1][..i] == cart[..i];
      amounts := amounts[cart[i].id := cart[i].amount];
      i := i + 1;
    }
    assert cart[..|cart|] == cart;
  }

  /** The dictionary holds exactly the ids of the cart's lines. */
  lemma {:induction false} AmountsKeys(cart: seq<Line>, id: int)
    ensures id in AmountsOf(cart) <==> !Absent(cart, id)
  {
    if |cart| > 0 {
      var init := cart[..|cart| - 1];
      AmountsKeys(init, id);
      assert forall j :: 0 <= j < |init| ==> init[j] == cart[j];
    }
  }

  /** An id with no line reads as 0; in particular every id reads 0 for the empty cart. */
  lemma AbsentReadsZero(cart: seq<Line>, id: int)
    requires Absent(cart, id)
    ensures QuantityInCart(AmountsOf(cart), id) == 0
  {
    AmountsKeys(cart, id);
  }

  /** When an id occurs more than once, the amount of its last line is the one read. */
  lemma {:induction false} LastOccurrenceWins(cart: seq<Line>, k: nat)
    requires k < |cart|
    requires forall j :: k < j < |cart| ==> cart[j].id != cart[k].id
    ensures cart[k].id in AmountsOf(cart)
    ensures QuantityInCart(AmountsOf(cart), cart[k].id) == cart[k].amount
  {
    var n := |cart| - 1;
    if k < n {
      var init := cart[..n];
      assert init[k] == cart[k];
      LastOccurrenceWins(init, k);
    }
  }

  /** For a cart with unique ids, each line's id reads as that line's amount. */
  lemma UniqueLookup(cart: seq<Line>, k: nat)
    requires Unique(cart) && k < |cart|
    ensures QuantityInCart(AmountsOf(cart), cart[k].id) == cart[k].amount
  {
    LastOccurrenceWins(cart, k);
  }
}
