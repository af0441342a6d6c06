/**
 * A cart holding two rows of the same product.
 *
 * The handler checks every row against the product's whole stock and writes
 * every row's new stock from the stock read at load time, so the last write
 * wins: an order may take more units than were in stock, and the stock goes
 * down by only one row's quantity. `DuplicateRowsOversell` runs the modelled
 * handler on such a cart. `RunningStockAfter` and `DemandFits` are the
 * evidently intended behaviour: each write deducts from the current stock, and
 * validation weighs a product's total demand against its stock.
 */
module CheckoutFindings {
  import opened Wrappers
  import opened Types
  import opened Checkout

  // ---------------------------------------------------------------------------
  // As written
  // ---------------------------------------------------------------------------

  const Mug: Product := Product("p", "Mug", None, 100, "kitchen", 5, false)
  const Home: OrderAddress := OrderAddress("a@b.c", "Ann", "Lee", "1 Main St", "Town", "ST", "12345", "US")
  const NoFaults: Faults := Faults(false, false, false, false, {}, false)

  /** The token `t` belongs to user `u`. */
  function VerifyToken(token: string): Option<UserId>
  {
    if token == "t" then Some("u") else None
  }

  /** Five mugs in stock; user `u` has a cart row of 3 mugs and another of 4. */
  const Shelf: map<ProductId, Product> := map["p" := Mug]
  const TwoRows: seq<CartRow> := [CartRow("a", "u", "p", 3), CartRow("b", "u", "p", 4)]
  const Before: Stores := Stores(Shelf, TwoRows, map[], [], 0)
  const Post: Request := Request("POST", Some("Bearer t"), Json(Some(Home)))
  const TwoLines: seq<Line> := [Line(TwoRows[0], Some(Mug)), Line(TwoRows[1], Some(Mug))]
  const TwoPriced: seq<PricedLine> := [PricedLine("p", 3, 100), PricedLine("p", 4, 100)]

  /** The request passes the guards as user `u`. */
  lemma PostPasses()
    ensures Guard(Post, VerifyToken) == Success(("u", Home))
  {
    assert BearerToken(Post.authorization) == Some("t");
  }

  /** Both rows load, each joined with the same product row. */
  lemma TwoRowsLoad()
    ensures LoadCart(TwoRows, "u", Shelf) == TwoLines
  {
    assert UserRows(TwoRows, "u") == TwoRows by {
      assert TwoRows[1..][1..] == [];
    }
  }

  /** Each row passes validation on its own: 3 <= 5 and 4 <= 5. */
  lemma TwoRowsValidate()
    ensures Validate(TwoLines) == Success(TwoPriced)
    ensures OrderTotal(TwoPriced) == 700
  {
    var r := Validate(TwoLines);
    assert LineOk(TwoLines[0]) && LineOk(TwoLines[1]);
    assert r.Success? && PricedFrom(TwoLines, r.value);
    assert r.value[0] == TwoPriced[0] && r.value[1] == TwoPriced[1];
    assert r.value == TwoPriced;
    assert TwoPriced[..1] == [TwoPriced[0]];
    assert TwoPriced[..1][..0] == [];
  }

  /** Both writes start from the 5 read at load time; the second, 5 - 4, is the one that stays. */
  lemma TwoRowsRestock()
    ensures StockAfter(Shelf, TwoLines, TwoPriced, {}) == map["p" := Mug.(stock := 1)]
  {
    assert FirstLineFor(TwoLines, "p") == Some(TwoLines[0]);
    assert TwoPriced[..1][..0] == [];
    assert StockAfter(Shelf, TwoLines, TwoPriced[..1], {}) == map["p" := Mug.(stock := 2)];
    assert TwoPriced[..2] == TwoPriced;
  }

  /** The order's items: one per row, both at the catalog price. */
  lemma TwoRowsItems()
    ensures Attach(TwoPriced, 0) == [OrderItem(0, "p", 3, 100), OrderItem(0, "p", 4, 100)]
  {
  }

  /**
   * The attempt succeeds with an order of 7 mugs for 700 cents, and the stock
   * ends at 1: neither refused nor reduced by the 7 units sold.
   */
  lemma DuplicateRowsOversell()
    ensures CheckoutSpec(Before, Post, VerifyToken, NoFaults).0 == Ok(0, 700)
    ensures CheckoutSpec(Before, Post, VerifyToken, NoFaults).1.orderItems ==
      [OrderItem(0, "p", 3, 100), OrderItem(0, "p", 4, 100)]
    ensures CheckoutSpec(Before, Post, VerifyToken, NoFaults).1.products == map["p" := Mug.(stock := 1)]
  {
    PostPasses();
    TwoRowsLoad();
    TwoRowsValidate();
    ValidatedAttempt(Before, Post, VerifyToken, NoFaults);
    CommitPlacesOrder(Before, "u", Home, TwoLines, TwoPriced, NoFaults);
    TwoRowsItems();
    CommitRunsStockLoop(Before, "u", Home, TwoLines, TwoPriced, NoFaults);
    TwoRowsRestock();
  }

  // ---------------------------------------------------------------------------
  // As evidently intended
  // ---------------------------------------------------------------------------

  /** The units of product `pid` that `priced` orders. */
  function Demand(priced: seq<PricedLine>, pid: ProductId): int
  {
    if priced == [] then 0
    else Demand(priced[..|priced| - 1], pid) + if priced[|priced| - 1].productId == pid then priced[|priced| - 1].quantity else 0
  }

  /** Corrected validation: every ordered product exists and has stock for all the units ordered of it. */
  predicate DemandFits(products: map<ProductId, Product>, priced: seq<PricedLine>)
  {
    forall k :: 0 <= k < |priced| ==>
      priced[k].productId in products && Demand(priced, priced[k].productId) <= products[priced[k].productId].stock
  }

  /** Corrected stock write: deduct the item's quantity from the product's current stock. */
  function Deduct(current: map<ProductId, Product>, item: PricedLine, fails: set<ProductId>): map<ProductId, Product>
  {
    if item.productId in current && item.productId !in fails then
      current[item.productId := current[item.productId].(stock := current[item.productId].stock - item.quantity)]
    else current
  }

  /** The corrected stock loop over `priced`, in order. */
  function RunningStockAfter(products: map<ProductId, Product>, priced: seq<PricedLine>, fails: set<ProductId>)
    : (after: map<ProductId, Product>)
    ensures after.Keys == products.Keys
  {
    if priced == [] then products
    else Deduct(RunningStockAfter(products, priced[..|priced| - 1], fails), priced[|priced| - 1], fails)
  }

  /**
   * The corrected loop takes from each product exactly the units ordered of
   * it, whatever rows the cart splits them over; a failed write leaves the
   * product as it was.
   */
  lemma {:induction false} RunningStockDeducts(
    products: map<ProductId, Product>, priced: seq<PricedLine>, fails: set<ProductId>, pid: ProductId)
    requires pid in products
    ensures var after := RunningStockAfter(products, priced, fails);
      pid in after &&
      after[pid] == if pid in fails then products[pid]
                    else products[pid].(stock := products[pid].stock - Demand(priced, pid))
  {
    if priced != [] {
      RunningStockDeducts(products, priced[..|priced| - 1], fails, pid);
    }
  }

  /** A product no line orders has no demand. */
  lemma {:induction false} NoDemandUnlessOrdered(priced: seq<PricedLine>, pid: ProductId)
    requires forall k :: 0 <= k < |priced| ==> priced[k].productId != pid
    ensures Demand(priced, pid) == 0
  {
    if priced != [] {
      NoDemandUnlessOrdered(priced[..|priced| - 1], pid);
    }
  }

  /** After corrected validation, the corrected loop leaves no stock negative that was not negative before. */
  lemma RunningStockNeverOversells(products: map<ProductId, Product>, priced: seq<PricedLine>, fails: set<ProductId>)
    requires DemandFits(products, priced)
    ensures forall pid :: pid in products && products[pid].stock >= 0 ==>
      RunningStockAfter(products, priced, fails)[pid].stock >= 0
  {
    forall pid | pid in products && products[pid].stock >= 0
      ensures RunningStockAfter(products, priced, fails)[pid].stock >= 0
    {
      RunningStockDeducts(products, priced, fails, pid);
      if forall k :: 0 <= k < |priced| ==> priced[k].productId != pid {
        NoDemandUnlessOrdered(priced, pid);
      }
    }
  }

  /** Corrected validation refuses the cart of `DuplicateRowsOversell`. */
  lemma DuplicateRowsRefused()
    ensures !DemandFits(Shelf, TwoPriced)
  {
    assert TwoPriced[..1] == [TwoPriced[0]];
    assert TwoPriced[..1][..0] == [];
    assert Demand(TwoPriced, "p") == 7;
  }
}
