/**
 * The server checkout transaction (the `checkout` edge function).
 *
 * One attempt turns the caller's cart rows into an order: guard checks on the
 * request, load of the caller's cart joined with the catalog, per-line
 * validation that accumulates the total from catalog prices, insertion of the
 * order header and of its items (deleting the header again when the items
 * insert fails), a stock decrement per line floored at zero, and clearing of
 * the caller's cart, whose failure is ignored.
 *
 * The database is four stores held by the class `Store`; storage failures are
 * inputs (`Faults`). `CheckoutSpec` states the whole attempt as a function of
 * the stores before it, `Store.Checkout` performs it step by step and is
 * proved equal to it, and the lemmas state what an attempt guarantees.
 */
module Checkout {
  import opened Wrappers
  import opened Types
  import Seqs

  // ---------------------------------------------------------------------------
  // Requests, injected storage failures and responses
  // ---------------------------------------------------------------------------

  /** The request body as `req.json()` sees it: unparsable text throws, `address` may be absent. */
  datatype Body = Unreadable | Json(address: Option<OrderAddress>)

  /** An HTTP request: its method, its `Authorization` header and its body. */
  datatype Request = Request(httpMethod: string, authorization: Option<string>, body: Body)

  /**
   * Which storage calls of this attempt fail. A failed stock update or cart
   * clear goes unnoticed by the handler; a failed rollback delete likewise.
   */
  datatype Faults = Faults(
    cartReadFails: bool,
    orderInsertFails: bool,
    itemsInsertFails: bool,
    rollbackFails: bool,
    stockWriteFails: set<ProductId>,
    cartClearFails: bool)

  /** What the handler answers. */
  datatype Response =
    | Preflight
    | Unauthorized
    | InvalidToken
    | MethodNotAllowed
    | InvalidAddress
    | EmptyCart
    | ProductNotFound
    | InsufficientStock(title: string, available: int)
    | Internal
    | Ok(orderId: OrderId, totalAmount: Cents)

  /** The HTTP status of each response; every thrown storage error becomes a 500. */
  function StatusCode(r: Response): (code: int)
    ensures code == 200 <==> r.Preflight? || r.Ok?
    ensures code == 401 <==> r.Unauthorized? || r.InvalidToken?
    ensures code == 405 <==> r.MethodNotAllowed?
    ensures code == 400 <==> r.InvalidAddress? || r.EmptyCart? || r.ProductNotFound? || r.InsufficientStock?
    ensures code == 500 <==> r.Internal?
  {
    match r
    case Preflight => 200
    case Ok(_, _) => 200
    case Unauthorized => 401
    case InvalidToken => 401
    case MethodNotAllowed => 405
    case Internal => 500
    case _ => 400
  }

  // ---------------------------------------------------------------------------
  // Guard checks
  // ---------------------------------------------------------------------------

  const BearerPrefix: string := "Bearer "

  /** The token of an `Authorization: Bearer <token>` header, if the header has that form. */
  function BearerToken(header: Option<string>): (token: Option<string>)
    ensures token.Some? <==> header.Some? && BearerPrefix <= header.value
    ensures token.Some? ==> header.value == BearerPrefix + token.value
  {
    if header.Some? && BearerPrefix <= header.value then Some(header.value[|BearerPrefix|..]) else None
  }

  /** All eight address fields are present; the empty string stands for any falsy value. */
  predicate AddressComplete(a: OrderAddress)
  {
    && a.email != "" && a.firstName != "" && a.lastName != "" && a.address != ""
    && a.city != "" && a.state != "" && a.zipCode != "" && a.country != ""
  }

  /**
   * The checks made before any store is read: bearer header, token
   * verification (the external `verify`), POST, a readable body and a
   * complete address. Success yields the verified user and the address.
   */
  function Guard(req: Request, verify: string -> Option<UserId>): (r: Result<(UserId, OrderAddress), Response>)
    ensures r.Success? <==>
      && BearerToken(req.authorization).Some?
      && verify(BearerToken(req.authorization).value).Some?
      && req.httpMethod == "POST"
      && req.body.Json? && req.body.address.Some? && AddressComplete(req.body.address.value)
    ensures r.Success? ==>
      r.value == (verify(BearerToken(req.authorization).value).value, req.body.address.value)
    ensures r.Failure? ==> r.error in {Unauthorized, InvalidToken, MethodNotAllowed, Internal, InvalidAddress}
    ensures r == Failure(Unauthorized) <==> BearerToken(req.authorization).None?
  {
    match BearerToken(req.authorization)
    case None => Failure(Unauthorized)
    case Some(token) =>
      match verify(token)
      case None => Failure(InvalidToken)
      case Some(user) =>
        if req.httpMethod != "POST" then Failure(MethodNotAllowed)
        else match req.body
          case Unreadable => Failure(Internal)
          case Json(address) =>
            if address.None? || !AddressComplete(address.value) then Failure(InvalidAddress)
            else Success((user, address.value))
  }

  // ---------------------------------------------------------------------------
  // Loading and validating the cart
  // ---------------------------------------------------------------------------

  /** A cart row joined with its product, `None` when the product row is gone. */
  datatype Line = Line(row: CartRow, product: Option<Product>)

  function Lookup(products: map<ProductId, Product>, id: ProductId): Option<Product>
  {
    if id in products then Some(products[id]) else None
  }

  /** The caller's rows, in the order they were read. */
  function UserRows(rows: seq<CartRow>, user: UserId): seq<CartRow>
  {
    Seqs.Filter((row: CartRow) => row.userId == user, rows)
  }

  /** The caller's rows, each joined with its product. */
  function LoadCart(rows: seq<CartRow>, user: UserId, products: map<ProductId, Product>): (lines: seq<Line>)
  {
    var mine := UserRows(rows, user);
    seq(|mine|, k requires 0 <= k < |mine| => Line(mine[k], Lookup(products, mine[k].productId)))
  }

  /** A line can be ordered: its product exists and has enough stock. */
  predicate LineOk(line: Line)
  {
    line.product.Some? && line.product.value.stock >= line.row.quantity
  }

  /** The error a line that cannot be ordered produces. */
  function LineError(line: Line): Response
  {
    if line.product.None? then ProductNotFound
    else InsufficientStock(line.product.value.title, line.product.value.stock)
  }

  /** The data an order item is built from; the price is the catalog's. */
  datatype PricedLine = PricedLine(productId: ProductId, quantity: int, priceAtPurchase: Cents)

  function Priced(line: Line): PricedLine
    requires line.product.Some?
  {
    PricedLine(line.product.value.id, line.row.quantity, line.product.value.price)
  }

  /** Every line can be ordered and `priced` holds, line by line, its product id, quantity and catalog price. */
  predicate PricedFrom(lines: seq<Line>, priced: seq<PricedLine>)
  {
    |priced| == |lines| && forall k :: 0 <= k < |lines| ==> LineOk(lines[k]) && priced[k] == Priced(lines[k])
  }

  /**
   * The validation loop: the first line that cannot be ordered decides the
   * error; otherwise every line is priced from its catalog row.
   */
  function Validate(lines: seq<Line>): (r: Result<seq<PricedLine>, Response>)
    ensures r.Success? <==> forall k :: 0 <= k < |lines| ==> LineOk(lines[k])
    ensures r.Success? ==> PricedFrom(lines, r.value)
    ensures r.Failure? ==>
      exists k :: 0 <= k < |lines| && !LineOk(lines[k]) && r.error == LineError(lines[k]) &&
                  forall j :: 0 <= j < k ==> LineOk(lines[j])
  {
    if lines == [] then Success([])
    else
      var last := lines[|lines| - 1];
      match Validate(lines[..|lines| - 1])
      case Failure(e) => Failure(e)
      case Success(priced) =>
        if !LineOk(last) then Failure(LineError(last))
        else Success(priced + [Priced(last)])
  }

  /** A failure found on a prefix of the lines is the failure of all of them. */
  lemma {:induction false} ValidateFailureSticks(lines: seq<Line>, m: nat)
    requires m <= |lines|
    requires Validate(lines[..m]).Failure?
    ensures Validate(lines) == Validate(lines[..m])
    decreases |lines| - m
  {
    if m < |lines| {
      var next := lines[..m + 1];
      assert next[..m] == lines[..m];
      assert Validate(next) == Validate(lines[..m]);
      ValidateFailureSticks(lines, m + 1);
    } else {
      assert lines[..m] == lines;
    }
  }

  /** The validation failure is the error of the first line that cannot be ordered. */
  lemma FirstBadLineDecides(lines: seq<Line>, k: nat)
    requires k < |lines| && !LineOk(lines[k])
    requires forall j :: 0 <= j < k ==> LineOk(lines[j])
    ensures Validate(lines) == Failure(LineError(lines[k]))
  {
    var r := Validate(lines);
    assert r.Failure?;
    var k' :| 0 <= k' < |lines| && !LineOk(lines[k']) && r.error == LineError(lines[k']) &&
              forall j :: 0 <= j < k' ==> LineOk(lines[j]);
    assert k' == k;
  }

  // ---------------------------------------------------------------------------
  // Money
  // ---------------------------------------------------------------------------

  /** Σ quantity × price over the priced lines, accumulated in the order the rows were read; no tax is added. */
  function OrderTotal(priced: seq<PricedLine>): Cents
  {
    if priced == [] then 0
    else OrderTotal(priced[..|priced| - 1]) + priced[|priced| - 1].quantity * priced[|priced| - 1].priceAtPurchase
  }

  /** The order items of order `id`, one per priced line, in the same order. */
  function Attach(priced: seq<PricedLine>, id: OrderId): (items: seq<OrderItem>)
  {
    seq(|priced|, k requires 0 <= k < |priced| =>
      OrderItem(id, priced[k].productId, priced[k].quantity, priced[k].priceAtPurchase))
  }

  /** Σ quantity × price_at_purchase over the stored items of order `id`. */
  function ItemsTotal(items: seq<OrderItem>, id: OrderId): Cents
  {
    if items == [] then 0
    else
      var last := items[|items| - 1];
      ItemsTotal(items[..|items| - 1], id) + if last.orderId == id then last.quantity * last.priceAtPurchase else 0
  }

  /** Every order's total is the sum over its items. */
  ghost predicate MoneyInvariant(orders: map<OrderId, Order>, items: seq<OrderItem>)
  {
    forall id :: id in orders ==> orders[id].totalAmount == ItemsTotal(items, id)
  }

  lemma {:induction false} ItemsTotalAppend(a: seq<OrderItem>, b: seq<OrderItem>, id: OrderId)
    ensures ItemsTotal(a + b, id) == ItemsTotal(a, id) + ItemsTotal(b, id)
    decreases |b|
  {
    if b == [] {
      assert a + b == a;
    } else {
      assert (a + b)[..|a + b| - 1] == a + b[..|b| - 1];
      ItemsTotalAppend(a, b[..|b| - 1], id);
    }
  }

  /** The items attached to `id` add up to the order total and nothing for any other order. */
  lemma {:induction false} ItemsTotalAttach(priced: seq<PricedLine>, id: OrderId, other: OrderId)
    ensures ItemsTotal(Attach(priced, id), other) == if other == id then OrderTotal(priced) else 0
  {
    if priced != [] {
      assert Attach(priced, id)[..|priced| - 1] == Attach(priced[..|priced| - 1], id);
      ItemsTotalAttach(priced[..|priced| - 1], id, other);
    }
  }

  lemma {:induction false} ItemsTotalAbsent(items: seq<OrderItem>, id: OrderId)
    requires forall k :: 0 <= k < |items| ==> items[k].orderId != id
    ensures ItemsTotal(items, id) == 0
  {
    if items != [] {
      ItemsTotalAbsent(items[..|items| - 1], id);
    }
  }

  /**
   * Inserting a header whose total is the priced lines' total together with
   * the items built from those lines keeps every order's total equal to the
   * sum over its items.
   */
  lemma InsertKeepsMoneyInvariant(
    orders: map<OrderId, Order>, items: seq<OrderItem>, id: OrderId, header: Order, priced: seq<PricedLine>)
    requires MoneyInvariant(orders, items)
    requires forall k :: 0 <= k < |items| ==> items[k].orderId != id
    requires header.totalAmount == OrderTotal(priced)
    ensures MoneyInvariant(orders[id := header], items + Attach(priced, id))
  {
    var orders', items' := orders[id := header], items + Attach(priced, id);
    forall o | o in orders'
      ensures orders'[o].totalAmount == ItemsTotal(items', o)
    {
      ItemsTotalAppend(items, Attach(priced, id), o);
      ItemsTotalAttach(priced, id, o);
      if o == id {
        ItemsTotalAbsent(items, id);
      }
    }
  }

  /** A header left behind without items breaks the money invariant unless its total is zero. */
  lemma OrphanHeaderBreaksMoneyInvariant(
    orders: map<OrderId, Order>, items: seq<OrderItem>, id: OrderId, header: Order)
    requires forall k :: 0 <= k < |items| ==> items[k].orderId != id
    requires header.totalAmount != 0
    ensures !MoneyInvariant(orders[id := header], items)
  {
    ItemsTotalAbsent(items, id);
  }

  // ---------------------------------------------------------------------------
  // Stock
  // ---------------------------------------------------------------------------

  /** `Math.max(0, x)`. */
  function FloorAtZero(x: int): int
  {
    if x < 0 then 0 else x
  }

  /** `cartItems.find(ci => ci.product_id === pid)`: the first loaded line for a product. */
  function FirstLineFor(lines: seq<Line>, pid: ProductId): (r: Option<Line>)
    ensures r.None? <==> forall k :: 0 <= k < |lines| ==> lines[k].row.productId != pid
    ensures r.Some? ==>
      exists k :: 0 <= k < |lines| && lines[k] == r.value && lines[k].row.productId == pid &&
                  forall j :: 0 <= j < k ==> lines[j].row.productId != pid
  {
    if lines == [] then None
    else if lines[0].row.productId == pid then Some(lines[0])
    else
      var r := FirstLineFor(lines[1..], pid);
      assert r.Some? ==> exists k :: 1 <= k < |lines| && lines[k] == r.value && lines[k].row.productId == pid &&
                                     forall j :: 0 <= j < k ==> lines[j].row.productId != pid by {
        if r.Some? {
          var k :| 0 <= k < |lines[1..]| && lines[1..][k] == r.value && lines[1..][k].row.productId == pid &&
                   forall j :: 0 <= j < k ==> lines[1..][j].row.productId != pid;
          assert forall j :: 0 <= j < k + 1 ==> lines[j].row.productId != pid by {
            forall j | 0 <= j < k + 1 ensures lines[j].row.productId != pid {
              if j > 0 { assert lines[j] == lines[1..][j - 1]; }
            }
          }
        }
      }
      r
  }

  /**
   * One iteration of the stock loop: the product's stock becomes the stock
   * read at load time minus the ordered quantity, floored at zero. The update
   * is skipped when no loaded line has that product, when the write fails,
   * and touches nothing when the product row no longer exists.
   */
  function Restock(products: map<ProductId, Product>, lines: seq<Line>, item: PricedLine, fails: set<ProductId>)
    : map<ProductId, Product>
  {
    match FirstLineFor(lines, item.productId)
    case None => products
    case Some(line) =>
      if line.product.Some? && item.productId !in fails && item.productId in products then
        products[item.productId := products[item.productId].(stock := FloorAtZero(line.product.value.stock - item.quantity))]
      else products
  }

  /** The products after the stock loop has run over `priced` in order. */
  function StockAfter(products: map<ProductId, Product>, lines: seq<Line>, priced: seq<PricedLine>, fails: set<ProductId>)
    : map<ProductId, Product>
  {
    if priced == [] then products
    else Restock(StockAfter(products, lines, priced[..|priced| - 1], fails), lines, priced[|priced| - 1], fails)
  }

  /** Some priced line orders product `pid`. */
  predicate Ordered(priced: seq<PricedLine>, pid: ProductId)
  {
    exists k :: 0 <= k < |priced| && priced[k].productId == pid
  }

  /**
   * Whatever the cart holds, the stock loop keeps the product keys, changes
   * nothing but stock, writes only non-negative stock and leaves products
   * that were not ordered alone.
   */
  lemma {:induction false} StockAfterFrame(
    products: map<ProductId, Product>, lines: seq<Line>, priced: seq<PricedLine>, fails: set<ProductId>)
    ensures var after := StockAfter(products, lines, priced, fails);
      && after.Keys == products.Keys
      && (forall pid :: pid in products ==>
            after[pid] == products[pid].(stock := after[pid].stock) &&
            (after[pid].stock == products[pid].stock || after[pid].stock >= 0))
      && (forall pid :: pid in products && !Ordered(priced, pid) ==> after[pid] == products[pid])
  {
    if priced != [] {
      var init := priced[..|priced| - 1];
      var last := priced[|priced| - 1];
      StockAfterFrame(products, lines, init, fails);
      forall pid | Ordered(init, pid) ensures Ordered(priced, pid) {
        var k :| 0 <= k < |init| && init[k].productId == pid;
        assert priced[k] == init[k];
      }
      assert Ordered(priced, last.productId) by {
        assert priced[|priced| - 1] == last;
      }
    }
  }

  /** No product appears on two of the loaded lines. */
  predicate DistinctProducts(lines: seq<Line>)
  {
    forall i, j :: 0 <= i < j < |lines| ==> lines[i].row.productId != lines[j].row.productId
  }

  /** Every line carries the product read from `products` under its row's product id. */
  predicate JoinedFrom(lines: seq<Line>, products: map<ProductId, Product>)
  {
    forall k :: 0 <= k < |lines| ==> lines[k].product == Lookup(products, lines[k].row.productId)
  }

  /** Product rows are stored under their own id. */
  predicate KeyedById(products: map<ProductId, Product>)
  {
    forall pid :: pid in products ==> products[pid].id == pid
  }

  /** With one line per product, `find` returns the line itself. */
  lemma FirstLineOfDistinct(lines: seq<Line>, k: nat)
    requires DistinctProducts(lines) && k < |lines|
    ensures FirstLineFor(lines, lines[k].row.productId) == Some(lines[k])
  {
    var pid := lines[k].row.productId;
    var r := FirstLineFor(lines, pid);
    assert r.Some?;
    var k' :| 0 <= k' < |lines| && lines[k'] == r.value && lines[k'].row.productId == pid &&
              forall j :: 0 <= j < k' ==> lines[j].row.productId != pid;
    assert k' == k;
  }

  /** The stock loop keeps the product keys. */
  lemma {:induction false} StockAfterKeys(
    products: map<ProductId, Product>, lines: seq<Line>, priced: seq<PricedLine>, fails: set<ProductId>)
    ensures StockAfter(products, lines, priced, fails).Keys == products.Keys
  {
    if priced != [] {
      StockAfterKeys(products, lines, priced[..|priced| - 1], fails);
    }
  }

  /** One iteration of the stock loop, seen at a single product id `p`. */
  lemma StockStepAt(
    products: map<ProductId, Product>, lines: seq<Line>, priced: seq<PricedLine>, fails: set<ProductId>, m: nat, p: ProductId)
    requires KeyedById(products) && JoinedFrom(lines, products)
    requires PricedFrom(lines, priced)
    requires 0 < m <= |priced| && p in products
    ensures var before := StockAfter(products, lines, priced[..m - 1], fails);
      var after := StockAfter(products, lines, priced[..m], fails);
      var line := lines[m - 1];
      && p in before && p in after
      && (p == line.row.productId ==> products[p].stock >= line.row.quantity)
      && after[p] == if p != line.row.productId || p in fails then before[p]
                     else before[p].(stock := products[p].stock - line.row.quantity)
  {
    var before := StockAfter(products, lines, priced[..m - 1], fails);
    var line := lines[m - 1];
    assert priced[..m][..m - 1] == priced[..m - 1];
    assert StockAfter(products, lines, priced[..m], fails) == Restock(before, lines, priced[m - 1], fails);
    assert LineOk(line) && priced[m - 1] == Priced(line);
    assert line.product == Lookup(products, line.row.productId);
    StockAfterKeys(products, lines, priced[..m - 1], fails);
    RestockValidated(products, before, lines, m - 1, priced[m - 1], fails);
  }

  /**
   * The stock write for a validated line `k`: `find` may return an earlier
   * line of the same product, but that line carries the same product row, so
   * the write is the load-time stock minus this line's quantity.
   */
  lemma RestockValidated(
    products: map<ProductId, Product>, before: map<ProductId, Product>, lines: seq<Line>, k: nat, item: PricedLine, fails: set<ProductId>)
    requires KeyedById(products) && JoinedFrom(lines, products)
    requires k < |lines| && LineOk(lines[k]) && item == Priced(lines[k]) && item.productId in before
    ensures item.productId in products && products[item.productId].stock >= item.quantity
    ensures Restock(before, lines, item, fails) ==
      if item.productId in fails then before
      else before[item.productId := before[item.productId].(stock := products[item.productId].stock - item.quantity)]
  {
    var pid := lines[k].row.productId;
    assert lines[k].product == Lookup(products, pid);
    assert item.productId == pid;
    var r := FirstLineFor(lines, pid);
    assert r.Some?;
    var j :| 0 <= j < |lines| && lines[j] == r.value && lines[j].row.productId == pid;
    assert lines[j].product == Lookup(products, pid);
  }

  /** A product whose write fails is never changed by the stock loop. */
  lemma {:induction false} StockAfterSkipsFails(
    products: map<ProductId, Product>, lines: seq<Line>, priced: seq<PricedLine>, fails: set<ProductId>, pid: ProductId)
    requires pid in fails && pid in products
    ensures pid in StockAfter(products, lines, priced, fails)
    ensures StockAfter(products, lines, priced, fails)[pid] == products[pid]
  {
    if priced != [] {
      StockAfterSkipsFails(products, lines, priced[..|priced| - 1], fails, pid);
    }
  }

  /**
   * A product on none of the first `m` validated lines is untouched by the
   * first `m` iterations of the stock loop.
   */
  lemma StockUntouched(
    products: map<ProductId, Product>, lines: seq<Line>, priced: seq<PricedLine>, fails: set<ProductId>, m: nat, pid: ProductId)
    requires KeyedById(products) && JoinedFrom(lines, products) && PricedFrom(lines, priced)
    requires m <= |priced| && pid in products
    requires forall k :: 0 <= k < m ==> lines[k].row.productId != pid
    ensures pid in StockAfter(products, lines, priced[..m], fails)
    ensures StockAfter(products, lines, priced[..m], fails)[pid] == products[pid]
  {
    forall j | 0 <= j < m ensures priced[..m][j].productId != pid {
      assert LineOk(lines[j]) && priced[j] == Priced(lines[j]);
      assert lines[j].product == Lookup(products, lines[j].row.productId);
    }
    StockAfterFrame(products, lines, priced[..m], fails);
  }

  /** The stock write a validated line leaves behind: load-time stock minus its quantity, unless the write failed. */
  predicate LineRestocked(products: map<ProductId, Product>, after: map<ProductId, Product>, line: Line, fails: set<ProductId>)
  {
    var pid := line.row.productId;
    && pid in products && products[pid].stock - line.row.quantity >= 0
    && pid in after
    && after[pid] == if pid in fails then products[pid]
                     else products[pid].(stock := products[pid].stock - line.row.quantity)
  }

  /** The iteration that handles line `m - 1` leaves that line's product restocked. */
  lemma StockAfterLast(
    products: map<ProductId, Product>, lines: seq<Line>, priced: seq<PricedLine>, fails: set<ProductId>, m: nat)
    requires KeyedById(products) && JoinedFrom(lines, products)
    requires PricedFrom(lines, priced)
    requires 0 < m <= |priced|
    ensures LineRestocked(products, StockAfter(products, lines, priced[..m], fails), lines[m - 1], fails)
  {
    var pid := lines[m - 1].row.productId;
    assert LineOk(lines[m - 1]) && lines[m - 1].product == Lookup(products, pid);
    StockStepAt(products, lines, priced, fails, m, pid);
    if pid in fails {
      StockAfterSkipsFails(products, lines, priced[..m - 1], fails, pid);
    } else {
      StockAfterFrame(products, lines, priced[..m - 1], fails);
    }
  }

  /**
   * After `m` iterations of the stock loop over a cart with one line per
   * product, the product of each line `k < m` has its stock at load time
   * minus that line's quantity, unless its write failed.
   */
  lemma {:induction false} StockAfterLine(
    products: map<ProductId, Product>, lines: seq<Line>, priced: seq<PricedLine>, fails: set<ProductId>, m: nat, k: nat)
    requires KeyedById(products) && JoinedFrom(lines, products) && DistinctProducts(lines)
    requires PricedFrom(lines, priced)
    requires k < m <= |priced|
    ensures LineRestocked(products, StockAfter(products, lines, priced[..m], fails), lines[k], fails)
    decreases m
  {
    if k < m - 1 {
      var pid := lines[k].row.productId;
      StockAfterLine(products, lines, priced, fails, m - 1, k);
      assert pid != lines[m - 1].row.productId;
      StockStepAt(products, lines, priced, fails, m, pid);
    } else {
      StockAfterLast(products, lines, priced, fails, m);
    }
  }

  /**
   * `after` is `before` with each product of `lines` decremented by its
   * line's quantity, never below zero, unless its write failed, and every
   * other product untouched.
   */
  predicate StockAdjusted(before: map<ProductId, Product>, after: map<ProductId, Product>, lines: seq<Line>, fails: set<ProductId>)
  {
    && after.Keys == before.Keys
    && (forall k :: 0 <= k < |lines| ==>
          var pid := lines[k].row.productId;
          pid in before && before[pid].stock - lines[k].row.quantity >= 0 &&
          after[pid] == if pid in fails then before[pid]
                        else before[pid].(stock := before[pid].stock - lines[k].row.quantity))
    && (forall pid :: pid in before && (forall k :: 0 <= k < |lines| ==> lines[k].row.productId != pid) ==>
          after[pid] == before[pid])
  }

  /**
   * With at most one line per product, a successful validation means each
   * ordered product's stock becomes exactly its stock at load time minus the
   * ordered quantity (never negative) unless its write failed, and every
   * other product is untouched.
   */
  lemma StockAfterExact(
    products: map<ProductId, Product>, lines: seq<Line>, priced: seq<PricedLine>, fails: set<ProductId>)
    requires KeyedById(products) && JoinedFrom(lines, products) && DistinctProducts(lines)
    requires PricedFrom(lines, priced)
    ensures StockAdjusted(products, StockAfter(products, lines, priced, fails), lines, fails)
  {
    var after := StockAfter(products, lines, priced, fails);
    assert priced[..|priced|] == priced;
    StockAfterKeys(products, lines, priced, fails);
    forall k | 0 <= k < |lines| ensures LineRestocked(products, after, lines[k], fails) {
      StockAfterLine(products, lines, priced, fails, |priced|, k);
    }
    forall pid | pid in products && (forall k :: 0 <= k < |lines| ==> lines[k].row.productId != pid)
      ensures after[pid] == products[pid]
    {
      StockUntouched(products, lines, priced, fails, |priced|, pid);
    }
  }


  /** Removing the caller's cart rows: `delete().eq('user_id', user)`. */
  function ClearUser(rows: seq<CartRow>, user: UserId): seq<CartRow>
  {
    Seqs.Filter((row: CartRow) => row.userId != user, rows)
  }

  // ---------------------------------------------------------------------------
  // The whole attempt
  // ---------------------------------------------------------------------------

  /** The four tables and the next order id the orders table hands out. */
  datatype Stores = Stores(
    products: map<ProductId, Product>,
    cartItems: seq<CartRow>,
    orders: map<OrderId, Order>,
    orderItems: seq<OrderItem>,
    nextOrderId: OrderId)

  /**
   * Integrity of the tables: products stored under their id, order ids below
   * the next one to hand out, every order item referring to an order.
   */
  predicate Consistent(s: Stores)
  {
    && KeyedById(s.products)
    && (forall id :: id in s.orders ==> id < s.nextOrderId)
    && (forall k :: 0 <= k < |s.orderItems| ==> s.orderItems[k].orderId in s.orders)
  }

  /** The order header this attempt writes. */
  function Header(user: UserId, total: Cents, address: OrderAddress): Order
  {
    Order(user, total, address, Pending)
  }

  /**
   * The writes made once every line validated: the order header, its items
   * (deleting the header when they fail), the stock updates and the cart
   * clear.
   */
  function Commit(s: Stores, user: UserId, address: OrderAddress, lines: seq<Line>, priced: seq<PricedLine>, faults: Faults)
    : (Response, Stores)
  {
    var total := OrderTotal(priced);
    if faults.orderInsertFails then (Internal, s)
    else
      var id := s.nextOrderId;
      var placed := s.(orders := s.orders[id := Header(user, total, address)], nextOrderId := id + 1);
      if faults.itemsInsertFails then
        (Internal, if faults.rollbackFails then placed else placed.(orders := placed.orders - {id}))
      else
        var stocked := placed.(orderItems := s.orderItems + Attach(priced, id),
                               products := StockAfter(s.products, lines, priced, faults.stockWriteFails));
        (Ok(id, total), if faults.cartClearFails then stocked else stocked.(cartItems := ClearUser(s.cartItems, user)))
  }

  /** The attempt once the caller is known: load, validate, commit. */
  function Attempt(s: Stores, user: UserId, address: OrderAddress, faults: Faults): (Response, Stores)
  {
    if faults.cartReadFails then (Internal, s)
    else
      var lines := LoadCart(s.cartItems, user, s.products);
      if lines == [] then (EmptyCart, s)
      else match Validate(lines)
        case Failure(e) => (e, s)
        case Success(priced) => Commit(s, user, address, lines, priced, faults)
  }

  /** One checkout attempt against stores `s`: the response and the stores afterwards. */
  function CheckoutSpec(s: Stores, req: Request, verify: string -> Option<UserId>, faults: Faults)
    : (Response, Stores)
  {
    if req.httpMethod == "OPTIONS" then (Preflight, s)
    else match Guard(req, verify)
      case Failure(e) => (e, s)
      case Success(granted) => Attempt(s, granted.0, granted.1, faults)
  }

  /** The attempt gets past validation: the guards pass, the cart is read, non-empty, and every line can be ordered. */
  predicate Validated(s: Stores, req: Request, verify: string -> Option<UserId>, faults: Faults)
  {
    && req.httpMethod != "OPTIONS" && Guard(req, verify).Success? && !faults.cartReadFails
    && var lines := LoadCart(s.cartItems, Guard(req, verify).value.0, s.products);
       lines != [] && Validate(lines).Success?
  }

  /** Past validation, the attempt is the commit of the validated lines. */
  lemma ValidatedAttempt(s: Stores, req: Request, verify: string -> Option<UserId>, faults: Faults)
    requires Validated(s, req, verify, faults)
    ensures var (user, address) := Guard(req, verify).value;
      var lines := LoadCart(s.cartItems, user, s.products);
      CheckoutSpec(s, req, verify, faults) == Commit(s, user, address, lines, Validate(lines).value, faults)
  {
  }

  /**
   * No write before validation: an attempt that does not get past
   * validation leaves every store as it was.
   */
  lemma NotValidatedWritesNothing(s: Stores, req: Request, verify: string -> Option<UserId>, faults: Faults)
    requires !Validated(s, req, verify, faults)
    ensures CheckoutSpec(s, req, verify, faults).1 == s
    ensures !CheckoutSpec(s, req, verify, faults).0.Ok?
  {
    if req.httpMethod != "OPTIONS" && Guard(req, verify).Success? && !faults.cartReadFails {
      var lines := LoadCart(s.cartItems, Guard(req, verify).value.0, s.products);
      assert lines == [] || Validate(lines).Failure?;
    }
  }

  /** An attempt succeeds exactly when it gets past validation and both order inserts go through. */
  lemma SucceedsExactlyWhen(s: Stores, req: Request, verify: string -> Option<UserId>, faults: Faults)
    ensures CheckoutSpec(s, req, verify, faults).0.Ok? <==>
      Validated(s, req, verify, faults) && !faults.orderInsertFails && !faults.itemsInsertFails
  {
    if Validated(s, req, verify, faults) {
      ValidatedAttempt(s, req, verify, faults);
    } else {
      NotValidatedWritesNothing(s, req, verify, faults);
    }
  }

  /** The loaded lines carry the products of the store they were read from. */
  lemma LoadCartJoined(rows: seq<CartRow>, user: UserId, products: map<ProductId, Product>)
    ensures |LoadCart(rows, user, products)| == |UserRows(rows, user)|
    ensures JoinedFrom(LoadCart(rows, user, products), products)
    ensures forall k :: 0 <= k < |UserRows(rows, user)| ==> LoadCart(rows, user, products)[k].row == UserRows(rows, user)[k]
  {
  }

  /** The commit of validated lines keeps the tables consistent, whatever fails. */
  lemma CommitKeepsConsistency(
    s: Stores, user: UserId, address: OrderAddress, lines: seq<Line>, priced: seq<PricedLine>, faults: Faults)
    requires Consistent(s)
    ensures Consistent(Commit(s, user, address, lines, priced, faults).1)
  {
    var t := Commit(s, user, address, lines, priced, faults).1;
    var id := s.nextOrderId;
    if !faults.orderInsertFails && !faults.itemsInsertFails {
      StockAfterFrame(s.products, lines, priced, faults.stockWriteFails);
      assert t.orderItems == s.orderItems + Attach(priced, id);
      forall k | 0 <= k < |t.orderItems| ensures t.orderItems[k].orderId in t.orders {
        if k < |s.orderItems| {
          assert t.orderItems[k] == s.orderItems[k];
        }
      }
    } else if !faults.orderInsertFails && !faults.rollbackFails {
      assert id !in s.orders;
      assert t.orders == s.orders;
    }
  }

  /** An attempt keeps the tables consistent, whatever its outcome. */
  lemma CheckoutKeepsConsistency(s: Stores, req: Request, verify: string -> Option<UserId>, faults: Faults)
    requires Consistent(s)
    ensures Consistent(CheckoutSpec(s, req, verify, faults).1)
  {
    if Validated(s, req, verify, faults) {
      ValidatedAttempt(s, req, verify, faults);
      var (user, address) := Guard(req, verify).value;
      var lines := LoadCart(s.cartItems, user, s.products);
      CommitKeepsConsistency(s, user, address, lines, Validate(lines).value, faults);
    } else {
      NotValidatedWritesNothing(s, req, verify, faults);
    }
  }

  /**
   * A request refused by the guard checks changes no store: a missing or
   * non-Bearer header is 401 `Unauthorized`, a token that does not verify
   * 401 `InvalidToken`, a non-POST 405, an incomplete address 400
   * `InvalidAddress` — whatever the cart holds and whichever storage calls
   * would fail, since none is made.
   */
  lemma RefusedRequestWritesNothing(s: Stores, req: Request, verify: string -> Option<UserId>, faults: Faults)
    requires req.httpMethod != "OPTIONS"
    ensures BearerToken(req.authorization).None? ==> CheckoutSpec(s, req, verify, faults) == (Unauthorized, s)
    ensures BearerToken(req.authorization).Some? && verify(BearerToken(req.authorization).value).None? ==>
      CheckoutSpec(s, req, verify, faults) == (InvalidToken, s)
    ensures BearerToken(req.authorization).Some? && verify(BearerToken(req.authorization).value).Some? &&
            req.httpMethod != "POST" ==>
      CheckoutSpec(s, req, verify, faults) == (MethodNotAllowed, s)
    ensures BearerToken(req.authorization).Some? && verify(BearerToken(req.authorization).value).Some? &&
            req.httpMethod == "POST" && req.body.Json? &&
            (req.body.address.None? || !AddressComplete(req.body.address.value)) ==>
      CheckoutSpec(s, req, verify, faults) == (InvalidAddress, s)
  {
  }

  /** An empty cart is refused with `EmptyCart` and no store changes. */
  lemma EmptyCartWritesNothing(s: Stores, req: Request, verify: string -> Option<UserId>, faults: Faults)
    requires req.httpMethod != "OPTIONS" && Guard(req, verify).Success? && !faults.cartReadFails
    requires UserRows(s.cartItems, Guard(req, verify).value.0) == []
    ensures CheckoutSpec(s, req, verify, faults) == (EmptyCart, s)
  {
  }

  /**
   * A line without product or with `stock < quantity` refuses the attempt
   * with the error of the first such line (the stock error names the product
   * and its available stock), and no store changes.
   */
  lemma BadLineWritesNothing(s: Stores, req: Request, verify: string -> Option<UserId>, faults: Faults, k: nat)
    requires req.httpMethod != "OPTIONS" && Guard(req, verify).Success? && !faults.cartReadFails
    requires var lines := LoadCart(s.cartItems, Guard(req, verify).value.0, s.products);
      k < |lines| && !LineOk(lines[k]) && forall j :: 0 <= j < k ==> LineOk(lines[j])
    ensures var lines := LoadCart(s.cartItems, Guard(req, verify).value.0, s.products);
      var row := lines[k].row;
      CheckoutSpec(s, req, verify, faults) ==
        (if row.productId !in s.products then ProductNotFound
         else InsufficientStock(s.products[row.productId].title, s.products[row.productId].stock), s)
  {
    var lines := LoadCart(s.cartItems, Guard(req, verify).value.0, s.products);
    FirstBadLineDecides(lines, k);
  }

  /**
   * The commit of validated lines writes one pending order whose total is
   * Σ quantity × price_at_purchase over its items, one item per cart row of
   * the caller, in the order the rows were read, each priced from the catalog as read at load.
   */
  lemma CommitWritesPricedOrder(
    s: Stores, user: UserId, address: OrderAddress, lines: seq<Line>, priced: seq<PricedLine>, faults: Faults)
    requires Consistent(s)
    requires lines == LoadCart(s.cartItems, user, s.products) && PricedFrom(lines, priced)
    requires !faults.orderInsertFails && !faults.itemsInsertFails
    ensures var (r, t) := Commit(s, user, address, lines, priced, faults);
      var rows := UserRows(s.cartItems, user);
      var items := t.orderItems[|s.orderItems|..];
      && r.Ok?
      && r.orderId !in s.orders
      && t.orders == s.orders[r.orderId := Order(user, r.totalAmount, address, Pending)]
      && |s.orderItems| <= |t.orderItems| && t.orderItems[..|s.orderItems|] == s.orderItems
      && |items| == |rows|
      && (forall k :: 0 <= k < |rows| ==>
            rows[k].productId in s.products &&
            items[k] == OrderItem(r.orderId, rows[k].productId, rows[k].quantity, s.products[rows[k].productId].price))
      && r.totalAmount == ItemsTotal(t.orderItems, r.orderId)
  {
    var (r, t) := Commit(s, user, address, lines, priced, faults);
    var id := s.nextOrderId;
    var added := Attach(priced, id);
    assert r == Ok(id, OrderTotal(priced));
    assert t.orderItems == s.orderItems + added;
    assert t.orderItems[|s.orderItems|..] == added;
    assert t.orderItems[..|s.orderItems|] == s.orderItems;
    LoadCartJoined(s.cartItems, user, s.products);
    var rows := UserRows(s.cartItems, user);
    forall k | 0 <= k < |rows|
      ensures rows[k].productId in s.products
      ensures added[k] == OrderItem(id, rows[k].productId, rows[k].quantity, s.products[rows[k].productId].price)
    {
      assert lines[k].row == rows[k];
      assert LineOk(lines[k]) && priced[k] == Priced(lines[k]);
      assert lines[k].product == Lookup(s.products, rows[k].productId);
    }
    ItemsTotalAppend(s.orderItems, added, id);
    ItemsTotalAttach(priced, id, id);
    forall k | 0 <= k < |s.orderItems| ensures s.orderItems[k].orderId != id {
      assert s.orderItems[k].orderId in s.orders;
    }
    ItemsTotalAbsent(s.orderItems, id);
  }

  /**
   * A successful attempt writes one pending order whose total is
   * Σ quantity × price_at_purchase over its items, one item per cart row of
   * the caller, in the order the rows were read, each priced from the catalog as read at load.
   */
  lemma SuccessWritesPricedOrder(s: Stores, req: Request, verify: string -> Option<UserId>, faults: Faults)
    requires Consistent(s)
    requires CheckoutSpec(s, req, verify, faults).0.Ok?
    ensures var (r, t) := CheckoutSpec(s, req, verify, faults);
      var (user, address) := Guard(req, verify).value;
      var rows := UserRows(s.cartItems, user);
      var items := t.orderItems[|s.orderItems|..];
      && r.orderId !in s.orders
      && t.orders == s.orders[r.orderId := Order(user, r.totalAmount, address, Pending)]
      && |s.orderItems| <= |t.orderItems| && t.orderItems[..|s.orderItems|] == s.orderItems
      && |items| == |rows|
      && (forall k :: 0 <= k < |rows| ==>
            rows[k].productId in s.products &&
            items[k] == OrderItem(r.orderId, rows[k].productId, rows[k].quantity, s.products[rows[k].productId].price))
      && r.totalAmount == ItemsTotal(t.orderItems, r.orderId)
  {
    SucceedsExactlyWhen(s, req, verify, faults);
    ValidatedAttempt(s, req, verify, faults);
    var (user, address) := Guard(req, verify).value;
    var lines := LoadCart(s.cartItems, user, s.products);
    CommitWritesPricedOrder(s, user, address, lines, Validate(lines).value, faults);
  }

  /**
   * A failed items insert answers 500 and deletes the header just written:
   * no order of this attempt survives and neither products, items nor cart
   * change. If the delete itself fails, exactly the new pending header stays
   * behind, and every earlier order is unchanged.
   */
  lemma FailedItemsInsertCompensates(s: Stores, req: Request, verify: string -> Option<UserId>, faults: Faults)
    requires Consistent(s) && Validated(s, req, verify, faults)
    requires !faults.orderInsertFails && faults.itemsInsertFails
    ensures var (r, t) := CheckoutSpec(s, req, verify, faults);
      && r == Internal
      && t.products == s.products && t.cartItems == s.cartItems && t.orderItems == s.orderItems
      && (!faults.rollbackFails ==> t.orders == s.orders)
      && (faults.rollbackFails ==>
            && s.nextOrderId !in s.orders
            && var user := Guard(req, verify).value.0;
               var priced := Validate(LoadCart(s.cartItems, user, s.products)).value;
               t.orders == s.orders[s.nextOrderId := Header(user, OrderTotal(priced), Guard(req, verify).value.1)])
  {
    ValidatedAttempt(s, req, verify, faults);
    var (user, address) := Guard(req, verify).value;
    var lines := LoadCart(s.cartItems, user, s.products);
    assert s.nextOrderId !in s.orders;
    CommitCompensates(s, user, address, lines, Validate(lines).value, faults);
  }

  /** `FailedItemsInsertCompensates` for the commit of validated lines. */
  lemma CommitCompensates(
    s: Stores, user: UserId, address: OrderAddress, lines: seq<Line>, priced: seq<PricedLine>, faults: Faults)
    requires s.nextOrderId !in s.orders
    requires !faults.orderInsertFails && faults.itemsInsertFails
    ensures var (r, t) := Commit(s, user, address, lines, priced, faults);
      && r == Internal
      && t.products == s.products && t.cartItems == s.cartItems && t.orderItems == s.orderItems
      && (!faults.rollbackFails ==> t.orders == s.orders)
      && (faults.rollbackFails ==> t.orders == s.orders[s.nextOrderId := Header(user, OrderTotal(priced), address)])
  {
  }

  /**
   * Every response but success leaves products, cart, orders and items as
   * they were, except for a header orphaned by a failed rollback.
   */
  lemma OnlySuccessWrites(s: Stores, req: Request, verify: string -> Option<UserId>, faults: Faults)
    requires Consistent(s)
    requires !CheckoutSpec(s, req, verify, faults).0.Ok?
    requires !(faults.itemsInsertFails && faults.rollbackFails)
    ensures var t := CheckoutSpec(s, req, verify, faults).1;
      t.products == s.products && t.cartItems == s.cartItems && t.orders == s.orders && t.orderItems == s.orderItems
  {
    if Validated(s, req, verify, faults) {
      ValidatedAttempt(s, req, verify, faults);
      assert s.nextOrderId !in s.orders;
    } else {
      NotValidatedWritesNothing(s, req, verify, faults);
    }
  }

  /**
   * Each attempt keeps every order's total equal to the sum over its items,
   * unless a failed items insert is followed by a failed rollback.
   */
  lemma CheckoutKeepsMoneyInvariant(s: Stores, req: Request, verify: string -> Option<UserId>, faults: Faults)
    requires Consistent(s) && MoneyInvariant(s.orders, s.orderItems)
    requires !(faults.itemsInsertFails && faults.rollbackFails)
    ensures var t := CheckoutSpec(s, req, verify, faults).1;
      MoneyInvariant(t.orders, t.orderItems)
  {
    if CheckoutSpec(s, req, verify, faults).0.Ok? {
      SucceedsExactlyWhen(s, req, verify, faults);
      ValidatedAttempt(s, req, verify, faults);
      var (user, address) := Guard(req, verify).value;
      var lines := LoadCart(s.cartItems, user, s.products);
      var priced := Validate(lines).value;
      var id := s.nextOrderId;
      forall k | 0 <= k < |s.orderItems| ensures s.orderItems[k].orderId != id {
        assert s.orderItems[k].orderId in s.orders;
      }
      InsertKeepsMoneyInvariant(s.orders, s.orderItems, id, Header(user, OrderTotal(priced), address), priced);
    } else {
      OnlySuccessWrites(s, req, verify, faults);
    }
  }

  /**
   * After success, with at most one cart line per product, each ordered
   * product's stock is its stock at load minus the ordered quantity and not
   * negative (unless that write failed), and all other products are
   * unchanged.
   */
  lemma SuccessAdjustsStock(s: Stores, req: Request, verify: string -> Option<UserId>, faults: Faults)
    requires Consistent(s)
    requires CheckoutSpec(s, req, verify, faults).0.Ok?
    requires DistinctProducts(LoadCart(s.cartItems, Guard(req, verify).value.0, s.products))
    ensures StockAdjusted(s.products, CheckoutSpec(s, req, verify, faults).1.products,
                          LoadCart(s.cartItems, Guard(req, verify).value.0, s.products), faults.stockWriteFails)
  {
    var lines := LoadCart(s.cartItems, Guard(req, verify).value.0, s.products);
    var priced := SuccessRunsStockLoop(s, req, verify, faults);
    StockAfterExact(s.products, lines, priced, faults.stockWriteFails);
  }

  /** After success, the products are those the stock loop leaves over the validated lines. */
  lemma SuccessRunsStockLoop(s: Stores, req: Request, verify: string -> Option<UserId>, faults: Faults)
    returns (priced: seq<PricedLine>)
    requires CheckoutSpec(s, req, verify, faults).0.Ok?
    ensures var lines := LoadCart(s.cartItems, Guard(req, verify).value.0, s.products);
      && JoinedFrom(lines, s.products) && PricedFrom(lines, priced)
      && CheckoutSpec(s, req, verify, faults).1.products == StockAfter(s.products, lines, priced, faults.stockWriteFails)
  {
    SucceedsExactlyWhen(s, req, verify, faults);
    ValidatedAttempt(s, req, verify, faults);
    var (user, address) := Guard(req, verify).value;
    var lines := LoadCart(s.cartItems, user, s.products);
    priced := Validate(lines).value;
    CommitRunsStockLoop(s, user, address, lines, priced, faults);
    LoadCartJoined(s.cartItems, user, s.products);
  }

  /** Once both inserts succeed, the commit leaves the products the stock loop produces. */
  lemma CommitRunsStockLoop(
    s: Stores, user: UserId, address: OrderAddress, lines: seq<Line>, priced: seq<PricedLine>, faults: Faults)
    requires !faults.orderInsertFails && !faults.itemsInsertFails
    ensures Commit(s, user, address, lines, priced, faults).1.products == StockAfter(s.products, lines, priced, faults.stockWriteFails)
  {
  }

  /** When both inserts go through, the commit answers with the fresh id and the total, and appends the order's items. */
  lemma CommitPlacesOrder(
    s: Stores, user: UserId, address: OrderAddress, lines: seq<Line>, priced: seq<PricedLine>, faults: Faults)
    requires !faults.orderInsertFails && !faults.itemsInsertFails
    ensures Commit(s, user, address, lines, priced, faults).0 == Ok(s.nextOrderId, OrderTotal(priced))
    ensures Commit(s, user, address, lines, priced, faults).1.orderItems == s.orderItems + Attach(priced, s.nextOrderId)
  {
  }

  /** No attempt drives a stock negative. */
  lemma StockStaysNonNegative(s: Stores, req: Request, verify: string -> Option<UserId>, faults: Faults)
    requires forall pid :: pid in s.products ==> s.products[pid].stock >= 0
    ensures var t := CheckoutSpec(s, req, verify, faults).1;
      forall pid :: pid in t.products ==> t.products[pid].stock >= 0
  {
    if Validated(s, req, verify, faults) {
      ValidatedAttempt(s, req, verify, faults);
      var lines := LoadCart(s.cartItems, Guard(req, verify).value.0, s.products);
      StockAfterFrame(s.products, lines, Validate(lines).value, faults.stockWriteFails);
    } else {
      NotValidatedWritesNothing(s, req, verify, faults);
    }
  }

  /**
   * A successful attempt removes every cart row of the caller and keeps every
   * row of the other users, unless the clear fails, which still answers
   * success and leaves the cart as it was.
   */
  lemma SuccessClearsCart(s: Stores, req: Request, verify: string -> Option<UserId>, faults: Faults)
    requires CheckoutSpec(s, req, verify, faults).0.Ok?
    ensures var t := CheckoutSpec(s, req, verify, faults).1;
      var user := Guard(req, verify).value.0;
      && (faults.cartClearFails ==> t.cartItems == s.cartItems)
      && (!faults.cartClearFails ==>
            && (forall row :: row in t.cartItems ==> row.userId != user)
            && (forall row :: row in s.cartItems && row.userId != user ==> row in t.cartItems)
            && t.cartItems == Seqs.Filter((row: CartRow) => row.userId != user, s.cartItems))
  {
    SucceedsExactlyWhen(s, req, verify, faults);
    ValidatedAttempt(s, req, verify, faults);
  }

  // ---------------------------------------------------------------------------
  // The handler, step by step
  // ---------------------------------------------------------------------------

  /**
   * The validation loop: checks each loaded line in turn, accumulating the
   * total from catalog prices and the data of the order items.
   */
  method ValidateLines(lines: seq<Line>) returns (r: Result<seq<PricedLine>, Response>, totalAmount: Cents)
    ensures r == Validate(lines)
    ensures r.Success? ==> totalAmount == OrderTotal(r.value)
  {
    totalAmount := 0;
    var orderItemsData: seq<PricedLine> := [];
    for i := 0 to |lines|
      invariant Validate(lines[..i]) == Success(orderItemsData)
      invariant totalAmount == OrderTotal(orderItemsData)
    {
      var line := lines[i];
      assert lines[..i + 1][..i] == lines[..i];
      if line.product.None? {
        assert Validate(lines[..i + 1]) == Failure(ProductNotFound);
        ValidateFailureSticks(lines, i + 1);
        return Failure(ProductNotFound), totalAmount;
      }
      var product := line.product.value;
      if product.stock < line.row.quantity {
        assert Validate(lines[..i + 1]) == Failure(InsufficientStock(product.title, product.stock));
        ValidateFailureSticks(lines, i + 1);
        return Failure(InsufficientStock(product.title, product.stock)), totalAmount;
      }
      ghost var before := orderItemsData;
      totalAmount := totalAmount + product.price * line.row.quantity;
      orderItemsData := orderItemsData + [PricedLine(product.id, line.row.quantity, product.price)];
      assert Validate(lines[..i + 1]) == Success(orderItemsData);
      assert orderItemsData[..|orderItemsData| - 1] == before;
    }
    assert lines[..|lines|] == lines;
    r := Success(orderItemsData);
  }

  /** The database the handler talks to, one field per table. */
  class Store {
    var products: map<ProductId, Product>
    var cartItems: seq<CartRow>
    var orders: map<OrderId, Order>
    var orderItems: seq<OrderItem>
    var nextOrderId: OrderId

    function Snapshot(): Stores
      reads this
    {
      Stores(products, cartItems, orders, orderItems, nextOrderId)
    }

    ghost predicate Valid()
      reads this
    {
      Consistent(Snapshot())
    }

    /** A store holding a catalog and some cart rows, and no orders yet. */
    constructor (products: map<ProductId, Product>, cartItems: seq<CartRow>)
      requires KeyedById(products)
      ensures Valid()
      ensures Snapshot() == Stores(products, cartItems, map[], [], 0)
    {
      this.products := products;
      this.cartItems := cartItems;
      this.orders := map[];
      this.orderItems := [];
      this.nextOrderId := 0;
    }

    /** The stock loop: one update per order item, from the stock read at load time. */
    method UpdateStock(lines: seq<Line>, priced: seq<PricedLine>, fails: set<ProductId>)
      modifies this`products
      ensures products == StockAfter(old(products), lines, priced, fails)
    {
      for i := 0 to |priced|
        invariant products == StockAfter(old(products), lines, priced[..i], fails)
      {
        var item := priced[i];
        assert priced[..i + 1][..i] == priced[..i];
        var cartItem := FirstLineFor(lines, item.productId);
        if cartItem.Some? && cartItem.value.product.Some? {
          var newStock := FloorAtZero(cartItem.value.product.value.stock - item.quantity);
          if item.productId !in fails && item.productId in products {
            products := products[item.productId := products[item.productId].(stock := newStock)];
          }
        }
      }
      assert priced[..|priced|] == priced;
    }

    /** The writes after validation; `totalAmount` is the accumulated total. */
    method Place(user: UserId, address: OrderAddress, lines: seq<Line>, priced: seq<PricedLine>,
                 totalAmount: Cents, faults: Faults) returns (r: Response)
      requires totalAmount == OrderTotal(priced)
      modifies this
      ensures (r, Snapshot()) == Commit(old(Snapshot()), user, address, lines, priced, faults)
    {
      // Create the order header.
      if faults.orderInsertFails {
        return Internal;
      }
      var orderId := nextOrderId;
      orders := orders[orderId := Header(user, totalAmount, address)];
      nextOrderId := nextOrderId + 1;

      // Create the order items, deleting the header when that fails.
      if faults.itemsInsertFails {
        if !faults.rollbackFails {
          orders := orders - {orderId};
        }
        return Internal;
      }
      orderItems := orderItems + Attach(priced, orderId);

      // Update product stock; a failed update goes unnoticed.
      UpdateStock(lines, priced, faults.stockWriteFails);

      // Clear the cart; a failure here is ignored.
      if !faults.cartClearFails {
        cartItems := ClearUser(cartItems, user);
      }
      r := Ok(orderId, totalAmount);
    }

    /** Runs one checkout attempt for `req`; the outcome is `CheckoutSpec` of the stores before it. */
    method Checkout(req: Request, verify: string -> Option<UserId>, faults: Faults) returns (r: Response)
      requires Valid()
      modifies this
      ensures Valid()
      ensures (r, Snapshot()) == CheckoutSpec(old(Snapshot()), req, verify, faults)
    {
      ghost var s := Snapshot();
      CheckoutKeepsConsistency(s, req, verify, faults);
      if req.httpMethod == "OPTIONS" {
        return Preflight;
      }
      var guard := Guard(req, verify);
      if guard.Failure? {
        return guard.error;
      }
      var (user, address) := guard.value;
      if faults.cartReadFails {
        return Internal;
      }
      var lines := LoadCart(cartItems, user, products);
      if |lines| == 0 {
        return EmptyCart;
      }
      var validated, totalAmount := ValidateLines(lines);
      if validated.Failure? {
        return validated.error;
      }
      assert Validated(s, req, verify, faults);
      ValidatedAttempt(s, req, verify, faults);
      r := Place(user, address, lines, validated.value, totalAmount, faults);
    }
  }
}
