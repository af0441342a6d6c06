/**
 * The client-side cart: the reducer over `{items, isOpen}` with its eight
 * actions, and the totals the cart context derives from the items (number
 * of units, subtotal, 8% tax, total). Lines are keyed by product id; prices
 * are integer cents, and tax and total are exact reals.
 */
module CartContext {
  import Seqs
  import Types

  /** The product fields a cart line copies. */
  datatype Product = Product(id: int, title: string, price: Types.Cents, category: string, description: string)

  /** A cart line: a copy of the product and a quantity. */
  datatype CartItem = CartItem(product: Product, quantity: int)

  datatype CartState = CartState(items: seq<CartItem>, isOpen: bool)

  datatype CartAction =
    | AddToCart(product: Product)
    | RemoveFromCart(id: int)
    | UpdateQuantity(id: int, quantity: int)
    | ClearCart
    | ToggleCart
    | OpenCart
    | CloseCart
    | LoadCart(items: seq<CartItem>)

  /** 8% tax. */
  const TaxRate: real := 0.08

  // ---------------------------------------------------------------------------
  // The reducer
  // ---------------------------------------------------------------------------

  /** Some line has product id `id`. */
  predicate HasId(items: seq<CartItem>, id: int)
  {
    exists item :: item in items && item.product.id == id
  }

  /** `items.map(...)`: every line with product id `id` gets quantity `q(old quantity)`. */
  function Requantify(items: seq<CartItem>, id: int, q: int -> int): seq<CartItem>
  {
    seq(|items|, k requires 0 <= k < |items| =>
      if items[k].product.id == id then items[k].(quantity := q(items[k].quantity)) else items[k])
  }

  /** The filter callback `item => item.id !== id`. */
  function OtherId(id: int): CartItem -> bool
  {
    (item: CartItem) => item.product.id != id
  }

  /** `items.filter(item => item.id !== id)`. */
  function WithoutId(items: seq<CartItem>, id: int): seq<CartItem>
  {
    Seqs.Filter(OtherId(id), items)
  }

  /** `cartReducer`: the next cart state after `action`. */
  function Reduce(state: CartState, action: CartAction): CartState
  {
    match action
    case AddToCart(product) =>
      if HasId(state.items, product.id) then
        state.(items := Requantify(state.items, product.id, q => q + 1))
      else
        state.(items := state.items + [CartItem(product, 1)])
    case RemoveFromCart(id) =>
      state.(items := WithoutId(state.items, id))
    case UpdateQuantity(id, quantity) =>
      if quantity <= 0 then state.(items := WithoutId(state.items, id))
      else state.(items := Requantify(state.items, id, _ => quantity))
    case ClearCart => state.(items := [])
    case ToggleCart => state.(isOpen := !state.isOpen)
    case OpenCart => state.(isOpen := true)
    case CloseCart => state.(isOpen := false)
    case LoadCart(items) => state.(items := items)
  }

  /** At most one line per product id. */
  predicate UniqueIds(items: seq<CartItem>)
  {
    forall i, j :: 0 <= i < j < |items| ==> items[i].product.id != items[j].product.id
  }

  /** Every line has a quantity of at least one. */
  predicate QuantitiesPositive(items: seq<CartItem>)
  {
    forall item :: item in items ==> item.quantity >= 1
  }

  /**
   * Adding a product already in the cart raises the quantity of its line(s)
   * by one and keeps the length; otherwise one line of quantity 1 is
   * appended. `isOpen` is untouched.
   */
  lemma AddToCartEffect(state: CartState, product: Product)
    ensures var after := Reduce(state, AddToCart(product));
      && after.isOpen == state.isOpen
      && (HasId(state.items, product.id) ==>
            && |after.items| == |state.items|
            && forall k :: 0 <= k < |state.items| ==>
                 after.items[k].product == state.items[k].product &&
                 after.items[k].quantity == state.items[k].quantity + if state.items[k].product.id == product.id then 1 else 0)
      && (!HasId(state.items, product.id) ==> after.items == state.items + [CartItem(product, 1)])
  {
  }

  /** With one line per id, adding an id that is present raises exactly that line by one. */
  lemma AddToCartExisting(state: CartState, product: Product, k: nat)
    requires UniqueIds(state.items) && k < |state.items| && state.items[k].product.id == product.id
    ensures Reduce(state, AddToCart(product)).items ==
      state.items[k := state.items[k].(quantity := state.items[k].quantity + 1)]
  {
    assert HasId(state.items, product.id) by {
      assert state.items[k] in state.items;
    }
  }

  /** A cart with one line per id: its tail has one line per id, none with the head's id. */
  lemma UniqueIdsTail(items: seq<CartItem>)
    requires UniqueIds(items) && items != []
    ensures UniqueIds(items[1..]) && !HasId(items[1..], items[0].product.id)
  {
    var rest := items[1..];
    forall i, j | 0 <= i < j < |rest| ensures rest[i].product.id != rest[j].product.id {
      assert rest[i] == items[i + 1] && rest[j] == items[j + 1];
    }
    forall item | item in rest ensures item.product.id != items[0].product.id {
      var j :| 0 <= j < |rest| && rest[j] == item;
      assert items[j + 1] == item;
    }
  }

  /** Putting a line in front of a cart without its id keeps one line per id. */
  lemma UniqueIdsCons(item: CartItem, items: seq<CartItem>)
    requires UniqueIds(items) && !HasId(items, item.product.id)
    ensures UniqueIds([item] + items)
  {
    var r := [item] + items;
    forall i, j | 0 <= i < j < |r| ensures r[i].product.id != r[j].product.id {
      assert r[j] == items[j - 1];
      if i == 0 {
        assert items[j - 1] in items;
      } else {
        assert r[i] == items[i - 1];
      }
    }
  }

  /** Filtering a cart with one line per id keeps one line per id. */
  lemma {:induction false} WithoutIdKeepsUnique(items: seq<CartItem>, id: int)
    requires UniqueIds(items)
    ensures UniqueIds(WithoutId(items, id))
  {
    if items != [] {
      var rest := items[1..];
      UniqueIdsTail(items);
      WithoutIdKeepsUnique(rest, id);
      var tail := WithoutId(rest, id);
      if items[0].product.id != id {
        assert WithoutId(items, id) == [items[0]] + tail;
        UniqueIdsCons(items[0], tail);
      } else {
        assert WithoutId(items, id) == tail;
      }
    }
  }

  /** Filtering out an id no line has changes nothing. */
  lemma WithoutAbsentId(items: seq<CartItem>, id: int)
    requires !HasId(items, id)
    ensures WithoutId(items, id) == items
  {
    Seqs.FilterKeepsAll(OtherId(id), items);
  }

  /** With one line per id, no line before or after line `k` shares its id. */
  lemma UniqueIdsAround(items: seq<CartItem>, k: nat)
    requires UniqueIds(items) && k < |items|
    ensures !HasId(items[..k], items[k].product.id) && !HasId(items[k + 1..], items[k].product.id)
  {
    forall item | item in items[..k] ensures item.product.id != items[k].product.id {
      var j :| 0 <= j < k && items[..k][j] == item;
    }
    forall item | item in items[k + 1..] ensures item.product.id != items[k].product.id {
      var j :| 0 <= j < |items| - k - 1 && items[k + 1..][j] == item;
      assert items[k + 1 + j] == item;
    }
  }

  /**
   * Removing an id keeps exactly the lines with another id; removing an
   * absent id changes nothing; with one line per id, removing a present id
   * drops exactly its line and keeps the others in order.
   */
  lemma RemoveFromCartEffect(state: CartState, id: int)
    ensures var after := Reduce(state, RemoveFromCart(id));
      && after.isOpen == state.isOpen
      && (forall item :: item in after.items <==> item in state.items && item.product.id != id)
      && (!HasId(state.items, id) ==> after.items == state.items)
      && (UniqueIds(state.items) ==>
            forall k :: 0 <= k < |state.items| && state.items[k].product.id == id ==>
              after.items == state.items[..k] + state.items[k + 1..])
  {
    if !HasId(state.items, id) {
      WithoutAbsentId(state.items, id);
    }
    if UniqueIds(state.items) {
      forall k | 0 <= k < |state.items| && state.items[k].product.id == id
        ensures WithoutId(state.items, id) == state.items[..k] + state.items[k + 1..]
      {
        DropUniqueLine(state.items, id, k);
      }
    }
  }

  /** With one line per id, filtering out the id of line `k` is cutting out line `k`. */
  lemma DropUniqueLine(items: seq<CartItem>, id: int, k: nat)
    requires UniqueIds(items) && k < |items| && items[k].product.id == id
    ensures WithoutId(items, id) == items[..k] + items[k + 1..]
  {
    var f := OtherId(id);
    var before, after := items[..k], items[k + 1..];
    assert items == before + [items[k]] + after;
    UniqueIdsAround(items, k);
    calc {
      WithoutId(items, id);
      Seqs.Filter(f, before + [items[k]] + after);
      { Seqs.FilterAppend(f, before + [items[k]], after); }
      Seqs.Filter(f, before + [items[k]]) + Seqs.Filter(f, after);
      { Seqs.FilterAppend(f, before, [items[k]]); }
      Seqs.Filter(f, before) + Seqs.Filter(f, [items[k]]) + Seqs.Filter(f, after);
      { WithoutAbsentId(before, id); WithoutAbsentId(after, id); }
      before + Seqs.Filter(f, [items[k]]) + after;
      { assert !f(items[k]); }
      before + after;
    }
  }

  /**
   * A quantity of zero or less removes the line(s) of that id; a positive
   * quantity sets the quantity of the line(s) of that id and leaves every
   * other line as it was.
   */
  lemma UpdateQuantityEffect(state: CartState, id: int, quantity: int)
    ensures var after := Reduce(state, UpdateQuantity(id, quantity));
      && after.isOpen == state.isOpen
      && (quantity <= 0 ==> after == Reduce(state, RemoveFromCart(id)))
      && (quantity > 0 ==>
            && |after.items| == |state.items|
            && forall k :: 0 <= k < |state.items| ==>
                 after.items[k] == if state.items[k].product.id == id then state.items[k].(quantity := quantity)
                                   else state.items[k])
  {
  }

  /** Clearing empties the items and loading replaces them; neither touches `isOpen`. */
  lemma ClearAndLoadEffect(state: CartState, items: seq<CartItem>)
    ensures Reduce(state, ClearCart) == CartState([], state.isOpen)
    ensures Reduce(state, LoadCart(items)) == CartState(items, state.isOpen)
  {
  }

  /** Toggle, open and close change only `isOpen`; toggling twice changes nothing. */
  lemma VisibilityEffect(state: CartState)
    ensures Reduce(state, ToggleCart) == state.(isOpen := !state.isOpen)
    ensures Reduce(state, OpenCart).items == state.items && Reduce(state, OpenCart).isOpen
    ensures Reduce(state, CloseCart).items == state.items && !Reduce(state, CloseCart).isOpen
    ensures Reduce(Reduce(state, ToggleCart), ToggleCart) == state
  {
  }

  /** Every action but `LoadCart` keeps quantities at one or more. */
  lemma ReduceKeepsQuantitiesPositive(state: CartState, action: CartAction)
    requires QuantitiesPositive(state.items) && !action.LoadCart?
    ensures QuantitiesPositive(Reduce(state, action).items)
  {
    match action
    case AddToCart(product) =>
      if HasId(state.items, product.id) {
        var items := Reduce(state, action).items;
        forall item | item in items ensures item.quantity >= 1 {
          var k :| 0 <= k < |items| && items[k] == item;
          assert state.items[k] in state.items;
        }
      }
    case UpdateQuantity(id, quantity) =>
      if quantity > 0 {
        var items := Reduce(state, action).items;
        forall item | item in items ensures item.quantity >= 1 {
          var k :| 0 <= k < |items| && items[k] == item;
          assert state.items[k] in state.items;
        }
      }
    case _ =>
  }

  /** Every action but `LoadCart` keeps at most one line per product id. */
  lemma ReduceKeepsIdsUnique(state: CartState, action: CartAction)
    requires UniqueIds(state.items) && !action.LoadCart?
    ensures UniqueIds(Reduce(state, action).items)
  {
    match action
    case AddToCart(product) =>
      if !HasId(state.items, product.id) {
        var items := Reduce(state, action).items;
        forall i, j | 0 <= i < j < |items| ensures items[i].product.id != items[j].product.id {
          if j == |items| - 1 {
            assert state.items[i] in state.items;
          }
        }
      }
    case RemoveFromCart(id) =>
      WithoutIdKeepsUnique(state.items, id);
    case UpdateQuantity(id, quantity) =>
      if quantity <= 0 {
        WithoutIdKeepsUnique(state.items, id);
      }
    case _ =>
  }

  // ---------------------------------------------------------------------------
  // Derived totals
  // ---------------------------------------------------------------------------

  /** `items.reduce((sum, item) => sum + f(item), 0)`. */
  function Sum(f: CartItem -> int, items: seq<CartItem>): int
  {
    if items == [] then 0 else Sum(f, items[..|items| - 1]) + f(items[|items| - 1])
  }

  function LineQuantity(item: CartItem): int
  {
    item.quantity
  }

  function LineAmount(item: CartItem): Types.Cents
  {
    item.product.price * item.quantity
  }

  /** `totalItems`: the number of units in the cart. */
  function TotalItems(items: seq<CartItem>): int
  {
    Sum(LineQuantity, items)
  }

  /** `subtotal`: Σ price × quantity. */
  function Subtotal(items: seq<CartItem>): Types.Cents
  {
    Sum(LineAmount, items)
  }

  /** `tax`: the subtotal times the tax rate. */
  function Tax(items: seq<CartItem>): real
  {
    Subtotal(items) as real * TaxRate
  }

  /** `total`: subtotal plus tax. */
  function Total(items: seq<CartItem>): real
  {
    Subtotal(items) as real + Tax(items)
  }

  lemma {:induction false} SumAppend(f: CartItem -> int, a: seq<CartItem>, b: seq<CartItem>)
    ensures Sum(f, a + b) == Sum(f, a) + Sum(f, b)
    decreases |b|
  {
    if b == [] {
      assert a + b == a;
    } else {
      assert (a + b)[..|a + b| - 1] == a + b[..|b| - 1];
      SumAppend(f, a, b[..|b| - 1]);
    }
  }

  /** Replacing one line changes the sum by the difference of the two lines. */
  lemma SumReplace(f: CartItem -> int, items: seq<CartItem>, k: nat, item: CartItem)
    requires k < |items|
    ensures Sum(f, items[k := item]) == Sum(f, items) - f(items[k]) + f(item)
  {
    assert items == items[..k] + [items[k]] + items[k + 1..];
    assert items[k := item] == items[..k] + [item] + items[k + 1..];
    SumAppend(f, items[..k] + [items[k]], items[k + 1..]);
    SumAppend(f, items[..k], [items[k]]);
    SumAppend(f, items[..k] + [item], items[k + 1..]);
    SumAppend(f, items[..k], [item]);
  }

  /** The sum does not depend on the order of the lines. */
  lemma {:induction false} SumPermutation(f: CartItem -> int, a: seq<CartItem>, b: seq<CartItem>)
    requires multiset(a) == multiset(b)
    ensures Sum(f, a) == Sum(f, b)
    decreases |a|
  {
    if a != [] {
      var last := a[|a| - 1];
      var init := a[..|a| - 1];
      assert a == init + [last];
      assert last in multiset(b);
      var i :| 0 <= i < |b| && b[i] == last;
      var rest := b[..i] + b[i + 1..];
      assert b == b[..i] + [last] + b[i + 1..];
      assert multiset(a) == multiset(init) + multiset{last};
      assert multiset(b) == multiset(b[..i]) + multiset{last} + multiset(b[i + 1..]);
      assert multiset(rest) == multiset(b[..i]) + multiset(b[i + 1..]);
      assert multiset(init) == multiset(a) - multiset{last};
      assert multiset(rest) == multiset(b) - multiset{last};
      SumPermutation(f, init, rest);
      SumAppend(f, b[..i] + [last], b[i + 1..]);
      SumAppend(f, b[..i], [last]);
      SumAppend(f, b[..i], b[i + 1..]);
    } else {
      assert b == [];
    }
  }

  /** Permuting the lines changes none of the totals. */
  lemma TotalsIgnoreOrder(a: seq<CartItem>, b: seq<CartItem>)
    requires multiset(a) == multiset(b)
    ensures TotalItems(a) == TotalItems(b) && Subtotal(a) == Subtotal(b)
    ensures Tax(a) == Tax(b) && Total(a) == Total(b)
  {
    SumPermutation(LineQuantity, a, b);
    SumPermutation(LineAmount, a, b);
  }

  /** Tax is 8% of the subtotal and the total 108% of it. */
  lemma TaxAndTotal(items: seq<CartItem>)
    ensures Tax(items) == Subtotal(items) as real * 8.0 / 100.0
    ensures Total(items) == Subtotal(items) as real * 108.0 / 100.0
  {
  }

  /** With one line per id, adding a product already on line `k` adds one unit at that line's price. */
  lemma AddExistingTotals(state: CartState, product: Product, k: nat)
    requires UniqueIds(state.items) && k < |state.items| && state.items[k].product.id == product.id
    ensures var after := Reduce(state, AddToCart(product)).items;
      && TotalItems(after) == TotalItems(state.items) + 1
      && Subtotal(after) == Subtotal(state.items) + state.items[k].product.price
  {
    var line := state.items[k];
    var bumped := line.(quantity := line.quantity + 1);
    AddToCartExisting(state, product, k);
    SumReplace(LineQuantity, state.items, k, bumped);
    SumReplace(LineAmount, state.items, k, bumped);
  }

  /**
   * With one line per id, adding a product adds one unit, and adds to the
   * subtotal the price of the line already in the cart, or the product's
   * price when it is new.
   */
  lemma AddToCartTotals(state: CartState, product: Product)
    requires UniqueIds(state.items)
    ensures var after := Reduce(state, AddToCart(product)).items;
      && TotalItems(after) == TotalItems(state.items) + 1
      && (!HasId(state.items, product.id) ==> Subtotal(after) == Subtotal(state.items) + product.price)
      && (forall k :: 0 <= k < |state.items| && state.items[k].product.id == product.id ==>
            Subtotal(after) == Subtotal(state.items) + state.items[k].product.price)
  {
    if HasId(state.items, product.id) {
      var k :| 0 <= k < |state.items| && state.items[k].product.id == product.id;
      AddExistingTotals(state, product, k);
      forall k' | 0 <= k' < |state.items| && state.items[k'].product.id == product.id
        ensures Subtotal(Reduce(state, AddToCart(product)).items) == Subtotal(state.items) + state.items[k'].product.price
      {
        AddExistingTotals(state, product, k');
      }
    } else {
      SumAppend(LineQuantity, state.items, [CartItem(product, 1)]);
      SumAppend(LineAmount, state.items, [CartItem(product, 1)]);
    }
  }

  /** With one line per id, removing a present id takes away exactly that line's units and amount. */
  lemma RemoveFromCartTotals(state: CartState, k: nat)
    requires UniqueIds(state.items) && k < |state.items|
    ensures var after := Reduce(state, RemoveFromCart(state.items[k].product.id)).items;
      && TotalItems(after) == TotalItems(state.items) - state.items[k].quantity
      && Subtotal(after) == Subtotal(state.items) - state.items[k].product.price * state.items[k].quantity
  {
    var items := state.items;
    DropUniqueLine(items, items[k].product.id, k);
    assert items == items[..k] + [items[k]] + items[k + 1..];
    SumAppend(LineQuantity, items[..k] + [items[k]], items[k + 1..]);
    SumAppend(LineQuantity, items[..k], [items[k]]);
    SumAppend(LineQuantity, items[..k], items[k + 1..]);
    SumAppend(LineAmount, items[..k] + [items[k]], items[k + 1..]);
    SumAppend(LineAmount, items[..k], [items[k]]);
    SumAppend(LineAmount, items[..k], items[k + 1..]);
  }
}
