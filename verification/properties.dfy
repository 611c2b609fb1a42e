/** Properties of the store operations that relate several calls or several
    definitions: the invariant every operation keeps, the cart total after an
    add, the balance between an order and the stock it consumed, and the
    failure of a repeated checkout. */
module Properties {
  import opened Entities
  import opened Catalog
  import opened Lines
  import opened Stock
  import opened Store

  /** The catalogue's stock at its prices: the sum of price times stock. */
  function StockValue(ps: seq<Product>): int {
    if |ps| == 0 then 0 else ps[0].price * ps[0].stock + StockValue(ps[1..])
  }

  /** A store operation, as a client would issue it. */
  datatype Op =
    | AddProductOp(product: Product)
    | AddToCartOp(cartId: int, item: CartItem)
    | CheckoutOp(cartId: int, date: string)

  function Apply(s: State, op: Op): State {
    match op
    case AddProductOp(p) => AddProduct(s, p).next
    case AddToCartOp(c, item) => ManageCart(s, c, item).next
    case CheckoutOp(c, date) => Checkout(s, c, date).next
  }

  /** The store after a sequence of operations, failed ones included. */
  function Run(s: State, ops: seq<Op>): State
    decreases |ops|
  {
    if |ops| == 0 then s else Run(Apply(s, ops[0]), ops[1..])
  }

  /** In a valid store every cart line names a product, so adding to a cart
      never hits the unpriced-line error. */
  lemma ManageCartNeverUnpriced(s: State, cartId: int, item: CartItem)
    requires Valid(s)
    ensures ManageCart(s, cartId, item).result != Err(UnpricedLine)
  {
    var r := ManageCart(s, cartId, item);
    if r.result == Err(UnpricedLine) {
      var ci := FindCart(s.carts, cartId).value;
      assert CartCoherent(s.products, s.carts[ci]);
      MergeStaysPriced(s.products, s.carts[ci].items, item);
    }
  }

  /** In a valid store, adding to a cart succeeds once the cart exists, the
      product exists and its stock covers the added quantity. */
  lemma ManageCartSucceeds(s: State, cartId: int, item: CartItem)
    requires Valid(s)
    requires HasCart(s.carts, cartId) && HasProduct(s.products, item.productId)
    requires s.products[FindProduct(s.products, item.productId).value].stock >= item.quantity
    ensures ManageCart(s, cartId, item).result.Ok?
  {
    ManageCartNeverUnpriced(s, cartId, item);
  }

  /** In a valid store, a successful add raises the cart's total by the
      product's current price times the added quantity, and the new total is
      the catalogue valuation of the new lines. */
  lemma ManageCartTotal(s: State, cartId: int, item: CartItem)
    requires Valid(s)
    requires ManageCart(s, cartId, item).result.Ok?
    ensures var c := ManageCart(s, cartId, item).result.value;
            var ci := FindCart(s.carts, cartId).value;
            var pi := FindProduct(s.products, item.productId).value;
            && c.total == s.carts[ci].total + s.products[pi].price * item.quantity
            && c.total == Valuation(s.products, c.items)
  {
    var ci := FindCart(s.carts, cartId).value;
    var pi := FindProduct(s.products, item.productId).value;
    var lines := s.carts[ci].items;
    assert CartCoherent(s.products, s.carts[ci]);
    MergeAddsItemValue(s.products, lines, item, pi);
    MergeStaysPriced(s.products, lines, item);
    TotalIsValuation(s.products, Merge(lines, item));
  }

  lemma AddProductPreservesValid(s: State, p: Product)
    requires Valid(s)
    ensures Valid(AddProduct(s, p).next)
  {
    var r := AddProduct(s, p);
    if r.result.Ok? {
      forall k | 0 <= k < |s.carts| ensures CartCoherent(s.products + [p], s.carts[k]) {
        assert CartCoherent(s.products, s.carts[k]);
        CartTotalAppend(s.products, p, s.carts[k].items);
      }
    }
  }

  lemma ManageCartPreservesValid(s: State, cartId: int, item: CartItem)
    requires Valid(s)
    ensures Valid(ManageCart(s, cartId, item).next)
  {
    var r := ManageCart(s, cartId, item);
    ManageCartNeverUnpriced(s, cartId, item);
    if r.result.Ok? {
      var ci := FindCart(s.carts, cartId).value;
      assert CartCoherent(s.products, s.carts[ci]);
      MergeKeepsLinesDistinct(s.carts[ci].items, item);
      assert CartCoherent(s.products, r.next.carts[ci]);
    }
  }

  lemma CheckoutPreservesValid(s: State, cartId: int, date: string)
    requires Valid(s)
    ensures Valid(Checkout(s, cartId, date).next)
  {
    var r := Checkout(s, cartId, date);
    if r.result.Ok? {
      var ps' := r.next.products;
      assert DistinctIds(ps') by {
        assert SameListing(s.products, ps');
      }
      forall k | 0 <= k < |r.next.carts| ensures CartCoherent(ps', r.next.carts[k]) {
        CartTotalSameListing(s.products, ps', r.next.carts[k].items);
        if r.next.carts[k] != Cart(cartId, [], 0) {
          assert r.next.carts[k] == s.carts[k];
          assert CartCoherent(s.products, s.carts[k]);
        }
      }
    }
  }

  /** Every store reachable from start-up by any sequence of operations is valid. */
  lemma {:induction false} RunPreservesValid(s: State, ops: seq<Op>)
    requires Valid(s)
    ensures Valid(Run(s, ops))
    decreases |ops|
  {
    if |ops| > 0 {
      match ops[0] {
        case AddProductOp(p) => AddProductPreservesValid(s, p);
        case AddToCartOp(c, item) => ManageCartPreservesValid(s, c, item);
        case CheckoutOp(c, date) => CheckoutPreservesValid(s, c, date);
      }
      RunPreservesValid(Apply(s, ops[0]), ops[1..]);
    }
  }

  lemma ReachableStoresAreValid(ops: seq<Op>)
    ensures Valid(Run(Init(), ops))
    ensures DistinctIds(Run(Init(), ops).products)
  {
    RunPreservesValid(Init(), ops);
  }

  /** Checking out the same cart again right after a successful checkout fails
      with EmptyCart and changes nothing: no empty order is created. */
  lemma SecondCheckoutFails(s: State, cartId: int, d1: string, d2: string)
    requires Checkout(s, cartId, d1).result.Ok?
    ensures var s1 := Checkout(s, cartId, d1).next;
            Checkout(s1, cartId, d2) == Step(s1, Err(EmptyCart))
  {
    var ci := FindCart(s.carts, cartId).value;
    var s1 := Checkout(s, cartId, d1).next;
    assert s1.carts[ci] == Cart(cartId, [], 0);
    assert forall k :: 0 <= k < ci ==> s1.carts[k] == s.carts[k];
    assert HasCart(s1.carts, cartId);
  }

  /** In a valid store checkout takes from each product exactly the quantity the cart requested of it. */
  lemma CheckoutStockConservation(s: State, cartId: int, date: string)
    requires Valid(s)
    ensures var r := Checkout(s, cartId, date);
            r.result.Ok? ==>
              && SameListing(s.products, r.next.products)
              && forall j :: 0 <= j < |s.products| ==>
                   r.next.products[j].stock == s.products[j].stock - Qty(r.result.value.items, s.products[j].id)
  {
    if Checkout(s, cartId, date).result.Ok? {
      var ci := FindCart(s.carts, cartId).value;
      DistinctStockConservation(s.products, s.carts[ci].items);
    }
  }

  lemma {:induction false} StockValueDrop(ps: seq<Product>, qs: seq<Product>, lines: seq<CartItem>)
    requires SameListing(ps, qs)
    requires forall j :: 0 <= j < |ps| ==> qs[j].stock == ps[j].stock - Qty(lines, ps[j].id)
    ensures StockValue(ps) - StockValue(qs) == Valuation(ps, lines)
    decreases |ps|
  {
    if |ps| > 0 {
      var p, q := ps[0], qs[0];
      assert p.price * p.stock - q.price * q.stock == p.price * Qty(lines, p.id) by {
        assert q.price == p.price && q.stock == p.stock - Qty(lines, p.id);
      }
      assert SameListing(ps[1..], qs[1..]);
      StockValueDrop(ps[1..], qs[1..], lines);
    }
  }

  /** In a valid store an order's total equals the value, at current prices,
      of the stock its checkout removed from the catalogue. */
  lemma CheckoutValueBalance(s: State, cartId: int, date: string)
    requires Valid(s)
    ensures var r := Checkout(s, cartId, date);
            r.result.Ok? ==> StockValue(s.products) - StockValue(r.next.products) == r.result.value.total
  {
    var r := Checkout(s, cartId, date);
    if r.result.Ok? {
      var ci := FindCart(s.carts, cartId).value;
      var lines := s.carts[ci].items;
      assert CartCoherent(s.products, s.carts[ci]);
      CheckoutStockConservation(s, cartId, date);
      StockValueDrop(s.products, r.next.products, lines);
      TotalIsValuation(s.products, lines);
    }
  }

  /** What listing the products shows across operations: a new product at the
      end after a successful add, the same list after an add to a cart, and
      the same ids, names and prices after a checkout. */
  lemma ListingAcrossOperations(s: State, p: Product, cartId: int, item: CartItem, date: string)
    ensures AddProduct(s, p).result.Ok? ==> ListProducts(AddProduct(s, p).next) == ListProducts(s) + [p]
    ensures AddProduct(s, p).result.Err? ==> ListProducts(AddProduct(s, p).next) == ListProducts(s)
    ensures ListProducts(ManageCart(s, cartId, item).next) == ListProducts(s)
    ensures SameListing(ListProducts(s), ListProducts(Checkout(s, cartId, date).next))
  {
  }
}
