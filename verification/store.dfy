/** The in-memory store and its three state-changing operations: adding a
    product, adding an item to a cart, and checking a cart out into an order.
    Each operation maps a store to a Step: the store afterwards together with
    what the call returned or the error it raised. */
module Store {
  import opened Entities
  import opened Catalog
  import opened Lines
  import opened Stock

  datatype State = State(products: seq<Product>, carts: seq<Cart>, orders: seq<Order>)

  /** The errors the operations raise. All but UnpricedLine are the source's
      ValueError cases; UnpricedLine is the StopIteration that pricing a cart
      raises when one of its lines names no product. */
  datatype Error =
    | DuplicateProduct(id: int)
    | CartNotFound
    | ProductNotFound
    | InsufficientStock(name: string)
    | EmptyCart
    | UnpricedLine

  datatype Result<T> = Ok(value: T) | Err(error: Error)

  /** An operation's outcome: the store after the call, and its result. */
  datatype Step<T> = Step(next: State, result: Result<T>)

  /** Status every new order gets. */
  const Completed: string := "Completado"

  predicate HasCart(cs: seq<Cart>, id: int) {
    exists k :: 0 <= k < |cs| && cs[k].id == id
  }

  /** Index of the first cart with id `id`, or None. */
  function FindCart(cs: seq<Cart>, id: int): (r: Option<nat>)
    ensures r.None? <==> !HasCart(cs, id)
    ensures r.Some? ==> r.value < |cs| && cs[r.value].id == id
    ensures r.Some? ==> forall k :: 0 <= k < r.value ==> cs[k].id != id
  {
    if |cs| == 0 then None
    else if cs[0].id == id then Some(0)
    else
      match FindCart(cs[1..], id)
      case None =>
        assert forall k :: 1 <= k < |cs| ==> cs[k] == cs[1..][k - 1];
        None
      case Some(k) =>
        assert forall m :: 1 <= m <= k ==> cs[m] == cs[1..][m - 1];
        Some(k + 1)
  }

  /** A cart is coherent with a catalogue when it has one line per product and
      its cached total is the total of its lines at current prices. */
  predicate CartCoherent(ps: seq<Product>, c: Cart) {
    DistinctLines(c.items) && CartTotal(ps, c.items) == Some(c.total)
  }

  /** The store invariant every operation keeps: product ids are unique, every
      cart is coherent with the catalogue, and order ids count up from 1. */
  predicate Valid(s: State) {
    && DistinctIds(s.products)
    && (forall k :: 0 <= k < |s.carts| ==> CartCoherent(s.products, s.carts[k]))
    && (forall i :: 0 <= i < |s.orders| ==> s.orders[i].id == i + 1)
  }

  /** The store at start-up: three products, one empty cart with id 1, no orders. */
  function Init(): (s: State)
    ensures Valid(s)
    ensures |s.products| == 3 && HasCart(s.carts, 1) && s.orders == []
  {
    var s := State(
      [ Product(1, "Laptop Gamer", 120000, 10),
        Product(2, "Teclado Mecánico", 15000, 25),
        Product(3, "Mouse Óptico", 4550, 50) ],
      [Cart(1, [], 0)],
      []);
    assert s.carts[0].id == 1;
    s
  }

  /** The current product list, in insertion order. In a valid store it shows each id once. */
  function ListProducts(s: State): (r: seq<Product>)
    ensures Valid(s) ==> DistinctIds(r)
  {
    s.products
  }

  /** Adds a product unless one with the same id exists. */
  function AddProduct(s: State, p: Product): (r: Step<Product>)
    ensures r.result.Err? <==> HasProduct(s.products, p.id)
    ensures r.result.Err? ==> r == Step(s, Err(DuplicateProduct(p.id)))
    ensures r.result.Ok? ==> r.result.value == p && r.next == s.(products := s.products + [p])
    ensures DistinctIds(s.products) ==> DistinctIds(r.next.products)
  {
    match FindProduct(s.products, p.id)
    case Some(_) => Step(s, Err(DuplicateProduct(p.id)))
    case None => Step(s.(products := s.products + [p]), Ok(p))
  }

  /** Adds an item to a cart. Checks, in order: the cart exists, the product
      exists, and the product's stock covers the quantity being added (not the
      quantity the cart will then hold). The merged lines are stored before the
      total is recomputed, so a line naming no product leaves the new lines
      with the old total. */
  function ManageCart(s: State, cartId: int, item: CartItem): (r: Step<Cart>)
    ensures !HasCart(s.carts, cartId) ==> r == Step(s, Err(CartNotFound))
    ensures HasCart(s.carts, cartId) && !HasProduct(s.products, item.productId)
            ==> r == Step(s, Err(ProductNotFound))
    ensures HasCart(s.carts, cartId) && HasProduct(s.products, item.productId) ==>
              var p := s.products[FindProduct(s.products, item.productId).value];
              (p.stock < item.quantity <==> r == Step(s, Err(InsufficientStock(p.name))))
    ensures HasCart(s.carts, cartId) && HasProduct(s.products, item.productId)
            && s.products[FindProduct(s.products, item.productId).value].stock >= item.quantity
            ==> r.result.Ok? || r.result == Err(UnpricedLine)
    ensures HasCart(s.carts, cartId) && HasProduct(s.products, item.productId)
            && s.products[FindProduct(s.products, item.productId).value].stock >= item.quantity
            ==> (r.result.Ok? <==> AllPriced(s.products, Merge(s.carts[FindCart(s.carts, cartId).value].items, item)))
    ensures r.result.Ok? || r.result == Err(UnpricedLine) ==>
              && FindCart(s.carts, cartId).Some?
              && var ci := FindCart(s.carts, cartId).value;
                 && |r.next.carts| == |s.carts|
                 && r.next == s.(carts := s.carts[ci := r.next.carts[ci]])
                 && r.next.carts[ci].id == cartId
                 && r.next.carts[ci].items == Merge(s.carts[ci].items, item)
                 && (r.result.Ok? ==> r.result.value == r.next.carts[ci])
                 && (r.result.Ok? ==> CartTotal(s.products, r.next.carts[ci].items) == Some(r.next.carts[ci].total))
                 && (r.result == Err(UnpricedLine) ==> r.next.carts[ci].total == s.carts[ci].total)
  {
    match FindCart(s.carts, cartId)
    case None => Step(s, Err(CartNotFound))
    case Some(ci) =>
      match FindProduct(s.products, item.productId)
      case None => Step(s, Err(ProductNotFound))
      case Some(pi) =>
        var p := s.products[pi];
        if p.stock < item.quantity then Step(s, Err(InsufficientStock(p.name)))
        else
          var cart := s.carts[ci];
          var lines := Merge(cart.items, item);
          match CartTotal(s.products, lines)
          case None => Step(s.(carts := s.carts[ci := cart.(items := lines)]), Err(UnpricedLine))
          case Some(total) =>
            var updated := Cart(cart.id, lines, total);
            Step(s.(carts := s.carts[ci := updated]), Ok(updated))
  }

  /** Turns a cart into an order. Fails when the cart is missing or has no
      lines. Otherwise the lines are deducted from stock (without checking that
      stock suffices), an order numbered one past the current count is appended
      carrying the cart's lines and cached total, and the cart is emptied. */
  function Checkout(s: State, cartId: int, date: string): (r: Step<Order>)
    ensures !HasCart(s.carts, cartId) ==> r == Step(s, Err(CartNotFound))
    ensures HasCart(s.carts, cartId) && s.carts[FindCart(s.carts, cartId).value].items == []
            ==> r == Step(s, Err(EmptyCart))
    ensures HasCart(s.carts, cartId) && s.carts[FindCart(s.carts, cartId).value].items != []
            ==> r.result.Ok?
    ensures r.result.Ok? ==>
              && FindCart(s.carts, cartId).Some?
              && var ci := FindCart(s.carts, cartId).value;
                 var cart := s.carts[ci];
                 && cart.items != []
                 && r.result.value == Order(|s.orders| + 1, cart.items, cart.total, date, Completed)
                 && r.next.orders == s.orders + [r.result.value]
                 && r.next.carts == s.carts[ci := Cart(cartId, [], 0)]
                 && SameListing(s.products, r.next.products)
                 && forall j :: 0 <= j < |s.products| ==>
                      r.next.products[j].stock == s.products[j].stock - Consumed(s.products, cart.items, j)
  {
    match FindCart(s.carts, cartId)
    case None => Step(s, Err(CartNotFound))
    case Some(ci) =>
      var cart := s.carts[ci];
      if |cart.items| == 0 then Step(s, Err(EmptyCart))
      else
        StockConservation(s.products, cart.items);
        var order := Order(|s.orders| + 1, cart.items, cart.total, date, Completed);
        var next := State(Deduct(s.products, cart.items), s.carts[ci := Cart(cart.id, [], 0)], s.orders + [order]);
        Step(next, Ok(order))
  }
}
