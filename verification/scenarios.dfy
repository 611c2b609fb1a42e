/** Worked examples proved from the start-up store. */
module Scenarios {
  import opened Entities
  import opened Catalog
  import opened Lines
  import opened Store

  /** Adding one keyboard (product 2) to cart 1 prices the cart at 150.00; checking
      it out creates order 1 for 150.00, leaves 24 keyboards and empties the cart. */
  lemma KeyboardScenario(date: string)
    ensures var r1 := ManageCart(Init(), 1, CartItem(2, 1));
            && r1.result == Ok(Cart(1, [CartItem(2, 1)], 15000))
            && var r2 := Checkout(r1.next, 1, date);
               && r2.result == Ok(Order(1, [CartItem(2, 1)], 15000, date, Completed))
               && r2.next.products[1].stock == 24
               && r2.next.carts == [Cart(1, [], 0)]
  {
    var s0 := Init();
    assert FindCart(s0.carts, 1) == Some(0);
    assert FindProduct(s0.products, 2) == Some(1);
    assert !HasLine([], 2);
    assert Merge([], CartItem(2, 1)) == [CartItem(2, 1)];
    var r1 := ManageCart(s0, 1, CartItem(2, 1));
    assert CartTotal(s0.products, [CartItem(2, 1)]) == Some(15000);
    assert r1.next.carts == [Cart(1, [CartItem(2, 1)], 15000)];
    var r2 := Checkout(r1.next, 1, date);
    assert FindCart(r1.next.carts, 1) == Some(0);
  }

  /** Asking for 11 laptops when 10 are in stock fails and changes nothing. */
  lemma InsufficientStockScenario()
    ensures ManageCart(Init(), 1, CartItem(1, 11)) == Step(Init(), Err(InsufficientStock("Laptop Gamer")))
  {
    assert FindCart(Init().carts, 1) == Some(0);
    assert FindProduct(Init().products, 1) == Some(0);
  }

  /** Checking out the empty start-up cart fails and creates no order. */
  lemma EmptyCheckoutScenario(date: string)
    ensures Checkout(Init(), 1, date) == Step(Init(), Err(EmptyCart))
  {
    assert FindCart(Init().carts, 1) == Some(0);
  }

  /** The start-up store after cart 1 received `lines` priced at `total`. */
  function WithCart(lines: seq<CartItem>, total: Cents): State {
    Init().(carts := [Cart(1, lines, total)])
  }

  lemma FirstLaptopAdd()
    ensures ManageCart(Init(), 1, CartItem(1, 10))
            == Step(WithCart([CartItem(1, 10)], 1200000), Ok(Cart(1, [CartItem(1, 10)], 1200000)))
  {
    var s0 := Init();
    assert FindCart(s0.carts, 1) == Some(0);
    assert FindProduct(s0.products, 1) == Some(0);
    assert !HasLine([], 1);
    assert Merge([], CartItem(1, 10)) == [CartItem(1, 10)];
    assert CartTotal(s0.products, [CartItem(1, 10)]) == Some(1200000);
  }

  lemma SecondLaptopAdd()
    ensures ManageCart(WithCart([CartItem(1, 10)], 1200000), 1, CartItem(1, 10))
            == Step(WithCart([CartItem(1, 20)], 2400000), Ok(Cart(1, [CartItem(1, 20)], 2400000)))
  {
    var s1 := WithCart([CartItem(1, 10)], 1200000);
    assert FindCart(s1.carts, 1) == Some(0);
    assert FindProduct(s1.products, 1) == Some(0);
    assert [CartItem(1, 10)][0].productId == 1;
    assert HasLine([CartItem(1, 10)], 1);
    assert Merge([CartItem(1, 10)], CartItem(1, 10)) == [CartItem(1, 20)];
    assert CartTotal(s1.products, [CartItem(1, 20)]) == Some(2400000);
  }

  lemma OverdrawCheckout(date: string)
    ensures var r := Checkout(WithCart([CartItem(1, 20)], 2400000), 1, date);
            r.result.Ok? && r.next.products[0].stock == -10
  {
    var s2 := WithCart([CartItem(1, 20)], 2400000);
    assert FindCart(s2.carts, 1) == Some(0);
    assert Qty([CartItem(1, 20)], 1) == 20;
  }

  /** Stock is checked only against the quantity being added: two adds of 10
      laptops each pass the check against a stock of 10, and checkout then
      leaves the laptop's stock at -10. */
  lemma OverdrawScenario(date: string)
    ensures var r1 := ManageCart(Init(), 1, CartItem(1, 10));
            var r2 := ManageCart(r1.next, 1, CartItem(1, 10));
            var r3 := Checkout(r2.next, 1, date);
            && r1.result.Ok? && r2.result.Ok? && r3.result.Ok?
            && r2.result.value.items == [CartItem(1, 20)]
            && r3.next.products[0].stock == -10
  {
    FirstLaptopAdd();
    SecondLaptopAdd();
    OverdrawCheckout(date);
  }

  /** Adding a product whose id is already in the catalogue fails and changes nothing. */
  lemma DuplicateProductScenario(p: Product)
    requires p.id == 3
    ensures AddProduct(Init(), p) == Step(Init(), Err(DuplicateProduct(3)))
  {
    assert Init().products[2].id == 3;
  }
}
