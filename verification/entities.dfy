/** The store's entities: catalogue products, cart lines, carts and orders.
    Money is held in integer cents, so the source's two-decimal rounding of a
    total is the identity here. */
module Entities {

  /** An amount of money in cents. */
  type Cents = int

  /** A catalogue entry. The id is chosen by the caller, not generated. */
  datatype Product = Product(id: int, name: string, price: Cents, stock: int)

  /** One line of a cart: a product id and a requested quantity (not checked to be positive). */
  datatype CartItem = CartItem(productId: int, quantity: int)

  /** A shopping cart: its lines in insertion order and the cached total of those lines. */
  datatype Cart = Cart(id: int, items: seq<CartItem>, total: Cents)

  /** A placed order. Its lines are the cart's lines as they were; no price is copied into them. */
  datatype Order = Order(id: int, items: seq<CartItem>, total: Cents, date: string, status: string)

  /** The result of a first-match search over a list, as Python's `next(..., None)` gives it. */
  datatype Option<T> = None | Some(value: T)
}
