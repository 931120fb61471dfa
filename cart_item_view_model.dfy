/** One line of the cart page: a cart row joined with its product. */
module CartItemViewModels {
  import opened ShopModels

  /** A cart line carries no total of its own: TotalPrice is computed each time it is read. */
  datatype CartItemViewModel = CartItemViewModel(id: int, product: Product, quantity: Int32)

  /**
   * The line total: the product's price times the quantity, in exact decimal
   * arithmetic. It is zero exactly for a free product or a zero quantity, and
   * for a positive quantity it has the sign of the price.
   */
  function TotalPrice(line: CartItemViewModel): (total: real)
    ensures total == 0.0 <==> line.product.price == 0.0 || line.quantity == 0
    ensures line.quantity > 0 ==> (total > 0.0 <==> line.product.price > 0.0)
  {
    line.product.price * line.quantity as real
  }

  /** A non-negative price and a positive quantity give a non-negative total. */
  lemma TotalPriceNonNegative(line: CartItemViewModel)
    requires line.product.price >= 0.0 && line.quantity > 0
    ensures TotalPrice(line) >= 0.0
  {
  }
}
