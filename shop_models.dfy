/**
 * The records of the storefront's two tables: `products` and `cart_items`,
 * and the 32-bit integer arithmetic the cart service performs on quantities.
 */
module ShopModels {

  const Int32Min: int := -0x8000_0000
  const Int32Max: int := 0x7fff_ffff

  /** The values of a C# `int`. */
  type Int32 = x: int | -0x8000_0000 <= x <= 0x7fff_ffff

  /**
   * C#'s unchecked `int` addition: the exact result reduced into the 32-bit
   * two's-complement range.
   */
  function WrapInt32(x: int): (r: Int32)
    ensures Int32Min <= x <= Int32Max ==> r == x
    ensures Int32Max < x <= 2 * Int32Max ==> r == x - 0x1_0000_0000
  {
    (x - Int32Min) % 0x1_0000_0000 + Int32Min
  }

  /** A row of the `products` table; `price` is a C# `decimal`, which is exact. */
  datatype Product = Product(id: int, name: string, price: real, description: string)

  /** The `products` table, keyed by the primary key `id` of each row. */
  type Catalogue = c: map<int, Product> | forall id :: id in c ==> c[id].id == id
    witness map[]

  /**
   * A row of the `cart_items` table. The store assigns `id` and the service
   * stamps `createdAt`; both come from counters in this model.
   */
  datatype CartItem = CartItem(id: int, userId: string, productId: int, quantity: Int32, createdAt: int)
}
