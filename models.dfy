/**
 * The rows of the store's tables, as the handlers and serializers use them.
 * Primary keys are natural numbers; a cart's opaque UUID token is modelled as
 * a natural number too. Prices are integer cents instead of decimals.
 */
module Models {

  type ProductId = nat
  type CollectionId = nat
  type CartId = nat

  /** A catalog product: it belongs to exactly one collection. */
  datatype Product = Product(title: string, price: int, collection: CollectionId)

  datatype Collection = Collection(title: string)

  /** A line of a placed order; it references the product it sold. */
  datatype OrderItem = OrderItem(product: ProductId, quantity: int)

  /** A row of the cart-items table: `(id, cart, product, quantity)`. */
  datatype CartItem = CartItem(id: nat, cart: CartId, product: ProductId, quantity: int)

  /** A review row: the product it is about and its writable fields by name. */
  datatype Review = Review(id: nat, product: ProductId, fields: map<string, string>)
}
