/** Values shared by the storefront components. None of them is changed by the
    components modelled here: the catalog, the cart holder and the auth holder
    hand them over as read-only inputs. */
module Shop {

  /** A value that may be missing: JavaScript's `null` / `undefined`. */
  datatype Option<+T> = None | Some(value: T)

  /** A catalog entry (identifier, name, price, image reference). */
  datatype Product = Product(id: int, name: string, price: real, image: string)

  /** One line of the cart as the cart holder exposes it. */
  datatype CartItem = CartItem(product: Product, quantity: nat)

  /** The signed-in user; the navbar only reads the display name. */
  datatype User = User(name: string)
}
