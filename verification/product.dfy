/** The catalogue record shared by both stores. */
module ProductTypes {

  /** One catalogue item. Only `id` (the key both stores look lines up by)
      and `price` (which feeds the cart total) take part in the logic; the
      other fields are carried along unchanged. `price` is an integer
      amount (for instance cents): JavaScript's floating-point `number` is
      not modelled. */
  datatype Product = Product(
    id: int,
    productName: string,
    description: string,
    category: string,
    price: int,
    stock: int,
    manufacturer: string,
    sku: int,
    image: string,
    thumbnail: string
  )
}
