/** A catalog entry. Entries are never changed once created, so a product is a value. */
module ProductModel {
  datatype Product = Product(category: string, name: string, price: real)
}
