/** The product record shared by the catalogue, the cart and the listing. */
module Catalog {

  /**
   * A grocery product as the bundled catalogue holds it. Prices, which
   * the catalogue writes with two decimals, are kept in cents; ratings
   * are whole numbers.
   */
  datatype Product = Product(id: int, title: string, price: int, rating: int)
}
