/**
 * The catalogue's product record as the customer client sees it: the fields
 * read from the database plus the quantity the customer has ordered.
 */
module Catalogue {
  import opened JavaLang

  /**
   * A product, or a trolley line when `orderedQty` counts the units wanted.
   * `unitPrice` stands for the Java `double`; the model only copies it.
   */
  datatype Product = Product(
    id: string,
    description: string,
    imageName: string,
    unitPrice: real,
    stock: Int32,
    orderedQty: Int32)

}
