/**
 * The two database operations the customer client calls, as oracles. A call
 * either answers or throws an `SQLException`; what the database does inside
 * the call is not part of this model.
 */
module Storage {
  import opened Wrappers
  import opened Catalogue

  datatype DbReply<+T> = Answer(value: T) | SqlError

  /** `DatabaseRW.searchByProductId`: the product with that id, or null. */
  type SearchByProductId = string -> DbReply<Option<Product>>

  /**
   * `DatabaseRW.purchaseStocks`: given the grouped trolley, the lines whose
   * stock could not cover the ordered quantity (empty when the purchase went
   * through).
   */
  type PurchaseStocks = seq<Product> -> DbReply<seq<Product>>

}
