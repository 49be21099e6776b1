/**
 * The relational store behind the DAOs, as plain values: the `products`,
 * `transactions` and `transaction_items` tables in row order, plus the next
 * AUTO_INCREMENT keys of the two sale tables.
 */
module Store {
  import opened Wrappers
  import opened JavaTypes
  import opened Products
  import opened Items

  /**
   * A row of `transactions`. `date` is filled in by the database when the row
   * is inserted; the column is nullable, so a row may carry none.
   */
  datatype SaleRow = SaleRow(
    id: int,
    userId: int,
    date: Option<DateTime>,
    subtotal: real,
    discountPercent: real,
    discountAmount: real,
    total: real,
    payment: real,
    changeAmount: real)

  /**
   * The three tables. A `transaction_items` row has exactly the columns of a
   * cart line, so it is an `Item`.
   */
  datatype Db = Db(
    products: seq<Product>,
    sales: seq<SaleRow>,
    saleItems: seq<Item>,
    nextSaleId: int,
    nextItemId: int)

  /** `id` is the primary key of `products`. */
  predicate UniqueIds(ps: seq<Product>) {
    forall i, j :: 0 <= i < j < |ps| ==> ps[i].id != ps[j].id
  }

  /**
   * What the schema guarantees: generated keys lie below the next key, item
   * rows only refer to issued sale ids, and the INT columns hold Java `int`s.
   */
  predicate WellFormed(db: Db) {
    && (forall i :: 0 <= i < |db.sales| ==> db.sales[i].id < db.nextSaleId)
    && (forall i :: 0 <= i < |db.saleItems| ==> db.saleItems[i].transactionId < db.nextSaleId)
    && (forall i :: 0 <= i < |db.saleItems| ==> IsInt(db.saleItems[i].quantity))
  }
}
