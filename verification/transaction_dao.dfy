/**
 * Committing and reloading sales (`dao/TransactionDAO.java`: `save`,
 * `findById`, `findItemsByTransactionId`, `mapResultSetToTransaction`) over
 * the abstract store.
 */
module TransactionDao {
  import opened Wrappers
  import opened JavaTypes
  import opened Products
  import opened Items
  import opened Transactions
  import opened Store

  /**
   * How a `save` attempt ends inside the database: normally, with the header
   * insert affecting no row, or with an `SQLException` thrown either before
   * or after the generated key was copied into the transaction.
   */
  datatype Fault = NoFault | HeaderRejected | SqlError(keyAssigned: bool)

  /** The store afterwards, the caller's transaction afterwards (its id may be set), and the verdict. */
  datatype SaveResult = SaveResult(db: Db, transaction: Transaction, saved: bool)

  /** The `transactions` row for t: every amount copied verbatim. */
  function HeaderRow(t: Transaction, id: int, now: DateTime): (row: SaleRow)
    ensures row.id == id && row.userId == t.userId && row.date == Some(now)
    ensures row.subtotal == t.subtotal && row.discountPercent == t.discountPercent
    ensures row.discountAmount == t.discountAmount && row.total == t.total
    ensures row.payment == t.payment && row.changeAmount == t.changeAmount
  {
    SaleRow(id, t.userId, Some(now), t.subtotal, t.discountPercent, t.discountAmount, t.total, t.payment, t.changeAmount)
  }

  /** The batch of `transaction_items` rows: one per line, in line order, under the sale id. */
  function ItemRows(items: seq<Item>, saleId: int, firstId: int): (rows: seq<Item>)
    ensures |rows| == |items|
    ensures forall i :: 0 <= i < |items| ==>
      rows[i] == items[i].(id := firstId + i, transactionId := saleId)
  {
    seq(|items|, i requires 0 <= i < |items| => items[i].(id := firstId + i, transactionId := saleId))
  }

  /** Total quantity the lines take of one product. */
  function QuantityOf(items: seq<Item>, productId: int): int {
    if |items| == 0 then 0
    else (if items[0].productId == productId then items[0].quantity else 0) + QuantityOf(items[1..], productId)
  }

  /** One unguarded `stock = stock - q WHERE id = ?` per line. */
  function DecrementStock(ps: seq<Product>, items: seq<Item>): (r: seq<Product>)
    ensures |r| == |ps|
    ensures forall i :: 0 <= i < |ps| ==> r[i] == ps[i].(stock := ps[i].stock - QuantityOf(items, ps[i].id))
    decreases |items|
  {
    if |items| == 0 then ps
    else
      var it := items[0];
      var once := seq(|ps|, i requires 0 <= i < |ps| =>
        if ps[i].id == it.productId then ps[i].(stock := ps[i].stock - it.quantity) else ps[i]);
      DecrementStock(once, items[1..])
  }

  /**
   * `save`: on success one header row under the next key, one item row per
   * line under that key, and every line's quantity taken off its product's
   * stock with no lower bound; the transaction gets the generated id. On any
   * failure the unit of work is rolled back and the store is untouched. No
   * check is made for an empty cart or an insufficient payment.
   */
  function Save(db: Db, t: Transaction, fault: Fault, now: DateTime): (r: SaveResult)
    ensures r.saved <==> fault == NoFault
    ensures !r.saved ==> r.db == db
    ensures r.transaction == if r.saved || fault == SqlError(true) then t.(id := db.nextSaleId) else t
    ensures r.saved ==>
      && r.db.sales == db.sales + [HeaderRow(t, db.nextSaleId, now)]
      && r.db.saleItems == db.saleItems + ItemRows(t.items, db.nextSaleId, db.nextItemId)
      && |r.db.products| == |db.products|
      && (forall i :: 0 <= i < |db.products| ==>
            r.db.products[i] == db.products[i].(stock := db.products[i].stock - QuantityOf(t.items, db.products[i].id)))
      && r.db.nextSaleId == db.nextSaleId + 1
  {
    match fault
    case HeaderRejected => SaveResult(db, t, false)
    case SqlError(keyAssigned) =>
      SaveResult(db, if keyAssigned then t.(id := db.nextSaleId) else t, false)
    case NoFault =>
      var id := db.nextSaleId;
      var db' := Db(
        DecrementStock(db.products, t.items),
        db.sales + [HeaderRow(t, id, now)],
        db.saleItems + ItemRows(t.items, id, db.nextItemId),
        id + 1,
        db.nextItemId + |t.items|);
      SaveResult(db', t.(id := id), true)
  }

  // ---------------------------------------------------------------- reading back

  /**
   * One `transaction_items` row through `new TransactionItem()` and the
   * setters in source order; because `setSubtotal` comes last, the stored
   * subtotal survives verbatim and the loaded line equals the row.
   */
  function LoadItem(row: Item): (it: Item)
    requires IsInt(row.quantity)
    ensures it == row
  {
    var blank := DefaultItem().(id := row.id, transactionId := row.transactionId,
                                productId := row.productId, productName := row.productName);
    Items.SetSubtotal(Items.SetPrice(Items.SetQuantity(blank, row.quantity), row.price), row.subtotal)
  }

  /** `findItemsByTransactionId`: the rows of one sale, in table order. */
  function FindItemsByTransactionId(rows: seq<Item>, saleId: int): (items: seq<Item>)
    requires forall i :: 0 <= i < |rows| ==> IsInt(rows[i].quantity)
    ensures |items| <= |rows|
    ensures forall i :: 0 <= i < |items| ==> items[i].transactionId == saleId
  {
    if |rows| == 0 then []
    else
      (if rows[0].transactionId == saleId then [LoadItem(rows[0])] else [])
      + FindItemsByTransactionId(rows[1..], saleId)
  }

  /**
   * `mapResultSetToTransaction`: the setters in source order. `setDiscountPercent`
   * re-totals the still empty line list after `setSubtotal`, so the loaded
   * subtotal is 0; the later setters restore discount, total, payment and
   * change from the row. A row without a date keeps the time the
   * constructor took, `now`.
   */
  function MapRow(row: SaleRow, now: DateTime): (t: Transaction)
    ensures t.items == [] && t.subtotal == 0.0
    ensures t.id == row.id && t.userId == row.userId
    ensures t.date == if row.date.Some? then row.date.value else now
    ensures t.discountPercent == row.discountPercent && t.discountAmount == row.discountAmount
    ensures t.total == row.total && t.payment == row.payment && t.changeAmount == row.changeAmount
  {
    var t := NewTransaction(now).(id := row.id, userId := row.userId);
    var t := if row.date.Some? then t.(date := row.date.value) else t;
    var t := t.(subtotal := row.subtotal);
    var t := SetDiscountPercent(t, row.discountPercent);
    var t := t.(discountAmount := row.discountAmount);
    var t := t.(total := row.total);
    var t := SetPayment(t, row.payment);
    t.(changeAmount := row.changeAmount)
  }

  /** The first header row with the given id. */
  function FindSale(sales: seq<SaleRow>, id: int): (r: Option<SaleRow>)
    ensures r.None? <==> forall i :: 0 <= i < |sales| ==> sales[i].id != id
    ensures r.Some? ==> r.value in sales && r.value.id == id
  {
    if |sales| == 0 then None
    else if sales[0].id == id then Some(sales[0])
    else
      var rest := FindSale(sales[1..], id);
      assert rest.None? ==> forall i :: 1 <= i < |sales| ==> sales[i].id != id by {
        if rest.None? {
          forall i | 1 <= i < |sales| ensures sales[i].id != id {
            assert sales[i] == sales[1..][i - 1];
          }
        }
      }
      rest
  }

  /**
   * `findById`: no transaction for an unknown id; otherwise the mapped header
   * with its lines installed through `setItems`, which re-derives subtotal,
   * discount and total (and the change, when a payment is recorded).
   */
  function FindById(db: Db, id: int, now: DateTime): (r: Option<Transaction>)
    requires IntQuantities(db.saleItems)
    ensures r.None? <==> forall i :: 0 <= i < |db.sales| ==> db.sales[i].id != id
    ensures r.Some? ==> r.value.id == id && Totalled(r.value)
    ensures r.Some? ==> r.value.items == FindItemsByTransactionId(db.saleItems, id)
    ensures r.Some? ==>
      var row := FindSale(db.sales, id).value;
      && row in db.sales && row.id == id
      && r.value.userId == row.userId
      && r.value.date == (if row.date.Some? then row.date.value else now)
      && r.value.discountPercent == row.discountPercent
      && r.value.payment == row.payment
      && (row.payment <= 0.0 ==> r.value.changeAmount == row.changeAmount)
  {
    match FindSale(db.sales, id)
    case None => None
    case Some(row) => Some(SetItems(MapRow(row, now), FindItemsByTransactionId(db.saleItems, id)))
  }

  // ---------------------------------------------------------------- properties of save

  /** Every line of the cart is a Java `int` quantity, as the `TransactionItem` field guarantees. */
  predicate IntQuantities(items: seq<Item>) {
    forall i :: 0 <= i < |items| ==> IsInt(items[i].quantity)
  }

  /** A successful save keeps the store well formed. */
  lemma SavePreservesWellFormed(db: Db, t: Transaction, fault: Fault, now: DateTime)
    requires WellFormed(db) && IntQuantities(t.items)
    ensures WellFormed(Save(db, t, fault, now).db)
  {
    var r := Save(db, t, fault, now);
    if r.saved {
      var rows := ItemRows(t.items, db.nextSaleId, db.nextItemId);
      forall i | 0 <= i < |r.db.saleItems|
        ensures r.db.saleItems[i].transactionId < r.db.nextSaleId
        ensures IsInt(r.db.saleItems[i].quantity)
      {
        if i >= |db.saleItems| {
          assert r.db.saleItems[i] == rows[i - |db.saleItems|];
        }
      }
    }
  }

  /**
   * The stock update has no floor: selling more than is on hand drives the
   * product's stock negative, and the sale is still committed.
   */
  lemma SaveCanDriveStockNegative(p: Product, line: Item, t: Transaction, db: Db, now: DateTime)
    requires db.products == [p] && t.items == [line]
    requires line.productId == p.id && line.quantity > p.stock
    ensures Save(db, t, NoFault, now).saved
    ensures Save(db, t, NoFault, now).db.products[0].stock < 0
  {
    assert QuantityOf(t.items, p.id) == line.quantity by {
      assert t.items[1..] == [];
    }
  }

  /** An empty cart is saved like any other: a header row, no item rows, no stock change. */
  lemma SaveEmptyCart(db: Db, t: Transaction, now: DateTime)
    requires t.items == []
    ensures var r := Save(db, t, NoFault, now);
      && r.saved
      && |r.db.sales| == |db.sales| + 1
      && r.db.saleItems == db.saleItems
      && r.db.products == db.products
  {
    var r := Save(db, t, NoFault, now);
    assert r.db.saleItems == db.saleItems + [];
  }

  /** The lookup ignores rows of other sales appended behind the wanted ones, and vice versa. */
  lemma {:induction false} FindItemsConcat(a: seq<Item>, b: seq<Item>, saleId: int)
    requires IntQuantities(a) && IntQuantities(b)
    ensures IntQuantities(a + b)
    ensures FindItemsByTransactionId(a + b, saleId)
         == FindItemsByTransactionId(a, saleId) + FindItemsByTransactionId(b, saleId)
  {
    assert IntQuantities(a + b) by {
      forall i | 0 <= i < |a + b|
        ensures IsInt((a + b)[i].quantity)
      {
        if i < |a| {
          assert (a + b)[i] == a[i];
        } else {
          assert (a + b)[i] == b[i - |a|];
        }
      }
    }
    if |a| == 0 {
      assert a + b == b;
    } else {
      var rest := a[1..];
      assert (a + b)[0] == a[0];
      assert (a + b)[1..] == rest + b;
      assert IntQuantities(rest);
      FindItemsConcat(rest, b, saleId);
    }
  }

  /** The lookup returns exactly the rows that carry the sale id. */
  lemma {:induction false} FindItemsMembership(rows: seq<Item>, saleId: int)
    requires IntQuantities(rows)
    ensures forall it :: it in FindItemsByTransactionId(rows, saleId) <==> it in rows && it.transactionId == saleId
  {
    if |rows| > 0 {
      FindItemsMembership(rows[1..], saleId);
      assert rows == [rows[0]] + rows[1..];
    }
  }

  /** No row of a sale that was never issued is found. */
  lemma {:induction false} FindItemsNone(rows: seq<Item>, saleId: int)
    requires IntQuantities(rows)
    requires forall i :: 0 <= i < |rows| ==> rows[i].transactionId < saleId
    ensures FindItemsByTransactionId(rows, saleId) == []
  {
    if |rows| > 0 {
      FindItemsNone(rows[1..], saleId);
    }
  }

  /** Rows that all belong to the sale are found verbatim and in order. */
  lemma {:induction false} FindItemsAll(rows: seq<Item>, saleId: int)
    requires IntQuantities(rows)
    requires forall i :: 0 <= i < |rows| ==> rows[i].transactionId == saleId
    ensures FindItemsByTransactionId(rows, saleId) == rows
  {
    if |rows| > 0 {
      FindItemsAll(rows[1..], saleId);
    }
  }

  /** The header appended last is the one found when every earlier id is smaller. */
  lemma {:induction false} FindSaleAppended(sales: seq<SaleRow>, row: SaleRow)
    requires forall i :: 0 <= i < |sales| ==> sales[i].id < row.id
    ensures FindSale(sales + [row], row.id) == Some(row)
  {
    if |sales| == 0 {
      assert sales + [row] == [row];
    } else {
      assert (sales + [row])[1..] == sales[1..] + [row];
      FindSaleAppended(sales[1..], row);
    }
  }

  /**
   * Save, then load: the sale read back under the generated id is the saved
   * transaction, carrying that id, the database timestamp and the stored item
   * rows (same lines, now with row ids and the sale id); every amount
   * survives because the cart was totalled when it was saved.
   */
  lemma SaveThenFindById(db: Db, t: Transaction, now: DateTime, later: DateTime)
    requires WellFormed(db) && IntQuantities(t.items) && Totalled(t)
    ensures var r := Save(db, t, NoFault, now);
      && WellFormed(r.db)
      && FindById(r.db, db.nextSaleId, later)
         == Some(t.(id := db.nextSaleId, date := now,
                    items := ItemRows(t.items, db.nextSaleId, db.nextItemId)))
  {
    var r := Save(db, t, NoFault, now);
    var id := db.nextSaleId;
    var header := HeaderRow(t, id, now);
    var rows := ItemRows(t.items, id, db.nextItemId);
    assert r.db.sales == db.sales + [header] && r.db.saleItems == db.saleItems + rows;
    SavePreservesWellFormed(db, t, NoFault, now);
    FindSaleAppended(db.sales, header);
    SavedItemsFound(db, t.items);
    FindByIdOfRow(r.db, id, later, header);
    assert FindById(r.db, id, later) == Some(SetItems(MapRow(header, later), rows));
    ReloadHeader(t, id, now, later, rows);
  }

  /** The item rows of a sale just saved are exactly the lines the lookup finds under its id. */
  lemma SavedItemsFound(db: Db, items: seq<Item>)
    requires WellFormed(db) && IntQuantities(items)
    ensures var rows := ItemRows(items, db.nextSaleId, db.nextItemId);
      && IntQuantities(db.saleItems + rows)
      && FindItemsByTransactionId(db.saleItems + rows, db.nextSaleId) == rows
  {
    var id := db.nextSaleId;
    var rows := ItemRows(items, id, db.nextItemId);
    assert IntQuantities(db.saleItems);
    assert IntQuantities(rows);
    FindItemsConcat(db.saleItems, rows, id);
    FindItemsNone(db.saleItems, id);
    FindItemsAll(rows, id);
  }

  /** `findById` on a header row that is found: that row mapped, with the sale's lines installed. */
  lemma FindByIdOfRow(db: Db, id: int, now: DateTime, row: SaleRow)
    requires IntQuantities(db.saleItems) && FindSale(db.sales, id) == Some(row)
    ensures FindById(db, id, now) == Some(SetItems(MapRow(row, now), FindItemsByTransactionId(db.saleItems, id)))
  {
  }

  /** Installing lines with the same subtotals into the reloaded header gives back the saved amounts. */
  lemma ReloadHeader(t: Transaction, id: int, now: DateTime, later: DateTime, rows: seq<Item>)
    requires Totalled(t) && |rows| == |t.items|
    requires forall i :: 0 <= i < |rows| ==> rows[i].subtotal == t.items[i].subtotal
    ensures SetItems(MapRow(HeaderRow(t, id, now), later), rows) == t.(id := id, date := now, items := rows)
  {
    SumSubtotalsPointwise(rows, t.items);
  }
}
