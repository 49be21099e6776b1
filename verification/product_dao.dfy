/** Stock updates and catalogue queries (`dao/ProductDAO.java`) over the abstract store. */
module ProductDao {
  import opened Wrappers
  import opened Products
  import opened Store

  /** A write and its JDBC verdict: `executeUpdate() > 0`, i.e. some row matched. */
  datatype Update = Update(db: Db, updated: bool)

  /**
   * `updateStock`: the guarded decrement `stock = stock - q WHERE id = ? AND
   * stock >= q`. Only rows of the given product with enough stock change, and
   * the verdict says whether any row matched.
   */
  function UpdateStock(db: Db, productId: int, quantity: int): (r: Update)
    ensures |r.db.products| == |db.products| && r.db.(products := db.products) == db
    ensures forall i :: 0 <= i < |db.products| && db.products[i].id != productId ==>
      r.db.products[i] == db.products[i]
    ensures forall i :: 0 <= i < |db.products| ==>
      r.db.products[i] == db.products[i].(stock := r.db.products[i].stock)
    ensures forall i :: 0 <= i < |db.products| && db.products[i].id == productId ==>
      if db.products[i].stock >= quantity then r.db.products[i].stock == db.products[i].stock - quantity
      else r.db.products[i] == db.products[i]
    ensures r.updated <==>
      exists i :: 0 <= i < |db.products| && db.products[i].id == productId && db.products[i].stock >= quantity
    ensures !r.updated ==> r.db == db
  {
    var ps := db.products;
    var matched := exists i :: 0 <= i < |ps| && ps[i].id == productId && ps[i].stock >= quantity;
    var ps' := seq(|ps|, i requires 0 <= i < |ps| =>
      if ps[i].id == productId && ps[i].stock >= quantity then ps[i].(stock := ps[i].stock - quantity) else ps[i]);
    assert !matched ==> ps' == ps;
    Update(db.(products := ps'), matched)
  }

  /** With a non-zero quantity, `updateStock` reports true exactly when it changed the table. */
  lemma UpdateStockReportsChange(db: Db, productId: int, quantity: int)
    requires quantity != 0
    ensures UpdateStock(db, productId, quantity).updated <==> UpdateStock(db, productId, quantity).db != db
  {
    var r := UpdateStock(db, productId, quantity);
    if r.updated {
      var i :| 0 <= i < |db.products| && db.products[i].id == productId && db.products[i].stock >= quantity;
      assert r.db.products[i].stock != db.products[i].stock;
    }
  }

  /** The guarded decrement never takes a non-negative stock below zero. */
  lemma UpdateStockKeepsStockNonNegative(db: Db, productId: int, quantity: int)
    requires quantity >= 0
    requires forall i :: 0 <= i < |db.products| ==> db.products[i].stock >= 0
    ensures forall i :: 0 <= i < |db.products| ==> UpdateStock(db, productId, quantity).db.products[i].stock >= 0
  {
  }

  /**
   * `addStock`: `stock = stock + q WHERE id = ?`, unguarded. Every row of the
   * product gains the quantity; the verdict says whether such a row exists.
   */
  function AddStock(db: Db, productId: int, quantity: int): (r: Update)
    ensures |r.db.products| == |db.products| && r.db.(products := db.products) == db
    ensures forall i :: 0 <= i < |db.products| ==>
      r.db.products[i] == db.products[i].(stock := r.db.products[i].stock)
    ensures forall i :: 0 <= i < |db.products| ==>
      r.db.products[i].stock == db.products[i].stock + (if db.products[i].id == productId then quantity else 0)
    ensures r.updated <==> exists i :: 0 <= i < |db.products| && db.products[i].id == productId
  {
    var ps := db.products;
    var ps' := seq(|ps|, i requires 0 <= i < |ps| =>
      if ps[i].id == productId then ps[i].(stock := ps[i].stock + quantity) else ps[i]);
    Update(db.(products := ps'), exists i :: 0 <= i < |ps| && ps[i].id == productId)
  }

  /**
   * With product ids unique (the primary key), taking stock out with the
   * guard and putting it back restores the table.
   */
  lemma AddStockUndoesUpdateStock(db: Db, productId: int, quantity: int)
    requires UniqueIds(db.products)
    ensures var r := UpdateStock(db, productId, quantity);
      r.updated ==> AddStock(r.db, productId, quantity).db == db
  {
    var r := UpdateStock(db, productId, quantity);
    if r.updated {
      var back := AddStock(r.db, productId, quantity).db;
      var k :| 0 <= k < |db.products| && db.products[k].id == productId && db.products[k].stock >= quantity;
      assert forall i :: 0 <= i < |db.products| && db.products[i].id == productId ==> i == k;
      assert back.products == db.products;
    }
  }

  // ---------------------------------------------------------------- low stock

  predicate SortedByStock(ps: seq<Product>) {
    forall i, j :: 0 <= i < j < |ps| ==> ps[i].stock <= ps[j].stock
  }

  /** The rows `WHERE stock <= min_stock`, in table order. */
  function LowStockRows(ps: seq<Product>): (r: seq<Product>)
    ensures forall p :: p in r <==> p in ps && IsLowStock(p)
    ensures |r| <= |ps|
  {
    if |ps| == 0 then []
    else (if IsLowStock(ps[0]) then [ps[0]] else []) + LowStockRows(ps[1..])
  }

  function InsertByStock(p: Product, sorted: seq<Product>): (r: seq<Product>)
    requires SortedByStock(sorted)
    ensures SortedByStock(r)
    ensures multiset(r) == multiset(sorted) + multiset{p}
  {
    if |sorted| == 0 || p.stock <= sorted[0].stock then
      ConsSorted(p, sorted);
      [p] + sorted
    else
      var tail := sorted[1..];
      assert sorted == [sorted[0]] + tail;
      var rest := InsertByStock(p, tail);
      BoundedBelow(sorted[0].stock, tail, p, rest);
      ConsSorted(sorted[0], rest);
      [sorted[0]] + rest
  }

  /** A product no higher in stock than any of a sorted list can go in front of it. */
  lemma ConsSorted(x: Product, ps: seq<Product>)
    requires SortedByStock(ps)
    requires forall i :: 0 <= i < |ps| ==> x.stock <= ps[i].stock
    ensures SortedByStock([x] + ps)
  {
    var r := [x] + ps;
    forall i, j | 0 <= i < j < |r|
      ensures r[i].stock <= r[j].stock
    {
      assert r[j] == ps[j - 1];
      if i > 0 {
        assert r[i] == ps[i - 1];
      }
    }
  }

  /** A lower bound on the stock of every element survives a permutation that adds one more bounded element. */
  lemma BoundedBelow(bound: int, tail: seq<Product>, p: Product, rest: seq<Product>)
    requires forall k :: 0 <= k < |tail| ==> bound <= tail[k].stock
    requires bound <= p.stock
    requires multiset(rest) == multiset(tail) + multiset{p}
    ensures forall i :: 0 <= i < |rest| ==> bound <= rest[i].stock
  {
    forall i | 0 <= i < |rest|
      ensures bound <= rest[i].stock
    {
      var x := rest[i];
      assert x in multiset(rest);
      if x != p {
        assert x in multiset(tail);
        var k :| 0 <= k < |tail| && tail[k] == x;
      }
    }
  }

  /** `ORDER BY stock ASC`: a permutation of the input in ascending stock order. */
  function SortByStock(ps: seq<Product>): (r: seq<Product>)
    ensures SortedByStock(r)
    ensures multiset(r) == multiset(ps)
  {
    if |ps| == 0 then []
    else
      assert ps == [ps[0]] + ps[1..];
      InsertByStock(ps[0], SortByStock(ps[1..]))
  }

  /**
   * `findLowStock`: exactly the products at or below their minimum stock
   * (each row as often as it occurs), ordered by stock ascending.
   */
  function FindLowStock(db: Db): (r: seq<Product>)
    ensures SortedByStock(r)
    ensures multiset(r) == multiset(LowStockRows(db.products))
    ensures forall p :: p in r <==> p in db.products && IsLowStock(p)
  {
    var low := LowStockRows(db.products);
    var r := SortByStock(low);
    assert forall p :: p in r <==> p in multiset(r);
    assert forall p :: p in low <==> p in multiset(low);
    r
  }

  // ---------------------------------------------------------------- barcodes

  /** `SELECT COUNT(*) ... WHERE barcode = ? AND id != ?`; a NULL barcode equals nothing. */
  function CountBarcode(ps: seq<Product>, barcode: Option<string>, excludeId: int): (n: nat)
    ensures n > 0 <==> barcode.Some? && exists i :: 0 <= i < |ps| && ps[i].barcode == barcode && ps[i].id != excludeId
    ensures n <= |ps|
  {
    if |ps| == 0 then 0
    else
      var here := if barcode.Some? && ps[0].barcode == barcode && ps[0].id != excludeId then 1 else 0;
      var rest := CountBarcode(ps[1..], barcode, excludeId);
      assert rest > 0 ==> exists i :: 0 <= i < |ps| && ps[i].barcode == barcode && ps[i].id != excludeId by {
        if rest > 0 {
          var j :| 0 <= j < |ps[1..]| && ps[1..][j].barcode == barcode && ps[1..][j].id != excludeId;
          assert ps[j + 1] == ps[1..][j];
        }
      }
      here + rest
  }

  /** `barcodeExists(b, x)`: some product other than x carries barcode b. */
  function BarcodeExists(db: Db, barcode: Option<string>, excludeId: int): (r: bool)
    ensures r <==> (barcode.Some? &&
      exists i :: 0 <= i < |db.products| && db.products[i].barcode == barcode && db.products[i].id != excludeId)
  {
    CountBarcode(db.products, barcode, excludeId) > 0
  }
}
