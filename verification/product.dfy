/** The catalogue entry (`models/Product.java`). */
module Products {
  import opened Wrappers
  import opened JavaTypes

  /**
   * A product. String fields and timestamps may be absent (`null` in the
   * source); `stock` and `minStock` are Java `int`s.
   */
  datatype Product = Product(
    id: int,
    barcode: Option<string>,
    name: Option<string>,
    category: Option<string>,
    price: real,
    stock: int,
    minStock: int,
    createdAt: Option<DateTime>,
    updatedAt: Option<DateTime>)

  /** The threshold a product gets from the no-argument constructor. */
  const DefaultMinStock: int := 5

  /** Stock is at or below the product's own minimum (`isLowStock`). */
  predicate IsLowStock(p: Product) {
    p.stock <= p.minStock
  }

  /** The no-argument constructor: zero price and stock, minimum stock 5, everything else unset. */
  function DefaultProduct(): (p: Product)
    ensures p.price == 0.0 && p.stock == 0 && p.minStock == DefaultMinStock
    ensures p.barcode == None && p.name == None && p.category == None
    ensures IsLowStock(p)
  {
    Product(0, None, None, None, 0.0, 0, DefaultMinStock, None, None)
  }

  /** The six-argument constructor: the id is still 0 and no timestamps are set. */
  function NewProduct(barcode: Option<string>, name: Option<string>, category: Option<string>,
                      price: real, stock: int, minStock: int): (p: Product)
    requires IsInt(stock) && IsInt(minStock)
    ensures p.barcode == barcode && p.name == name && p.category == category
    ensures p.price == price && p.stock == stock && p.minStock == minStock
    ensures p.id == 0 && p.createdAt == None && p.updatedAt == None
    ensures IsLowStock(p) <==> stock <= minStock
  {
    Product(0, barcode, name, category, price, stock, minStock, None, None)
  }

  function SetStock(p: Product, stock: int): (r: Product)
    requires IsInt(stock)
  {
    p.(stock := stock)
  }

  function SetMinStock(p: Product, minStock: int): (r: Product)
    requires IsInt(minStock)
  {
    p.(minStock := minStock)
  }

  function SetPrice(p: Product, price: real): (r: Product) {
    p.(price := price)
  }

  function SetBarcode(p: Product, barcode: Option<string>): (r: Product) {
    p.(barcode := barcode)
  }

  /**
   * Each setter changes its own field only: the low-stock verdict moves with
   * stock and minimum stock and with nothing else, and setters of different
   * fields commute.
   */
  lemma SettersAreIndependent(p: Product, s: int, m: int, price: real, b: Option<string>)
    requires IsInt(s) && IsInt(m)
    ensures SetStock(p, s) == p.(stock := s)
    ensures SetMinStock(p, m) == p.(minStock := m)
    ensures SetPrice(p, price) == p.(price := price)
    ensures SetBarcode(p, b) == p.(barcode := b)
    ensures IsLowStock(SetStock(p, s)) <==> s <= p.minStock
    ensures IsLowStock(SetMinStock(p, m)) <==> p.stock <= m
    ensures IsLowStock(SetPrice(p, price)) == IsLowStock(p)
    ensures IsLowStock(SetBarcode(p, b)) == IsLowStock(p)
    ensures SetStock(SetMinStock(p, m), s) == SetMinStock(SetStock(p, s), m)
    ensures SetPrice(SetStock(p, s), price) == SetStock(SetPrice(p, price), s)
    ensures SetStock(p, s).id == p.id && SetStock(p, s).barcode == p.barcode
    ensures SetStock(p, s).minStock == p.minStock && SetStock(p, s).price == p.price
  {
  }
}
