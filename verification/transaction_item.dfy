/** One cart line (`models/TransactionItem.java`). */
module Items {
  import opened Wrappers
  import opened JavaTypes
  import Products

  /**
   * A line: product id and name copied from the catalogue, a Java `int`
   * quantity, the unit price and the line subtotal.
   */
  datatype Item = Item(
    id: int,
    transactionId: int,
    productId: int,
    productName: Option<string>,
    quantity: int,
    price: real,
    subtotal: real)

  /** The line invariant: subtotal is exactly price times quantity. */
  predicate Consistent(it: Item) {
    it.subtotal == it.price * it.quantity as real
  }

  /** The no-argument constructor: quantity 1, price 0, subtotal 0. */
  function DefaultItem(): (it: Item)
    ensures it.quantity == 1 && it.price == 0.0 && it.productName == None
    ensures Consistent(it)
  {
    Item(0, 0, 0, None, 1, 0.0, 0.0)
  }

  /** The constructor from a product snapshot and a quantity. */
  function OfProduct(p: Products.Product, quantity: int): (it: Item)
    requires IsInt(quantity)
    ensures it.productId == p.id && it.productName == p.name && it.price == p.price
    ensures it.quantity == quantity
    ensures Consistent(it)
  {
    CalculateSubtotal(Item(0, 0, p.id, p.name, quantity, p.price, 0.0))
  }

  /** Recomputes the subtotal from price and quantity; nothing else changes. */
  function CalculateSubtotal(it: Item): (r: Item)
    ensures Consistent(r)
    ensures r.(subtotal := it.subtotal) == it
  {
    it.(subtotal := it.price * it.quantity as real)
  }

  function SetQuantity(it: Item, quantity: int): (r: Item)
    requires IsInt(quantity)
    ensures r.quantity == quantity && r.price == it.price && r.productId == it.productId
    ensures r.productName == it.productName && r.id == it.id && r.transactionId == it.transactionId
    ensures Consistent(r)
  {
    CalculateSubtotal(it.(quantity := quantity))
  }

  function SetPrice(it: Item, price: real): (r: Item)
    ensures r.price == price && r.quantity == it.quantity && r.productId == it.productId
    ensures r.productName == it.productName && r.id == it.id && r.transactionId == it.transactionId
    ensures Consistent(r)
  {
    CalculateSubtotal(it.(price := price))
  }

  /** Stores a subtotal verbatim: the one mutator that can break the line invariant. */
  function SetSubtotal(it: Item, subtotal: real): (r: Item)
    ensures r.subtotal == subtotal
    ensures r.(subtotal := it.subtotal) == it
    ensures Consistent(r) <==> subtotal == it.price * it.quantity as real
  {
    it.(subtotal := subtotal)
  }

  /** `quantity += qty` in Java `int` arithmetic, then the subtotal is recomputed. */
  function AddQuantity(it: Item, qty: int): (r: Item)
    ensures r.quantity == Wrap(it.quantity + qty)
    ensures r.price == it.price && r.productId == it.productId && r.productName == it.productName
    ensures r.id == it.id && r.transactionId == it.transactionId
    ensures Consistent(r)
  {
    CalculateSubtotal(it.(quantity := Wrap(it.quantity + qty)))
  }

  /** Adding a then b is adding their (Java `int`) sum at once. */
  lemma {:induction false} AddQuantityTwice(it: Item, a: int, b: int)
    ensures AddQuantity(AddQuantity(it, a), b) == AddQuantity(it, Wrap(a + b))
  {
    var twice := AddQuantity(AddQuantity(it, a), b);
    var once := AddQuantity(it, Wrap(a + b));
    assert twice.quantity == once.quantity by {
      WrapAddTwice(it.quantity, a, b);
    }
    assert twice.subtotal == once.subtotal;
  }

  /** Without overflow, adding a quantity adds price times that quantity to the subtotal. */
  lemma AddQuantityGrowsSubtotal(it: Item, qty: int)
    requires Consistent(it) && IsInt(it.quantity + qty)
    ensures AddQuantity(it, qty).subtotal == it.subtotal + it.price * qty as real
  {
  }
}
