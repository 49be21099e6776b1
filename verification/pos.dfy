/**
 * The cashier screen's cart logic (`ui/POSPanel.java`), with the Swing
 * widgets reduced to the two text fields whose contents the logic reads.
 * Every handler ends in `refreshCartDisplay`, whose only effect on the model
 * is `calculateChange`: re-reading the payment field into the cart.
 */
module Pos {
  import opened Wrappers
  import opened JavaTypes
  import opened Digits
  import opened Products
  import opened Items
  import opened Transactions
  import opened Currency
  import opened Store
  import opened TransactionDao

  /** The open cart, the discount and payment fields as typed, and the logged-in cashier. */
  datatype PosState = PosState(cart: Transaction, discountText: string, paymentText: string, cashierId: int)

  /** What `addToCart` told the cashier. */
  datatype AddOutcome = Added | OutOfStock | InsufficientStock

  /** What `processPayment` told the cashier. */
  datatype PayOutcome = EmptyCart | Underpaid | Saved | SaveFailed

  /** The panel as constructed: an empty cart owned by the cashier, both fields showing "0". */
  function Initial(cashierId: int, now: DateTime): (s: PosState)
    ensures s.cart.items == [] && s.cart.userId == cashierId && s.cashierId == cashierId
    ensures s.cart.total == 0.0 && s.cart.payment == 0.0 && Totalled(s.cart)
    ensures s.cart.id == 0 && s.cart.date == now && s.cart.discountPercent == 0.0
    ensures s.discountText == "0" && s.paymentText == "0"
  {
    PosState(NewTransaction(now).(userId := cashierId), "0", "0", cashierId)
  }

  /** Whether the cart's stored payment and change reflect the payment field. */
  predicate PaymentInSync(s: PosState) {
    s.cart.payment == Parse(Some(s.paymentText)) && s.cart.changeAmount == s.cart.payment - s.cart.total
  }

  /** `calculateChange` (and so `refreshCartDisplay`): the lenient parse of the payment field becomes the payment. */
  function Refresh(s: PosState): (r: PosState)
    ensures PaymentInSync(r)
    ensures r.cart.payment >= 0.0
    ensures r.cart.(payment := s.cart.payment, changeAmount := s.cart.changeAmount) == s.cart
    ensures r.discountText == s.discountText && r.paymentText == s.paymentText && r.cashierId == s.cashierId
  {
    s.(cart := SetPayment(s.cart, Parse(Some(s.paymentText))))
  }

  /** A refresh that is already in sync changes nothing. */
  lemma RefreshIdempotent(s: PosState)
    requires PaymentInSync(s)
    ensures Refresh(s) == s
  {
  }

  /** The payment field's key listener: store the text, then recompute the change. */
  function EnterPayment(s: PosState, text: string): (r: PosState)
    ensures r.paymentText == text && PaymentInSync(r)
    ensures r.cart.items == s.cart.items && r.cart.total == s.cart.total
    ensures r.cart.(payment := s.cart.payment, changeAmount := s.cart.changeAmount) == s.cart
    ensures r.discountText == s.discountText && r.cashierId == s.cashierId
  {
    Refresh(s.(paymentText := text))
  }

  /** The amounts on the quick-payment buttons. */
  const QuickAmounts: seq<nat> := [10000, 20000, 50000, 100000, 200000, 500000]

  /** A quick-payment button: writes the amount in decimal into the payment field. */
  function QuickAmount(s: PosState, button: nat): (r: PosState)
    requires button < |QuickAmounts|
    ensures r.paymentText == NatToString(QuickAmounts[button])
    ensures r.cart.items == s.cart.items
    ensures r.cart.(payment := s.cart.payment, changeAmount := s.cart.changeAmount) == s.cart
    ensures r.discountText == s.discountText && r.cashierId == s.cashierId
  {
    EnterPayment(s, NatToString(QuickAmounts[button]))
  }

  /** A quick-payment button pays exactly its amount, and the change is that amount minus the total. */
  lemma QuickAmountPays(s: PosState, button: nat)
    requires button < |QuickAmounts|
    ensures QuickAmount(s, button).cart.payment == QuickAmounts[button] as real
    ensures QuickAmount(s, button).cart.changeAmount == QuickAmounts[button] as real - s.cart.total
  {
    var n := QuickAmounts[button];
    ParseNatText(n);
    assert QuickAmount(s, button) == EnterPayment(s, NatToString(n));
  }

  /** A whole number written in decimal, with nothing around it, reads back as itself. */
  lemma ParseNatText(n: nat)
    ensures Parse(Some(NatToString(n))) == n as real
  {
    ParseReadsWholeNumber("", n, "");
    assert "" + NatToString(n) + "" == NatToString(n);
  }

  /** The quantity already in the cart for a product, read from its first line (0 when absent). */
  function QuantityInCart(items: seq<Item>, productId: int): (q: int)
    ensures IndexOfProduct(items, productId) == |items| ==> q == 0
    ensures IndexOfProduct(items, productId) < |items| ==> q == items[IndexOfProduct(items, productId)].quantity
  {
    var k := IndexOfProduct(items, productId);
    if k < |items| then items[k].quantity else 0
  }

  /**
   * `addToCart`: refuses a product with no stock, refuses when the cart
   * already holds as many as are in stock, and otherwise adds one unit
   * (merged into the product's line if it has one).
   */
  function AddToCart(s: PosState, p: Product): (r: (PosState, AddOutcome))
    ensures r.1 == OutOfStock <==> p.stock <= 0
    ensures r.1 == InsufficientStock <==> p.stock > 0 && QuantityInCart(s.cart.items, p.id) >= p.stock
    ensures r.1 != Added ==> r.0 == s
    ensures r.1 == Added ==> r.0 == Refresh(s.(cart := AddItem(s.cart, OfProduct(p, 1))))
  {
    if p.stock <= 0 then (s, OutOfStock)
    else if QuantityInCart(s.cart.items, p.id) >= p.stock then (s, InsufficientStock)
    else (Refresh(s.(cart := AddItem(s.cart, OfProduct(p, 1)))), Added)
  }

  /**
   * Adding through `addToCart` never puts more of a product in the cart than
   * its stock: the product's line grows by exactly one unit and stays within
   * the stock (or is a new one-unit line), every other line is untouched.
   */
  lemma AddToCartRespectsStock(s: PosState, p: Product)
    requires IsInt(p.stock)
    requires forall i :: 0 <= i < |s.cart.items| ==> IsInt(s.cart.items[i].quantity)
    ensures var (r, outcome) := AddToCart(s, p);
      outcome == Added ==>
        && QuantityInCart(r.cart.items, p.id) == QuantityInCart(s.cart.items, p.id) + 1
        && QuantityInCart(r.cart.items, p.id) <= p.stock
  {
    var (r, outcome) := AddToCart(s, p);
    if outcome == Added {
      var items := s.cart.items;
      var k := IndexOfProduct(items, p.id);
      if k < |items| {
        assert IsInt(items[k].quantity + 1);
        assert r.cart.items[k] == AddQuantity(items[k], 1);
        assert IndexOfProduct(r.cart.items, p.id) == k by {
          IndexOfProductUnchanged(items, r.cart.items, p.id, k);
        }
      } else {
        assert r.cart.items == items + [OfProduct(p, 1)];
        IndexOfProductAppended(items, OfProduct(p, 1));
      }
    }
  }

  /** The first match does not move when that line and everything before it keep their product. */
  lemma IndexOfProductUnchanged(a: seq<Item>, b: seq<Item>, productId: int, k: nat)
    requires |a| == |b| && k == IndexOfProduct(a, productId) && k < |a|
    requires forall j :: 0 <= j <= k ==> b[j].productId == a[j].productId
    ensures IndexOfProduct(b, productId) == k
  {
    IndexOfProductUnique(b, productId, k);
  }

  /** A line appended for a product not yet in the cart is found at the end. */
  lemma IndexOfProductAppended(items: seq<Item>, it: Item)
    requires IndexOfProduct(items, it.productId) == |items|
    ensures IndexOfProduct(items + [it], it.productId) == |items|
  {
    IndexOfProductUnique(items + [it], it.productId, |items|);
  }

  /** `removeFromCart`: drops the clicked line. */
  function RemoveFromCart(s: PosState, index: int): (r: PosState)
    ensures PaymentInSync(r)
    ensures r.cart.items == RemoveItem(s.cart, index).items
    ensures r.cart.total == RemoveItem(s.cart, index).total
    ensures var removed := RemoveItem(s.cart, index);
      r.cart.(payment := removed.payment, changeAmount := removed.changeAmount) == removed
    ensures r.discountText == s.discountText && r.paymentText == s.paymentText && r.cashierId == s.cashierId
  {
    Refresh(s.(cart := RemoveItem(s.cart, index)))
  }

  /**
   * The quantity column's edit listener: a positive whole number typed into
   * row `row` becomes that line's quantity and the cart is re-totalled; any
   * other input (unparseable, zero or negative) is ignored. Unlike
   * `addToCart`, no stock check is made.
   */
  function EditQuantity(s: PosState, row: nat, parsed: Option<int>): (r: PosState)
    requires row < |s.cart.items|
    requires parsed.Some? ==> IsInt(parsed.value)
    ensures parsed.Some? && parsed.value > 0 ==>
      && |r.cart.items| == |s.cart.items|
      && r.cart.items[row] == Items.SetQuantity(s.cart.items[row], parsed.value)
      && (forall j :: 0 <= j < |s.cart.items| && j != row ==> r.cart.items[j] == s.cart.items[j])
      && Totalled(r.cart) && PaymentInSync(r)
    ensures !(parsed.Some? && parsed.value > 0) ==> r == s
  {
    match parsed
    case Some(q) =>
      if q > 0 then
        var items := s.cart.items[row := Items.SetQuantity(s.cart.items[row], q)];
        Refresh(s.(cart := CalculateTotals(s.cart.(items := items))))
      else s
    case None => s
  }

  /** Editing the quantity column can put more of a product in the cart than is in stock. */
  lemma EditQuantityIgnoresStock(s: PosState, p: Product, q: int)
    requires |s.cart.items| == 1 && s.cart.items[0].productId == p.id
    requires IsInt(q) && q > p.stock && q > 0
    ensures QuantityInCart(EditQuantity(s, 0, Some(q)).cart.items, p.id) > p.stock
  {
  }

  /**
   * The discount field's key listener: a typed value between 0 and 100
   * (inclusive) becomes the discount percentage; anything else, including
   * text that is not a number, leaves the cart as it was. `parsed` is the
   * result of `new BigDecimal(text.trim())`, `None` when that throws.
   */
  function ApplyDiscount(s: PosState, text: string, parsed: Option<real>): (r: PosState)
    ensures r.discountText == text && r.paymentText == s.paymentText && r.cashierId == s.cashierId
    ensures r.cart.id == s.cart.id && r.cart.userId == s.cart.userId && r.cart.date == s.cart.date
    ensures parsed.Some? && 0.0 <= parsed.value <= 100.0 ==>
      r.cart.discountPercent == parsed.value && r.cart.items == s.cart.items
      && Totalled(r.cart) && PaymentInSync(r)
    ensures !(parsed.Some? && 0.0 <= parsed.value <= 100.0) ==> r.cart == s.cart
  {
    var s := s.(discountText := text);
    match parsed
    case Some(d) =>
      if 0.0 <= d <= 100.0 then Refresh(s.(cart := SetDiscountPercent(s.cart, d))) else s
    case None => s
  }

  /**
   * `clearCart`: empties the cart and shows "0" and "" in the two fields.
   * Only the payment is re-read; the discount percentage stays on the cart
   * although its field now shows "0".
   */
  function ClearCart(s: PosState): (r: PosState)
    ensures r.cart.items == [] && r.cart.total == 0.0
    ensures r.discountText == "0" && r.paymentText == ""
    ensures r.cart.payment == 0.0 && r.cart.changeAmount == 0.0
    ensures r.cart.discountPercent == s.cart.discountPercent
    ensures r.cart.id == s.cart.id && r.cart.userId == s.cart.userId && r.cashierId == s.cashierId
    ensures r.cart.date == s.cart.date && Totalled(r.cart) && PaymentInSync(r)
  {
    var cleared := s.(cart := ClearItems(s.cart), discountText := "0", paymentText := "");
    Refresh(cleared)
  }

  /** After clearing, a later item is still discounted at the old rate although the field reads "0". */
  lemma ClearCartKeepsDiscount(s: PosState, p: Product)
    requires s.cart.discountPercent == 10.0 && p.stock > 0 && p.price == 1000.0
    ensures var (r, outcome) := AddToCart(ClearCart(s), p);
      outcome == Added && r.discountText == "0" && r.cart.total == 900.0
  {
    var c := ClearCart(s);
    assert QuantityInCart(c.cart.items, p.id) == 0;
    var (r, outcome) := AddToCart(c, p);
    assert r.cart.items == [OfProduct(p, 1)];
    assert SumSubtotals(r.cart.items) == 1000.0;
    Decimal.RoundHalfUp2OfCents(100.0);
  }

  /**
   * `processPayment`: refuses an empty cart and a payment below the total;
   * otherwise saves. A saved sale is replaced by a fresh cart for the same
   * cashier, so the panel is as constructed except for the emptied payment
   * field; a failed save keeps the panel as it was, except for the id the
   * failed attempt may have assigned. Two clocks are involved: `now` is the
   * database's, which stamps the stored header, and `clientNow` is the
   * application's, read when the fresh cart is constructed.
   */
  function ProcessPayment(s: PosState, db: Db, fault: Fault, now: DateTime, clientNow: DateTime)
    : (r: (PosState, Db, PayOutcome))
    ensures r.2 == EmptyCart <==> s.cart.items == []
    ensures r.2 == Underpaid <==> s.cart.items != [] && s.cart.payment < s.cart.total
    ensures r.2 in {EmptyCart, Underpaid} ==> r.0 == s && r.1 == db
    ensures r.2 == Saved <==> s.cart.items != [] && s.cart.payment >= s.cart.total && fault == NoFault
    ensures r.2 == Saved ==>
      && r.1 == Save(db, s.cart, NoFault, now).db
      && r.0.cart.items == [] && r.0.cart.userId == s.cashierId
      && r.0.cart.payment == 0.0 && r.0.cart.changeAmount == 0.0
      && r.0.paymentText == "" && r.0.discountText == "0"
    ensures r.2 == Saved ==> r.0 == Initial(s.cashierId, clientNow).(paymentText := "")
    ensures r.2 == SaveFailed ==> r.1 == db && r.0.cart.items == s.cart.items
    ensures r.2 == SaveFailed ==>
      && r.0.(cart := s.cart) == s
      && r.0.cart == if fault == SqlError(true) then s.cart.(id := db.nextSaleId) else s.cart
  {
    if s.cart.items == [] then (s, db, EmptyCart)
    else if s.cart.payment < s.cart.total then (s, db, Underpaid)
    else
      var result := Save(db, s.cart, fault, now);
      if result.saved then
        var reset := s.(cart := NewTransaction(clientNow).(userId := s.cashierId));
        (ClearCart(reset), result.db, Saved)
      else
        (s.(cart := result.transaction), db, SaveFailed)
  }

  /** The panel starts in sync: the field shows "0" and nothing is paid or owed. */
  lemma InitialInSync(cashierId: int, now: DateTime)
    ensures PaymentInSync(Initial(cashierId, now))
  {
    ParseNatText(0);
    assert NatToString(0) == "0";
  }

  /**
   * Every handler leaves the cart's payment and change in step with the
   * payment field, so every screen reachable from `Initial` is in sync.
   */
  lemma HandlersKeepPaymentInSync(s: PosState, p: Product, index: int, row: nat, qty: Option<int>,
                                  text: string, percent: Option<real>, button: nat,
                                  db: Db, fault: Fault, now: DateTime, clientNow: DateTime)
    requires PaymentInSync(s)
    ensures PaymentInSync(AddToCart(s, p).0)
    ensures PaymentInSync(RemoveFromCart(s, index))
    ensures row < |s.cart.items| && (qty.Some? ==> IsInt(qty.value)) ==> PaymentInSync(EditQuantity(s, row, qty))
    ensures PaymentInSync(ApplyDiscount(s, text, percent))
    ensures PaymentInSync(ClearCart(s))
    ensures PaymentInSync(EnterPayment(s, text))
    ensures button < |QuickAmounts| ==> PaymentInSync(QuickAmount(s, button))
    ensures PaymentInSync(ProcessPayment(s, db, fault, now, clientNow).0)
  {
    AddToCartInSync(s, p);
    if row < |s.cart.items| && (qty.Some? ==> IsInt(qty.value)) {
      EditQuantityInSync(s, row, qty);
    }
    ApplyDiscountInSync(s, text, percent);
    ProcessPaymentInSync(s, db, fault, now, clientNow);
  }

  // One handler per lemma, so that each proof stays small.

  lemma AddToCartInSync(s: PosState, p: Product)
    requires PaymentInSync(s)
    ensures PaymentInSync(AddToCart(s, p).0)
  {
  }

  lemma EditQuantityInSync(s: PosState, row: nat, qty: Option<int>)
    requires PaymentInSync(s) && row < |s.cart.items| && (qty.Some? ==> IsInt(qty.value))
    ensures PaymentInSync(EditQuantity(s, row, qty))
  {
  }

  lemma ApplyDiscountInSync(s: PosState, text: string, percent: Option<real>)
    requires PaymentInSync(s)
    ensures PaymentInSync(ApplyDiscount(s, text, percent))
  {
  }

  lemma ProcessPaymentInSync(s: PosState, db: Db, fault: Fault, now: DateTime, clientNow: DateTime)
    requires PaymentInSync(s)
    ensures PaymentInSync(ProcessPayment(s, db, fault, now, clientNow).0)
  {
  }

  /**
   * A completed sale reads each clock once: the stored header carries the
   * database's time, and the next cart the application's.
   */
  lemma SaleStampsBothClocks(s: PosState, db: Db, now: DateTime, clientNow: DateTime)
    requires s.cart.items != [] && s.cart.payment >= s.cart.total
    ensures var (r, db', outcome) := ProcessPayment(s, db, NoFault, now, clientNow);
      && outcome == Saved
      && db'.sales[|db'.sales| - 1].date == Some(now)
      && r.cart.date == clientNow
  {
  }

  /** A sale that is saved was paid in full: the change it records is never negative. */
  lemma SavedSaleIsPaid(s: PosState, db: Db, fault: Fault, now: DateTime, clientNow: DateTime)
    requires PaymentInSync(s)
    ensures var (_, db', outcome) := ProcessPayment(s, db, fault, now, clientNow);
      outcome == Saved ==>
        && db'.sales[|db'.sales| - 1].changeAmount >= 0.0
        && db'.sales[|db'.sales| - 1].payment >= db'.sales[|db'.sales| - 1].total
  {
  }
}
