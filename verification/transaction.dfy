/** The cart aggregate (`models/Transaction.java`). */
module Transactions {
  import opened JavaTypes
  import opened Decimal
  import opened Items

  /** A sale: header amounts plus the ordered lines. */
  datatype Transaction = Transaction(
    id: int,
    userId: int,
    date: DateTime,
    subtotal: real,
    discountPercent: real,
    discountAmount: real,
    total: real,
    payment: real,
    changeAmount: real,
    items: seq<Item>)

  // ---------------------------------------------------------------- sums over lines

  /** Sum of the stored line subtotals. */
  function SumSubtotals(items: seq<Item>): real {
    if |items| == 0 then 0.0
    else SumSubtotals(items[..|items| - 1]) + items[|items| - 1].subtotal
  }

  /** Sum of price times quantity over the lines, independent of what the lines store. */
  function SumLineValues(items: seq<Item>): real {
    if |items| == 0 then 0.0
    else SumLineValues(items[..|items| - 1]) + items[|items| - 1].price * items[|items| - 1].quantity as real
  }

  /** Exact (unwrapped) sum of the line quantities. */
  function SumQuantities(items: seq<Item>): int {
    if |items| == 0 then 0
    else SumQuantities(items[..|items| - 1]) + items[|items| - 1].quantity
  }

  predicate AllConsistent(items: seq<Item>) {
    forall i :: 0 <= i < |items| ==> Consistent(items[i])
  }

  lemma {:induction false} SumSubtotalsConcat(a: seq<Item>, b: seq<Item>)
    ensures SumSubtotals(a + b) == SumSubtotals(a) + SumSubtotals(b)
  {
    if |b| == 0 {
      assert a + b == a;
    } else {
      assert (a + b)[..|a + b| - 1] == a + b[..|b| - 1];
      SumSubtotalsConcat(a, b[..|b| - 1]);
    }
  }

  lemma SumSubtotalsSingleton(it: Item)
    ensures SumSubtotals([it]) == it.subtotal
  {
    assert [it][..0] == [];
  }

  lemma {:induction false} SumQuantitiesConcat(a: seq<Item>, b: seq<Item>)
    ensures SumQuantities(a + b) == SumQuantities(a) + SumQuantities(b)
  {
    if |b| == 0 {
      assert a + b == a;
    } else {
      assert (a + b)[..|a + b| - 1] == a + b[..|b| - 1];
      SumQuantitiesConcat(a, b[..|b| - 1]);
    }
  }

  /** When every line keeps its invariant, the stored subtotals add up to price times quantity. */
  lemma {:induction false} SubtotalsAreLineValues(items: seq<Item>)
    requires AllConsistent(items)
    ensures SumSubtotals(items) == SumLineValues(items)
  {
    if |items| > 0 {
      SubtotalsAreLineValues(items[..|items| - 1]);
    }
  }

  /** Sums over the lines only look at the subtotals. */
  lemma {:induction false} SumSubtotalsPointwise(a: seq<Item>, b: seq<Item>)
    requires |a| == |b|
    requires forall i :: 0 <= i < |a| ==> a[i].subtotal == b[i].subtotal
    ensures SumSubtotals(a) == SumSubtotals(b)
  {
    if |a| > 0 {
      SumSubtotalsPointwise(a[..|a| - 1], b[..|b| - 1]);
    }
  }

  /** Replacing line k changes the sum of subtotals by the difference of the two lines. */
  lemma {:induction false} SumSubtotalsUpdate(items: seq<Item>, k: nat, it: Item)
    requires k < |items|
    ensures SumSubtotals(items[k := it]) == SumSubtotals(items) - items[k].subtotal + it.subtotal
  {
    var pre, x, post := items[..k], items[k], items[k + 1..];
    assert SumSubtotals(items) == SumSubtotals(pre) + x.subtotal + SumSubtotals(post) by {
      assert items == pre + [x] + post;
      SumSubtotalsConcat(pre + [x], post);
      SumSubtotalsConcat(pre, [x]);
      SumSubtotalsSingleton(x);
    }
    assert SumSubtotals(items[k := it]) == SumSubtotals(pre) + it.subtotal + SumSubtotals(post) by {
      assert items[k := it] == pre + [it] + post;
      SumSubtotalsConcat(pre + [it], post);
      SumSubtotalsConcat(pre, [it]);
      SumSubtotalsSingleton(it);
    }
  }

  lemma {:induction false} SumQuantitiesUpdate(items: seq<Item>, k: nat, it: Item)
    requires k < |items|
    ensures SumQuantities(items[k := it]) == SumQuantities(items) - items[k].quantity + it.quantity
  {
    var pre, x, post := items[..k], items[k], items[k + 1..];
    assert SumQuantities(items) == SumQuantities(pre) + x.quantity + SumQuantities(post) by {
      assert items == pre + [x] + post;
      SumQuantitiesConcat(pre + [x], post);
      SumQuantitiesConcat(pre, [x]);
      assert [x][..0] == [];
    }
    assert SumQuantities(items[k := it]) == SumQuantities(pre) + it.quantity + SumQuantities(post) by {
      assert items[k := it] == pre + [it] + post;
      SumQuantitiesConcat(pre + [it], post);
      SumQuantitiesConcat(pre, [it]);
      assert [it][..0] == [];
    }
  }

  /** Removing line k takes its subtotal out of the sum. */
  lemma {:induction false} SumSubtotalsRemove(items: seq<Item>, k: nat)
    requires k < |items|
    ensures SumSubtotals(items[..k] + items[k + 1..]) == SumSubtotals(items) - items[k].subtotal
  {
    var pre, x, post := items[..k], items[k], items[k + 1..];
    assert SumSubtotals(items) == SumSubtotals(pre) + x.subtotal + SumSubtotals(post) by {
      assert items == pre + [x] + post;
      SumSubtotalsConcat(pre + [x], post);
      SumSubtotalsConcat(pre, [x]);
      SumSubtotalsSingleton(x);
    }
    SumSubtotalsConcat(pre, post);
  }

  // ---------------------------------------------------------------- lookup

  /**
   * Position of the first line for `productId`, or `|items|` when there is
   * none: the line `addItem` merges into.
   */
  function IndexOfProduct(items: seq<Item>, productId: int): (k: nat)
    ensures k <= |items|
    ensures k < |items| ==> items[k].productId == productId
    ensures forall j :: 0 <= j < k ==> items[j].productId != productId
  {
    if |items| == 0 then 0
    else if items[0].productId == productId then 0
    else 1 + IndexOfProduct(items[1..], productId)
  }

  /** The first-match position is the only one with its defining property. */
  lemma IndexOfProductUnique(items: seq<Item>, productId: int, k: nat)
    requires k <= |items|
    requires k < |items| ==> items[k].productId == productId
    requires forall j :: 0 <= j < k ==> items[j].productId != productId
    ensures IndexOfProduct(items, productId) == k
  {
  }

  // ---------------------------------------------------------------- derived amounts

  /** `amount.multiply(percent)` divided by 100, before rounding. */
  function PercentOf(amount: real, percent: real): real {
    amount * percent / 100.0
  }

  /**
   * The discount `calculateTotals` derives: zero unless the percentage is
   * positive, else subtotal times percent over 100, rounded HALF_UP to cents.
   */

  function DiscountFor(subtotal: real, percent: real): real {
    if percent > 0.0 then RoundHalfUp2(PercentOf(subtotal, percent)) else 0.0
  }

  /**
   * The invariant `calculateTotals` establishes: subtotal is the sum of the
   * lines, discount and total follow from it, and change is payment minus
   * total whenever a payment has been entered.
   */
  predicate Totalled(t: Transaction) {
    && t.subtotal == SumSubtotals(t.items)
    && t.discountAmount == DiscountFor(t.subtotal, t.discountPercent)
    && t.total == t.subtotal - t.discountAmount
    && (t.payment > 0.0 ==> t.changeAmount == t.payment - t.total)
  }

  /** The constructor: no lines and every amount zero, stamped with the current time. */
  function NewTransaction(now: DateTime): (t: Transaction)
    ensures t.items == [] && t.date == now
    ensures t.subtotal == 0.0 && t.discountPercent == 0.0 && t.discountAmount == 0.0
    ensures t.total == 0.0 && t.payment == 0.0 && t.changeAmount == 0.0
    ensures Totalled(t)
  {
    Transaction(0, 0, now, 0.0, 0.0, 0.0, 0.0, 0.0, 0.0, [])
  }

  /** `calculateChange`: change is payment minus total, possibly negative. */
  function CalculateChange(t: Transaction): (r: Transaction)
    ensures r.changeAmount + r.total == r.payment
    ensures r.(changeAmount := t.changeAmount) == t
  {
    t.(changeAmount := t.payment - t.total)
  }

  /**
   * `calculateTotals`: establishes the invariant from any state, touching
   * only the derived amounts; the previous change survives when no positive
   * payment has been entered.
   */
  function CalculateTotals(t: Transaction): (r: Transaction)
    ensures Totalled(r)
    ensures r.items == t.items && r.discountPercent == t.discountPercent && r.payment == t.payment
    ensures r.id == t.id && r.userId == t.userId && r.date == t.date
    ensures t.payment <= 0.0 ==> r.changeAmount == t.changeAmount
  {
    var subtotal := SumSubtotals(t.items);
    var discount := DiscountFor(subtotal, t.discountPercent);
    var r := t.(subtotal := subtotal, discountAmount := discount, total := subtotal - discount);
    if r.payment > 0.0 then CalculateChange(r) else r
  }

  /** A totalled transaction is a fixed point of `calculateTotals`. */
  lemma CalculateTotalsFixedPoint(t: Transaction)
    requires Totalled(t)
    ensures CalculateTotals(t) == t
  {
  }

  /** `setPayment`: stores the payment and refreshes the change unconditionally. */
  function SetPayment(t: Transaction, payment: real): (r: Transaction)
    ensures r.payment == payment && r.changeAmount == payment - t.total
    ensures r.(payment := t.payment, changeAmount := t.changeAmount) == t
  {
    CalculateChange(t.(payment := payment))
  }

  /** `setDiscountPercent`: stores the percentage and re-totals. */
  function SetDiscountPercent(t: Transaction, percent: real): (r: Transaction)
    ensures r.discountPercent == percent && r.items == t.items && r.payment == t.payment
    ensures r.id == t.id && r.userId == t.userId && r.date == t.date
    ensures t.payment <= 0.0 ==> r.changeAmount == t.changeAmount
    ensures Totalled(r)
  {
    CalculateTotals(t.(discountPercent := percent))
  }

  /** `setItems`: replaces the lines and re-totals. */
  function SetItems(t: Transaction, items: seq<Item>): (r: Transaction)
    ensures r.items == items && r.discountPercent == t.discountPercent && r.payment == t.payment
    ensures r.id == t.id && r.userId == t.userId && r.date == t.date
    ensures t.payment <= 0.0 ==> r.changeAmount == t.changeAmount
    ensures Totalled(r)
  {
    CalculateTotals(t.(items := items))
  }

  /**
   * `addItem`: a line for a product already in the cart absorbs the incoming
   * quantity in place (keeping its position, price and name); any other line
   * is appended. Either way the amounts are re-totalled.
   */
  function AddItem(t: Transaction, item: Item): (r: Transaction)
    ensures var k := IndexOfProduct(t.items, item.productId);
      if k < |t.items| then
        && |r.items| == |t.items|
        && r.items[k] == AddQuantity(t.items[k], item.quantity)
        && forall j :: 0 <= j < |t.items| && j != k ==> r.items[j] == t.items[j]
      else r.items == t.items + [item]
    ensures r.discountPercent == t.discountPercent && r.payment == t.payment
    ensures r.id == t.id && r.userId == t.userId && r.date == t.date
    ensures t.payment <= 0.0 ==> r.changeAmount == t.changeAmount
    ensures Totalled(r)
    ensures AllConsistent(t.items) && Consistent(item) ==> AllConsistent(r.items)
  {
    var k := IndexOfProduct(t.items, item.productId);
    if k < |t.items| then
      CalculateTotals(t.(items := t.items[k := AddQuantity(t.items[k], item.quantity)]))
    else
      CalculateTotals(t.(items := t.items + [item]))
  }

  /** `removeItem`: an index outside the lines changes nothing at all; otherwise that line goes. */
  function RemoveItem(t: Transaction, index: int): (r: Transaction)
    ensures !(0 <= index < |t.items|) ==> r == t
    ensures 0 <= index < |t.items| ==>
      && |r.items| == |t.items| - 1
      && (forall j :: 0 <= j < index ==> r.items[j] == t.items[j])
      && (forall j :: index <= j < |r.items| ==> r.items[j] == t.items[j + 1])
      && Totalled(r)
    ensures r.discountPercent == t.discountPercent && r.payment == t.payment
    ensures r.id == t.id && r.userId == t.userId && r.date == t.date
    ensures t.payment <= 0.0 ==> r.changeAmount == t.changeAmount
  {
    if 0 <= index < |t.items| then
      CalculateTotals(t.(items := t.items[..index] + t.items[index + 1..]))
    else
      t
  }

  /**
   * `clearItems`: no lines and zero subtotal, discount and total; the
   * percentage and the payment stay, and a positive payment becomes the change.
   */
  function ClearItems(t: Transaction): (r: Transaction)
    ensures r.items == []
    ensures r.subtotal == 0.0 && r.discountAmount == 0.0 && r.total == 0.0
    ensures r.discountPercent == t.discountPercent && r.payment == t.payment
    ensures r.id == t.id && r.userId == t.userId && r.date == t.date
    ensures r.changeAmount == if t.payment > 0.0 then t.payment else t.changeAmount
  {
    assert RoundHalfUp2(0.0) == 0.0 by { RoundHalfUp2OfCents(0.0); }
    CalculateTotals(t.(items := []))
  }

  /** `getTotalItems`: the line quantities summed in Java `int` arithmetic. */
  method GetTotalItems(t: Transaction) returns (count: int)
    ensures count == Wrap(SumQuantities(t.items))
    ensures IsInt(SumQuantities(t.items)) ==> count == SumQuantities(t.items)
  {
    count := 0;
    var i := 0;
    while i < |t.items|
      invariant 0 <= i <= |t.items|
      invariant count == Wrap(SumQuantities(t.items[..i]))
    {
      assert t.items[..i + 1][..i] == t.items[..i];
      WrapAdd(SumQuantities(t.items[..i]), t.items[i].quantity);
      count := Wrap(count + t.items[i].quantity);
      i := i + 1;
    }
    assert t.items[..i] == t.items;
  }

  // ---------------------------------------------------------------- properties

  /**
   * With a percentage in [0, 100] and a non-negative subtotal in whole cents,
   * the discount lies between zero and the subtotal, so the total is never
   * negative.
   */
  lemma {:induction false} DiscountBounds(subtotal: real, percent: real)
    requires 0.0 <= percent <= 100.0
    requires 0.0 <= subtotal && IsCents(subtotal)
    ensures 0.0 <= DiscountFor(subtotal, percent) <= subtotal
    ensures subtotal - DiscountFor(subtotal, percent) >= 0.0
  {
    if percent > 0.0 {
      var raw := PercentOf(subtotal, percent);
      PercentOfBounds(subtotal, percent);
      RoundHalfUp2Monotone(0.0, raw);
      RoundHalfUp2Monotone(raw, subtotal);
      RoundHalfUp2OfCents(0.0);
      RoundHalfUp2OfCents(subtotal);
    }
  }

  /** A percentage in [0, 100] of a non-negative amount lies between zero and the amount. */
  lemma PercentOfBounds(amount: real, percent: real)
    requires 0.0 <= percent <= 100.0 && 0.0 <= amount
    ensures 0.0 <= PercentOf(amount, percent) <= amount
  {
    assert amount * percent <= amount * 100.0;
  }

  /** The worked amounts: 10% of 100000 is 10000; 33.33% of 9999 is 3332.6667, which rounds to 3332.67. */
  lemma DiscountExamples()
    ensures DiscountFor(100000.0, 10.0) == 10000.0
    ensures DiscountFor(9999.0, 33.33) == 3332.67
    ensures DiscountFor(9999.0, 0.0) == 0.0
  {
    RoundHalfUp2OfCents(10000.0);
    assert (9999.0 * 33.33 / 100.0 * 100.0 + 0.5).Floor == 333267;
  }

  /** A totalled cart whose lines keep their invariant has subtotal = sum of price times quantity. */
  lemma SubtotalIsSumOfLineValues(t: Transaction)
    requires Totalled(t) && AllConsistent(t.items)
    ensures t.subtotal == SumLineValues(t.items)
  {
    SubtotalsAreLineValues(t.items);
  }

  /**
   * Setting a discount and then setting it back to zero is the same as
   * setting zero directly, and then the total is the plain subtotal.
   */
  lemma DiscountRoundTrip(t: Transaction, percent: real)
    ensures SetDiscountPercent(SetDiscountPercent(t, percent), 0.0) == SetDiscountPercent(t, 0.0)
    ensures SetDiscountPercent(t, 0.0).total == SumSubtotals(t.items)
  {
  }

  /** `addItem` raises the (Java `int`) item count by the incoming quantity. */
  lemma {:induction false} AddItemCountsQuantity(t: Transaction, item: Item)
    ensures Wrap(SumQuantities(AddItem(t, item).items)) == Wrap(SumQuantities(t.items) + item.quantity)
  {
    var r := AddItem(t, item);
    var k := IndexOfProduct(t.items, item.productId);
    if k < |t.items| {
      var merged := AddQuantity(t.items[k], item.quantity);
      assert r.items == t.items[k := merged];
      SumQuantitiesUpdate(t.items, k, merged);
      WrapCongruent(SumQuantities(r.items), SumQuantities(t.items) + item.quantity);
    } else {
      SumQuantitiesConcat(t.items, [item]);
      assert SumQuantities([item]) == item.quantity;
    }
  }

  /**
   * Without overflow, `addItem` raises the subtotal by the incoming quantity
   * times the unit price of the line it lands in: the existing line's price
   * when merging, the new item's own subtotal when appending.
   */
  lemma {:induction false} AddItemSubtotal(t: Transaction, item: Item)
    requires Totalled(t)
    ensures var k := IndexOfProduct(t.items, item.productId);
      k < |t.items| && Consistent(t.items[k]) && IsInt(t.items[k].quantity + item.quantity) ==>
        AddItem(t, item).subtotal == t.subtotal + t.items[k].price * item.quantity as real
    ensures IndexOfProduct(t.items, item.productId) == |t.items| ==>
        AddItem(t, item).subtotal == t.subtotal + item.subtotal
  {
    var k := IndexOfProduct(t.items, item.productId);
    if k < |t.items| {
      var line := t.items[k];
      var before := AddItem(t, item).subtotal;
      assert before == t.subtotal - line.subtotal + AddQuantity(line, item.quantity).subtotal by {
        MergedSubtotal(t, item, k);
      }
      if Consistent(line) && IsInt(line.quantity + item.quantity) {
        AddQuantityGrowsSubtotal(line, item.quantity);
      }
    } else {
      AppendedSubtotal(t, item);
    }
  }

  /** Merging swaps the merged line's old subtotal for its new one. */
  lemma MergedSubtotal(t: Transaction, item: Item, k: nat)
    requires k == IndexOfProduct(t.items, item.productId) && k < |t.items|
    ensures AddItem(t, item).subtotal
         == SumSubtotals(t.items) - t.items[k].subtotal + AddQuantity(t.items[k], item.quantity).subtotal
  {
    var merged := AddQuantity(t.items[k], item.quantity);
    assert AddItem(t, item).items == t.items[k := merged];
    SumSubtotalsUpdate(t.items, k, merged);
  }

  /** Appending adds the new line's subtotal. */
  lemma AppendedSubtotal(t: Transaction, item: Item)
    requires IndexOfProduct(t.items, item.productId) == |t.items|
    ensures AddItem(t, item).subtotal == SumSubtotals(t.items) + item.subtotal
  {
    SumSubtotalsConcat(t.items, [item]);
    SumSubtotalsSingleton(item);
  }

  /** Adding two lines of the same new product yields one line with the summed quantity. */
  lemma {:induction false} AddSameProductTwice(t: Transaction, a: Item, b: Item)
    requires a.productId == b.productId
    requires IndexOfProduct(t.items, a.productId) == |t.items|
    ensures var r := AddItem(AddItem(t, a), b);
      && |r.items| == |t.items| + 1
      && r.items[..|t.items|] == t.items
      && r.items[|t.items|] == AddQuantity(a, b.quantity)
  {
    var t1 := AddItem(t, a);
    assert t1.items == t.items + [a];
    assert IndexOfProduct(t1.items, b.productId) == |t.items|;
  }

  /** Removing a line in range takes exactly its stored subtotal out of the cart's subtotal. */
  lemma RemoveItemSubtotal(t: Transaction, index: int)
    requires Totalled(t) && 0 <= index < |t.items|
    ensures RemoveItem(t, index).subtotal == t.subtotal - t.items[index].subtotal
  {
    SumSubtotalsRemove(t.items, index);
  }

  /**
   * Change handling: `setPayment` may leave a negative change, and a later
   * re-total keeps a stale change when the payment is not positive.
   */
  lemma ChangeExamples(t: Transaction)
    requires Totalled(t) && t.total == 50000.0
    ensures SetPayment(t, 60000.0).changeAmount == 10000.0
    ensures SetPayment(t, 50000.0).changeAmount == 0.0
    ensures SetPayment(t, 40000.0).changeAmount == -10000.0
    ensures CalculateTotals(t.(payment := 0.0, changeAmount := 7.0)).changeAmount == 7.0
  {
  }
}
