# KasirHM sales core in Dafny

KasirHM is a desktop point-of-sale application for a small grocery shop. This
project models the part of it that decides amounts and stock:

- the cart (`Transaction` with its `TransactionItem` lines): merging lines by
  product, the line invariant `subtotal = price × quantity`, subtotal,
  HALF_UP discount, total and change, removal, clearing and item counting;
- the cashier screen's decision logic (`POSPanel`): the stock guards of
  `addToCart`, the discount filter, the quantity edit, the payment field and
  the checkout checks of `processPayment`;
- the lenient amount reader `CurrencyUtils.parse`;
- the persistence operations as pure transitions over an abstract store of
  three tables (`products`, `transactions`, `transaction_items`): `save`,
  `findById` with `mapResultSetToTransaction`, and `ProductDAO`'s
  `updateStock`, `addStock`, `findLowStock` and `barcodeExists`;
- `Product`'s constructors, setters and `isLowStock`;
- the 32-column text receipt of `ReceiptPrinter`, and the way the print
  routine splits it back into lines.

Modelling choices:

- `BigDecimal` is a Dafny `real`. It is exact and compared by value, so
  2.0 and 2.00 are the same amount. `Decimal.RoundHalfUp2` is the
  `divide(…, 2, HALF_UP)` step.
- Java `int` arithmetic wraps. `JavaTypes.Wrap` spells that out where the
  source adds `int`s: in `addQuantity` and `getTotalItems`.
- A `null` string is `None` of an `Option`.
- A table is a sequence of rows. `WHERE id = ?` updates every matching row, so
  nothing assumes ids are unique unless a lemma says so.
- Each JDK call the model cannot see becomes a parameter:
  - `Integer.parseInt` and `new BigDecimal(text.trim())` on a widget's text
    arrive already parsed, as an `Option`;
  - the id-ID currency format, the date pattern and `BigDecimal.toString`
    are functions;
  - the two clocks are separate `DateTime` arguments: the database's, which
    stamps a stored header, and the application's, which `new Transaction()`
    reads;
  - the way a `save` can fail is a `Fault` argument.

Modules and files:

| module | file | source |
|---|---|---|
| `Wrappers` | wrappers.dfy | `Option` |
| `JavaTypes` | java_types.dfy | Java `int` and timestamps |
| `Decimal` | decimal.dfy | HALF_UP rounding to cents |
| `Strings` | strings.dfy | repeated characters and `indexOf` |
| `Digits` | digits.dfy | digit strings, `%d`, `%05d` |
| `Products` | product.dfy | `models/Product.java` |
| `Items` | transaction_item.dfy | `models/TransactionItem.java` |
| `Transactions` | transaction.dfy | `models/Transaction.java` |
| `Currency` | currency.dfy | `utils/CurrencyUtils.java` |
| `Store` | store.dfy | the three tables |
| `ProductDao` | product_dao.dfy | `dao/ProductDAO.java` |
| `TransactionDao` | transaction_dao.dfy | `dao/TransactionDAO.java` |
| `Pos` | pos.dfy | `ui/POSPanel.java` |
| `Receipt` | receipt.dfy | `utils/ReceiptPrinter.java` |

The code does the following, which a reader might not expect:

- `save` takes each line's quantity off its product with the unguarded
  `stock = stock - ?`. Stock can go negative (`TransactionDao.SaveCanDriveStockNegative`).
  Only `updateStock` is guarded.
- `clearItems` keeps the discount percentage and the payment.
  `POSPanel.clearCart` then shows "0" in the discount field while the old
  percentage still applies to the next item (`Pos.ClearCartKeepsDiscount`).
- An out-of-range or unreadable discount is ignored without any message.
- `removeItem` works by position, and an index outside the list changes
  nothing at all.
- The quantity edit in the cart table applies any positive number with no
  stock check (`Pos.EditQuantityIgnoresStock`).
- `calculateTotals` refreshes the change only when the payment is positive.
  Otherwise a stale change survives (`Transactions.ChangeExamples`).
- `mapResultSetToTransaction` loads a header with subtotal 0, because
  `setDiscountPercent` re-totals the still empty line list. `findById` then
  repairs it through `setItems`.

## Model

Paths are relative to the repository root. All of them are below
`src/main/java/com/itsazni/kasir/hm/`.

| member | source | states |
|---|---|---|
| JavaTypes.Wrap | src/main/java/com/itsazni/kasir/hm/models/TransactionItem.java:69-71 | the result is a Java `int`, congruent to the exact sum modulo 2^32, and equal to it when no overflow happens |
| JavaTypes.WrapAddTwice | src/main/java/com/itsazni/kasir/hm/models/TransactionItem.java:69-71 | two wrapped `+=` in a row equal one `+=` of the wrapped sum |
| Decimal.RoundHalfUp2 | src/main/java/com/itsazni/kasir/hm/models/Transaction.java:121-122 | the result has at most two fraction digits and lies within half a cent of the input; a tie goes away from zero |
| Decimal.RoundHalfUp2OfCents | src/main/java/com/itsazni/kasir/hm/models/Transaction.java:121-122 | rounding leaves an amount that already has two fraction digits unchanged |
| Decimal.RoundHalfUp2Monotone | src/main/java/com/itsazni/kasir/hm/models/Transaction.java:121-122 | rounding preserves order |
| Decimal.RoundHalfUp2HalfWay | src/main/java/com/itsazni/kasir/hm/models/Transaction.java:121-122 | 33.325 rounds to 33.33 and −33.325 to −33.33 (HALF_UP, not HALF_EVEN) |
| Products.DefaultProduct | src/main/java/com/itsazni/kasir/hm/models/Product.java:20-24 | price 0, stock 0, minimum stock 5, no strings, so a new product is already low on stock |
| Products.NewProduct | src/main/java/com/itsazni/kasir/hm/models/Product.java:26-33 | every argument is stored verbatim, the id stays 0, and the product is low on stock iff stock ≤ minStock |
| Products.SettersAreIndependent | src/main/java/com/itsazni/kasir/hm/models/Product.java:36-68 | each setter stores its value in its own field and changes nothing else; the low-stock verdict follows stock and minimum stock only; setters of different fields commute |
| Items.DefaultItem | src/main/java/com/itsazni/kasir/hm/models/TransactionItem.java:17-21 | quantity 1, price 0, no name, and the line invariant holds |
| Items.OfProduct | src/main/java/com/itsazni/kasir/hm/models/TransactionItem.java:23-29 | the product's id, name and price are copied, the quantity is the argument, and subtotal = price × quantity |
| Items.CalculateSubtotal | src/main/java/com/itsazni/kasir/hm/models/TransactionItem.java:62-64 | establishes the line invariant and changes no other field |
| Items.SetQuantity | src/main/java/com/itsazni/kasir/hm/models/TransactionItem.java:45-48 | the new quantity is stored, every other input field is kept, and the invariant holds again |
| Items.SetPrice | src/main/java/com/itsazni/kasir/hm/models/TransactionItem.java:51-54 | the new price is stored, every other input field is kept, and the invariant holds again |
| Items.SetSubtotal | src/main/java/com/itsazni/kasir/hm/models/TransactionItem.java:57 | the value is stored verbatim; the result keeps the invariant iff the value equals price × quantity |
| Items.AddQuantity | src/main/java/com/itsazni/kasir/hm/models/TransactionItem.java:69-72 | the quantity grows by the argument in `int` arithmetic, identity and price are kept, and the invariant holds |
| Items.AddQuantityTwice | src/main/java/com/itsazni/kasir/hm/models/TransactionItem.java:69-72 | adding a and then b gives the same line as adding the `int` sum a + b once |
| Items.AddQuantityGrowsSubtotal | src/main/java/com/itsazni/kasir/hm/models/TransactionItem.java:62-72 | without overflow, adding q units adds price × q to a consistent line's subtotal |
| Transactions.SumSubtotalsConcat | src/main/java/com/itsazni/kasir/hm/models/Transaction.java:114-117 | the subtotal of two line lists put together is the sum of their subtotals |
| Transactions.SumSubtotalsUpdate | src/main/java/com/itsazni/kasir/hm/models/Transaction.java:114-117 | replacing one line changes the sum by the difference of the two lines' subtotals |
| Transactions.SumSubtotalsRemove | src/main/java/com/itsazni/kasir/hm/models/Transaction.java:114-117 | removing line k takes exactly its subtotal out of the sum |
| Transactions.SubtotalsAreLineValues | src/main/java/com/itsazni/kasir/hm/models/Transaction.java:114-117 | when every line keeps its invariant, the summed subtotals equal the summed price × quantity |
| Transactions.IndexOfProduct | src/main/java/com/itsazni/kasir/hm/models/Transaction.java:80-86 | the result is the first line with the product id, or the list length when no line has it |
| Transactions.IndexOfProductUnique | src/main/java/com/itsazni/kasir/hm/models/Transaction.java:80-86 | any position with the first-match property is the one the search returns |
| Transactions.NewTransaction | src/main/java/com/itsazni/kasir/hm/models/Transaction.java:24-33 | no lines, every amount 0, the current time, and the totals invariant holds |
| Transactions.CalculateChange | src/main/java/com/itsazni/kasir/hm/models/Transaction.java:139-141 | change + total = payment, so the change may be negative; nothing else changes |
| Transactions.CalculateTotals | src/main/java/com/itsazni/kasir/hm/models/Transaction.java:112-134 | establishes the totals invariant (subtotal = Σ line subtotals, discount from the percentage, total = subtotal − discount, change refreshed only for a positive payment), keeps lines, percentage, payment and identity, and keeps the old change when payment ≤ 0 |
| Transactions.CalculateTotalsFixedPoint | src/main/java/com/itsazni/kasir/hm/models/Transaction.java:112-134 | re-totalling a totalled cart changes nothing |
| Transactions.SetPayment | src/main/java/com/itsazni/kasir/hm/models/Transaction.java:61-64 | stores the payment and sets change = payment − total unconditionally; nothing else changes |
| Transactions.SetDiscountPercent | src/main/java/com/itsazni/kasir/hm/models/Transaction.java:49-52 | stores the percentage with no range check, keeps id, cashier, date, lines and payment, re-totals so the totals invariant holds, and a payment that is not positive leaves the stale change |
| Transactions.SetItems | src/main/java/com/itsazni/kasir/hm/models/Transaction.java:70-73 | installs the lines, keeps percentage, payment and identity, and the totals invariant holds |
| Transactions.AddItem | src/main/java/com/itsazni/kasir/hm/models/Transaction.java:78-89 | a line for a product already present absorbs the quantity in place and every other line is untouched; otherwise the item is appended; id, cashier, date, percentage and payment stay, the totals invariant holds, line invariants are preserved, and a payment that is not positive leaves the stale change |
| Transactions.AddItemCountsQuantity | src/main/java/com/itsazni/kasir/hm/models/Transaction.java:78-89 | after `addItem` the `int` item count has grown by the incoming quantity, whether the line merged or was appended |
| Transactions.AddItemSubtotal | src/main/java/com/itsazni/kasir/hm/models/Transaction.java:78-89 | an appended line adds its subtotal; a merged consistent line adds price × incoming quantity |
| Transactions.AddSameProductTwice | src/main/java/com/itsazni/kasir/hm/models/Transaction.java:78-89 | two items of one new product end up as one appended line with the summed quantity |
| Transactions.RemoveItem | src/main/java/com/itsazni/kasir/hm/models/Transaction.java:94-99 | an index outside the list changes nothing; otherwise exactly that line goes, the others keep their order, id, cashier, date, percentage and payment stay, the totals invariant holds, and a payment that is not positive leaves the stale change |
| Transactions.RemoveItemSubtotal | src/main/java/com/itsazni/kasir/hm/models/Transaction.java:94-99 | removing a line takes exactly its stored subtotal out of the cart's subtotal |
| Transactions.ClearItems | src/main/java/com/itsazni/kasir/hm/models/Transaction.java:104-107 | no lines, and subtotal, discount and total are 0; id, cashier, date, percentage and payment stay; a positive payment becomes the change, otherwise the old change stays |
| Transactions.GetTotalItems | src/main/java/com/itsazni/kasir/hm/models/Transaction.java:146-152 | the count is the sum of the line quantities in `int` arithmetic, and the exact sum when that fits in an `int` |
| Transactions.DiscountBounds | src/main/java/com/itsazni/kasir/hm/models/Transaction.java:119-128 | for a percentage in [0, 100] and a non-negative subtotal in whole cents, 0 ≤ discount ≤ subtotal, so the total is never negative |
| Transactions.DiscountExamples | src/main/java/com/itsazni/kasir/hm/models/Transaction.java:119-125 | 10% of 100000 is 10000; 33.33% of 9999 is 3332.67 after rounding; 0% gives no discount |
| Transactions.SubtotalIsSumOfLineValues | src/main/java/com/itsazni/kasir/hm/models/Transaction.java:112-117 | a totalled cart of consistent lines has subtotal = Σ price × quantity |
| Transactions.DiscountRoundTrip | src/main/java/com/itsazni/kasir/hm/models/Transaction.java:49-52 | setting a percentage and then 0 is the same as setting 0, and then the total is the plain subtotal |
| Transactions.ChangeExamples | src/main/java/com/itsazni/kasir/hm/models/Transaction.java:61-64 | against a total of 50000, paying 60000, 50000 and 40000 gives change 10000, 0 and −10000; re-totalling with payment 0 keeps a stale change |
| Currency.StripToNumeric | src/main/java/com/itsazni/kasir/hm/utils/CurrencyUtils.java:46 | only ASCII digits, ',' and '.' survive; text made only of such characters is kept whole, and text with none of them becomes empty |
| Currency.CommasToDots | src/main/java/com/itsazni/kasir/hm/utils/CurrencyUtils.java:48 | same length; each ',' becomes '.', every other character is kept |
| Currency.ReadDecimal | src/main/java/com/itsazni/kasir/hm/utils/CurrencyUtils.java:51 | a digits-and-dots string reads iff it has at least one digit and at most one '.', and the value is never negative |
| Currency.Parse | src/main/java/com/itsazni/kasir/hm/utils/CurrencyUtils.java:42-55 | null or empty text is 0; otherwise the cleaned text's value, or 0 when it does not read; never negative |
| Currency.ParseReadsWholeNumber | src/main/java/com/itsazni/kasir/hm/utils/CurrencyUtils.java:46-51 | any number written in decimal, with only stripped characters around it, reads as itself |
| Currency.ParseCurrencyPrefixExample | src/main/java/com/itsazni/kasir/hm/utils/CurrencyUtils.java:46-51 | "Rp 50000" reads as 50000 |
| Currency.ParseWithoutDigits | src/main/java/com/itsazni/kasir/hm/utils/CurrencyUtils.java:50-54 | text without a single digit, such as "abc" or "-", reads as 0 |
| Currency.ParseSeparatedNumber | src/main/java/com/itsazni/kasir/hm/utils/CurrencyUtils.java:46-51 | digits, one ',' or '.', digits read as a whole part plus a fraction, so the separator is a decimal point |
| Currency.ParseThousandsSeparatorExample | src/main/java/com/itsazni/kasir/hm/utils/CurrencyUtils.java:48-51 | "10.000" reads as 10, not ten thousand |
| Currency.ParseTwoSeparators | src/main/java/com/itsazni/kasir/hm/utils/CurrencyUtils.java:50-54 | two separators anywhere make the text unreadable, so it reads as 0 |
| Currency.ParseTwoSeparatorsExample | src/main/java/com/itsazni/kasir/hm/utils/CurrencyUtils.java:50-54 | "1.000.000" reads as 0 |
| Currency.CleanOfComma | src/main/java/com/itsazni/kasir/hm/utils/CurrencyUtils.java:46-48 | a ',' between two digit strings is cleaned into a '.' |
| Digits.NatToStringRoundTrip | src/main/java/com/itsazni/kasir/hm/ui/POSPanel.java:434 | a number written with `String.valueOf` reads back as itself |
| Digits.ZeroPadValue | src/main/java/com/itsazni/kasir/hm/utils/ReceiptPrinter.java:94 | zero-padding keeps a numeral all digits and keeps its value |
| ProductDao.UpdateStock | src/main/java/com/itsazni/kasir/hm/dao/ProductDAO.java:224-239 | only rows of the product with stock ≥ quantity lose the quantity, and every other row and field is unchanged; when the statement runs, true iff such a row exists; on false the store is unchanged |
| ProductDao.UpdateStockReportsChange | src/main/java/com/itsazni/kasir/hm/dao/ProductDAO.java:224-234 | for a non-zero quantity, the verdict is true iff the table changed |
| ProductDao.UpdateStockKeepsStockNonNegative | src/main/java/com/itsazni/kasir/hm/dao/ProductDAO.java:225 | the guarded decrement never takes a non-negative stock below zero |
| ProductDao.AddStock | src/main/java/com/itsazni/kasir/hm/dao/ProductDAO.java:244-258 | every row of the product gains the quantity unconditionally and no other row or field changes; when the statement runs, true iff such a row exists |
| ProductDao.AddStockUndoesUpdateStock | src/main/java/com/itsazni/kasir/hm/dao/ProductDAO.java:224-258 | with unique ids, a successful guarded decrement followed by `addStock` of the same quantity restores the table |
| ProductDao.LowStockRows | src/main/java/com/itsazni/kasir/hm/dao/ProductDAO.java:110 | a product is in the result iff it is in the table and at or below its minimum stock |
| ProductDao.SortByStock | src/main/java/com/itsazni/kasir/hm/dao/ProductDAO.java:110 | the result is a permutation of the input in ascending stock order |
| ProductDao.FindLowStock | src/main/java/com/itsazni/kasir/hm/dao/ProductDAO.java:108-123 | when the query runs, exactly the low-stock rows, each as often as in the table, sorted by ascending stock |
| ProductDao.CountBarcode | src/main/java/com/itsazni/kasir/hm/dao/ProductDAO.java:281 | the count is positive iff the barcode is non-null and some row other than the excluded id carries it |
| ProductDao.BarcodeExists | src/main/java/com/itsazni/kasir/hm/dao/ProductDAO.java:280-297 | when the query runs, true iff the barcode is non-null and some product with a different id carries it |
| TransactionDao.HeaderRow | src/main/java/com/itsazni/kasir/hm/dao/TransactionDAO.java:40-47 | the header row copies the user and all six amounts verbatim under the given id and time |
| TransactionDao.ItemRows | src/main/java/com/itsazni/kasir/hm/dao/TransactionDAO.java:61-69 | one row per line, in line order, equal to the line apart from the new row id and the sale id |
| TransactionDao.DecrementStock | src/main/java/com/itsazni/kasir/hm/dao/TransactionDAO.java:71-76 | every product loses the total quantity the lines take of it, with no lower bound, and nothing else changes |
| TransactionDao.Save | src/main/java/com/itsazni/kasir/hm/dao/TransactionDAO.java:30-102 | saved iff no fault; on any fault the store is unchanged; on success one header row, the item rows and the stock decrements are written and the next key advances; the transaction gets the generated id on success or when the key was read before the failure, and is otherwise returned unchanged |
| TransactionDao.SavePreservesWellFormed | src/main/java/com/itsazni/kasir/hm/dao/TransactionDAO.java:30-81 | saving keeps every key below the next key and every quantity a Java `int` |
| TransactionDao.SaveCanDriveStockNegative | src/main/java/com/itsazni/kasir/hm/dao/TransactionDAO.java:71-76 | selling more than the stock on hand is committed and leaves a negative stock |
| TransactionDao.SaveEmptyCart | src/main/java/com/itsazni/kasir/hm/dao/TransactionDAO.java:30-81 | an empty cart is saved: a header row, no item rows, no stock change |
| TransactionDao.LoadItem | src/main/java/com/itsazni/kasir/hm/dao/TransactionDAO.java:258-265 | because `setSubtotal` runs last, the line loaded from a row equals the row, stored subtotal included |
| TransactionDao.FindItemsByTransactionId | src/main/java/com/itsazni/kasir/hm/dao/TransactionDAO.java:247-272 | at most one line per stored row, and every loaded line carries the requested sale id |
| TransactionDao.FindItemsMembership | src/main/java/com/itsazni/kasir/hm/dao/TransactionDAO.java:247-272 | a line is found iff it is a row of the table carrying the sale id |
| TransactionDao.FindItemsConcat | src/main/java/com/itsazni/kasir/hm/dao/TransactionDAO.java:247-272 | the lookup over two row lists put together is the two lookups put together |
| TransactionDao.FindItemsAll | src/main/java/com/itsazni/kasir/hm/dao/TransactionDAO.java:247-272 | rows that all belong to the sale come back verbatim, in table order |
| TransactionDao.FindItemsNone | src/main/java/com/itsazni/kasir/hm/dao/TransactionDAO.java:247-272 | no row is found for a sale id above every stored one |
| TransactionDao.MapRow | src/main/java/com/itsazni/kasir/hm/dao/TransactionDAO.java:277-295 | the loaded header has no lines and subtotal 0, while id, user, percentage, discount, total, payment and change come from the row; the date comes from the row, and a null date column keeps the construction time |
| TransactionDao.FindSale | src/main/java/com/itsazni/kasir/hm/dao/TransactionDAO.java:108-116 | none iff no header row has the id; otherwise a row of the table with that id |
| TransactionDao.FindById | src/main/java/com/itsazni/kasir/hm/dao/TransactionDAO.java:107-125 | when the queries run: null iff no header row has the id; otherwise the transaction carries the id and the lines of that sale, takes cashier, date (construction time when null), percentage and payment from the first header row with that id, keeps the stored change when the payment is not positive, and the totals invariant holds |
| TransactionDao.SaveThenFindById | src/main/java/com/itsazni/kasir/hm/dao/TransactionDAO.java:30-125 | loading a freshly saved totalled sale under its new id gives the saved transaction back, with the database time and the stored item rows as lines, in table order |
| Pos.Initial | src/main/java/com/itsazni/kasir/hm/ui/POSPanel.java:61-67 | an empty, totalled cart owned by the cashier, with id 0, no discount, nothing paid and both fields showing "0" |
| Pos.InitialInSync | src/main/java/com/itsazni/kasir/hm/ui/POSPanel.java:401-402 | the panel starts with the payment field reading "0" and the cart's payment and change agreeing with it |
| Pos.HandlersKeepPaymentInSync | src/main/java/com/itsazni/kasir/hm/ui/POSPanel.java:647-760 | every cart handler leaves the cart's payment and change in step with the payment field |
| Pos.Refresh | src/main/java/com/itsazni/kasir/hm/ui/POSPanel.java:714-731 | the leniently parsed payment field becomes the payment and change = payment − total; the payment is never negative and nothing else changes |
| Pos.RefreshIdempotent | src/main/java/com/itsazni/kasir/hm/ui/POSPanel.java:714-731 | refreshing a cart whose payment already reflects the field changes nothing |
| Pos.EnterPayment | src/main/java/com/itsazni/kasir/hm/ui/POSPanel.java:406-411 | the payment field's text is kept and payment and change follow it; the rest of the cart, the discount field and the cashier are unchanged |
| Pos.QuickAmountPays | src/main/java/com/itsazni/kasir/hm/ui/POSPanel.java:427-436 | a quick-payment button pays exactly its amount, and the change is that amount minus the total |
| Pos.AddToCart | src/main/java/com/itsazni/kasir/hm/ui/POSPanel.java:647-670 | refused iff the product has no stock, or the cart already holds at least its stock; a refusal changes nothing; otherwise one unit goes through `addItem` |
| Pos.AddToCartRespectsStock | src/main/java/com/itsazni/kasir/hm/ui/POSPanel.java:654-668 | a successful add raises the product's quantity in the cart by exactly one and keeps it at most the stock |
| Pos.RemoveFromCart | src/main/java/com/itsazni/kasir/hm/ui/POSPanel.java:672-675 | apart from payment and change the cart is the result of `removeItem`; the payment follows the field; both fields and the cashier are unchanged |
| Pos.EditQuantity | src/main/java/com/itsazni/kasir/hm/ui/POSPanel.java:323-337 | a positive parsed number replaces that row's quantity, leaves every other line alone and re-totals; anything else changes nothing |
| Pos.EditQuantityIgnoresStock | src/main/java/com/itsazni/kasir/hm/ui/POSPanel.java:323-337 | the edit can put more of a product in the cart than is in stock |
| Pos.ApplyDiscount | src/main/java/com/itsazni/kasir/hm/ui/POSPanel.java:702-712 | a parsed percentage in [0, 100] is applied and the cart re-totalled; anything else leaves the cart exactly as it was; the discount field keeps the typed text, and the payment field, the cashier and the sale's id, cashier and date never change |
| Pos.ClearCart | src/main/java/com/itsazni/kasir/hm/ui/POSPanel.java:677-682 | no lines, total 0 and totalled, the fields show "0" and "", nothing paid; id, cashier, date and the discount percentage survive |
| Pos.ClearCartKeepsDiscount | src/main/java/com/itsazni/kasir/hm/ui/POSPanel.java:677-682 | after clearing a 10% cart, a 1000 item totals 900 while the discount field reads "0" |
| Pos.ProcessPayment | src/main/java/com/itsazni/kasir/hm/ui/POSPanel.java:733-760 | an empty cart or an underpayment is refused without touching store or cart; otherwise `save` runs; after a saved sale the panel is the freshly constructed one for the cashier (no lines, no discount, id 0, the application's clock) except for the emptied payment field; a failed save leaves the store and the panel as they were, except for the id when the key had been read |
| Pos.SaleStampsBothClocks | src/main/java/com/itsazni/kasir/hm/ui/POSPanel.java:739-748 | a completed sale stores its header with the database's time, while the next cart carries the application's time |
| Pos.SavedSaleIsPaid | src/main/java/com/itsazni/kasir/hm/ui/POSPanel.java:739-745 | a sale that reaches the store has payment ≥ total and a non-negative change |
| Receipt.Center | src/main/java/com/itsazni/kasir/hm/utils/ReceiptPrinter.java:155-159 | text at least as wide as the field is returned as is; otherwise it is left-padded with ⌊slack/2⌋ spaces and has no right padding |
| Receipt.RightAlign | src/main/java/com/itsazni/kasir/hm/utils/ReceiptPrinter.java:161-165 | title, at least one space, value; exactly the width when both fit with a space between them, otherwise one space |
| Receipt.Truncate | src/main/java/com/itsazni/kasir/hm/utils/ReceiptPrinter.java:167-170 | text within the limit is kept; longer text becomes its first limit − 2 characters plus "..", exactly the limit long |
| Receipt.TruncateIdempotent | src/main/java/com/itsazni/kasir/hm/utils/ReceiptPrinter.java:167-170 | truncated text fits the limit, and truncating it again changes nothing |
| Receipt.FormatId5 | src/main/java/com/itsazni/kasir/hm/utils/ReceiptPrinter.java:94 | at least five characters, and a leading minus iff the id is negative |
| Receipt.FormatId5RoundTrip | src/main/java/com/itsazni/kasir/hm/utils/ReceiptPrinter.java:94 | the printed number reads back as the id (its magnitude after the sign), and it is exactly five digits for ids up to 99999 |
| Receipt.NameLine | src/main/java/com/itsazni/kasir/hm/utils/ReceiptPrinter.java:101 | an item's name line is at most 22 characters; a name that fits is printed whole, and a longer one as its first 20 characters plus ".." |
| Receipt.ItemLinesAt | src/main/java/com/itsazni/kasir/hm/utils/ReceiptPrinter.java:100-106 | item i owns lines 2i (its name) and 2i + 1 (quantity, price and subtotal), in item order |
| Receipt.HeaderLines | src/main/java/com/itsazni/kasir/hm/utils/ReceiptPrinter.java:88-97 | eight lines: the centred store name, kind and address, a divider, the sale number, the date, the cashier and a thin divider |
| Receipt.DiscountLineCount | src/main/java/com/itsazni/kasir/hm/utils/ReceiptPrinter.java:113-116 | one discount line iff the percentage is positive, otherwise none |
| Receipt.TotalsLines | src/main/java/com/itsazni/kasir/hm/utils/ReceiptPrinter.java:108-126 | a thin divider, the subtotal, the optional discount line, a divider, total, payment and change, a divider and the two centred closing lines; the discount line shifts everything after it down by one |
| Receipt.ReceiptLines | src/main/java/com/itsazni/kasir/hm/utils/ReceiptPrinter.java:82-129 | 17 + 2n + d lines: header, the item lines in order, then the totals; each amount sits at its fixed position relative to the item count and the discount line |
| Receipt.Split | src/main/java/com/itsazni/kasir/hm/utils/ReceiptPrinter.java:143 | text without a newline is the single piece, even when empty; otherwise no piece contains a newline and the last piece is not empty |
| Receipt.SplitPieces | src/main/java/com/itsazni/kasir/hm/utils/ReceiptPrinter.java:143 | the pieces written back one per line give the text plus a final newline, short of a tail made only of newlines, which is what `split` drops |
| Receipt.SplitJoinRoundTrip | src/main/java/com/itsazni/kasir/hm/utils/ReceiptPrinter.java:143 | splitting newline-terminated lines that hold no newline and do not end with an empty line gives the lines back |
| Receipt.PrintedLines | src/main/java/com/itsazni/kasir/hm/utils/ReceiptPrinter.java:143-149 | the print routine draws exactly the receipt's lines, in order |

## Left out

- Swing presentation is not modelled: layouts, renderers, colours, dialogs, the
  receipt preview window and the other panels. Only the decisions the cart
  logic makes are kept.
- The barcode scanner and the camera handling are left out. They are
  background threads and foreign libraries.
- JDBC mechanics are replaced by value-level tables: connections, statements,
  auto-commit and the `finally` reset.
- The read queries other than `findById` are left out: `findAll`,
  `findByDateRange`, `findToday`, the daily and today sums, and the product
  searches. They are thin wrappers over MySQL semantics.
- `loadProducts` after a sale is left out. It only re-reads the product list
  for display.
- `save` when the database returns no generated key is not modelled. The model
  assumes `keys.next()` succeeds after a header insert that affected a row.
- AUTO_INCREMENT gaps are not modelled: the next key is always the previous one
  plus one.
- Decimal columns are stored verbatim. The schema is not part of this model,
  so any rounding to the column's scale on insert is not modelled.
- The MySQL `INT` overflow of the stock column is not modelled.
- `TransactionDao.DecrementStock`: stock is an unbounded integer. The 32-bit
  range of the stock column is not modelled, because the schema is not part
  of this model.
- Null `BigDecimal` amounts and a null item list are not modelled. Every
  amount is a number.
- `Receipt.NameLine` requires a name. A line with a null product name makes
  the source throw a `NullPointerException` in `truncate`, and that path is
  not modelled.
- `Receipt.ReceiptLines` does not interpret the amounts. The currency format,
  the date format and `BigDecimal.toString` are parameters, because they
  depend on the JDK's locale data.
- `Pos.EditQuantity` takes the result of `Integer.parseInt` as an `Option`
  argument instead of modelling the JDK parser. It requires a row inside the
  table, which is what the table model's event delivers.
- `Pos.ApplyDiscount` takes the result of `new BigDecimal(text.trim())` as an
  `Option` argument, for the same reason.
- `ProductDao.UpdateStock`: the `SQLException` path is not modelled. There the
  source logs and returns `false` with the table unchanged, exactly as for a
  refused update, so the verdict only reads "true iff such a row exists" when
  the statement runs.
- `ProductDao.AddStock`: the `SQLException` path is not modelled. There the
  source logs and returns `false`.
- `ProductDao.FindLowStock`: the `SQLException` path is not modelled. There the
  source returns the rows read so far, possibly none.
- `ProductDao.BarcodeExists`: the `SQLException` path is not modelled. There the
  source returns `false`, so a database error reports a duplicate barcode as
  free.
- `TransactionDao.FindItemsByTransactionId`: the `SQLException` path is not
  modelled. There the source returns the lines read so far, possibly none.
  The model also returns the rows in table order. The query has no
  `ORDER BY`, so SQL does not guarantee that order, and the ordered results
  of `TransactionDao.FindItemsAll` and `TransactionDao.SaveThenFindById`
  rely on it.
- `TransactionDao.FindById`: the `SQLException` path is not modelled. There the
  source returns null, which a caller cannot tell apart from an unknown id.
- `ProductDao.FindLowStock` does not fix the order among products with equal
  stock. SQL `ORDER BY stock` leaves ties unspecified, so the contract states
  only sortedness and the multiset of rows.
- `Products.SetStock`, `Products.SetMinStock`, `Products.SetPrice` and
  `Products.SetBarcode` carry no contract of their own. That each stores its
  value and changes nothing else is stated in `Products.SettersAreIndependent`. The other setters of `Product`
  are plain field updates and are not modelled.
- `Transactions.AddItem` does not model Java list aliasing. The incoming
  item object is appended itself in the source, so a later change to that
  object would show in the cart. The model copies values.
- The timestamps `createdAt` and `updatedAt` are copied and never
  interpreted.
- `Receipt.Truncate`: lengths and cuts count Unicode code points. Java's
  `length()` and `substring` count UTF-16 code units, so text with a character
  outside the Basic Multilingual Plane pads and truncates differently, and the
  Java cut can split a surrogate pair. The same holds for `Receipt.Center`,
  `Receipt.RightAlign` and `Receipt.NameLine`.
- `ProductDao.BarcodeExists`: barcodes are compared exactly. SQL `=` follows
  the column's collation, and MySQL's default collations ignore case and
  trailing spaces. The schema is not part of this model, so that comparison is
  not modelled. The same holds for `ProductDao.CountBarcode`.
- The `User` model, authentication and configuration are outside the sales
  core and are left out.
