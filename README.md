# Vastra POS: the checkout and inventory core

Vastra is a point-of-sale desktop application for a clothing shop. It keeps products, customers
and sales in an SQLite database. This project models its core:

- **Data model.** The products, customers, sales and sale items, and the cart lines.
- **Data-access layer.** The product, customer and sale DAOs, with `completeSale`'s transaction:
  - it inserts the sale;
  - it inserts one item row per cart line;
  - it decrements stock under the guard `stock >= ?`;
  - it awards one loyalty point per 100 rupees;
  - on any failure it rolls back its connection, which the model takes to undo the stock and points
    writes as well (see `SalesDao.CompleteSale` under "Left out").
- **Checkout screen.** `MainController`'s cart, the barcode scanner's key listener, the lookup of
  a scanned code, points redemption and sale completion.
- **Add-product form.** `ProductFormController`'s validation and save, with the `String.trim` and
  `Integer.parseInt` that the form relies on.

How the model is laid out:

- **Database.** It is a `Store` class with one `seq` of rows per table, in scan order. Its
  `Valid()` predicate is the primary-key invariant: ids are unique.
- **Row operations.** Every `UPDATE … WHERE` is a function over the rows, such as `Decrement`,
  `AddPointsRows`, `Redeem` or `AwardPoints`.
- **DAO methods.** They are Dafny methods that modify the store and are proved against those
  functions.
- **Objects that Java updates in place.** The cart items and the controller's cart, customer,
  discount and key buffer are Dafny classes, and their methods are proved against value-level
  functions (`AddToCartLines`, `ScanResult`, `KeyStep`, `RedeemDecision`).
- **Money.** It is in cents (`int`).
- **Java's `/`.** It truncates toward zero, which is written out as `JavaDiv`.

## Model

| member | source | states |
|---|---|---|
| CartItems.CartLine.SubtotalCents | Vastra/src/main/java/com/vastra/model/CartItem.java:38-40 | a line's subtotal is its product's price times its quantity, as `Product.calculateLineTotal` gives it |
| CartItems.CartLine.LineTotalCents | Vastra/src/main/java/com/vastra/model/CartItem.java:26-28 | the line total and the line's discount add up to the subtotal |
| CartItems.CartLine.Incremented | Vastra/src/main/java/com/vastra/model/CartItem.java:23 | the quantity grows by one; the product and discount are kept |
| CartItems.CartLine.Decremented | Vastra/src/main/java/com/vastra/model/CartItem.java:24 | the quantity drops by one when above 1, otherwise the line is unchanged |
| CartItems.DecrementKeepsQuantityPositive | Vastra/src/main/java/com/vastra/model/CartItem.java:24 | decrementing never takes a positive quantity below 1 |
| CartItems.IncrementThenDecrement | Vastra/src/main/java/com/vastra/model/CartItem.java:23-24 | a decrement undoes an increment on any positive quantity |
| CartItems.NewLineTotalIsSubtotal | Vastra/src/main/java/com/vastra/model/CartItem.java:8-12 | a new item has no discount, so its line total is its subtotal |
| CartItems.CartItem.constructor | Vastra/src/main/java/com/vastra/model/CartItem.java:8-12 | a new item holds the product and quantity with a zero discount |
| CartItems.CartItem.IncrementQuantity | Vastra/src/main/java/com/vastra/model/CartItem.java:23 | the object's new line is the old line incremented |
| CartItems.CartItem.DecrementQuantity | Vastra/src/main/java/com/vastra/model/CartItem.java:24 | the object's new line is the old line decremented (floor 1) |
| CartItems.CartItem.SetQuantity | Vastra/src/main/java/com/vastra/model/CartItem.java:18 | only the quantity changes, to the given value |
| Customers.Customer.FullAddress | Vastra/src/main/java/com/vastra/model/Customer.java:83-97 | the address is empty exactly when none of address, city and pincode has text |
| Customers.FullAddressCases | Vastra/src/main/java/com/vastra/model/Customer.java:83-97 | the joined address for each of the eight present/absent combinations, with ", " before the city and " - " before the pincode only after earlier text |
| Customers.FullAddressSinglePart | Vastra/src/main/java/com/vastra/model/Customer.java:83-97 | a single present part is the whole address, with no separator |
| Customers.FullAddressStartsWithAPart | Vastra/src/main/java/com/vastra/model/Customer.java:83-97 | a non-empty address starts with its first present part |
| Products.Product.DisplayName | Vastra/src/main/java/com/vastra/model/Product.java:99-103 | the name, extended by " - variant" exactly when the variant has text |
| Products.Product.FullDisplayName | Vastra/src/main/java/com/vastra/model/Product.java:105-114 | extends the display name, and equals it exactly when the brand has no text |
| Products.Product.ProfitMargin | Vastra/src/main/java/com/vastra/model/Product.java:125-128 | zero without a purchase price; otherwise the markup over purchase price in percent |
| Products.FullDisplayNameExtendsDisplayName | Vastra/src/main/java/com/vastra/model/Product.java:105-114 | the full name is the display name plus " (brand)" when a brand is set |
| Products.PlainNames | Vastra/src/main/java/com/vastra/model/Product.java:99-114 | with no variant and no brand both names are the bare name |
| Products.NegativeStockIsLowButNotOut | Vastra/src/main/java/com/vastra/model/Product.java:134-140 | a negative stock counts as low stock but not as out of stock, since the out-of-stock test is `== 0` |
| Products.LineTotalIsLinear | Vastra/src/main/java/com/vastra/model/Product.java:121-123 | the line total is additive in the quantity and zero for none |
| ProductDao.ExtractProduct | Vastra/src/main/java/com/vastra/dao/ProductDAO.java:122-168 | every column is copied; each nullable text column reads as its text, or as "" when NULL ("PCS" for a NULL unit); active means `is_active == 1` |
| ProductDao.ExtractIsStable | Vastra/src/main/java/com/vastra/dao/ProductDAO.java:122-168 | reading back a product's own column values gives the same product: the NULL defaults are stable |
| ProductDao.LowStockAgreesWithQuery | Vastra/src/main/java/com/vastra/dao/ProductDAO.java:82-93 | the model's `isLowStock` agrees with the query's `stock <= reorder_threshold` |
| ProductDao.FindById | Vastra/src/main/java/com/vastra/dao/ProductDAO.java:31-42 | a product is found exactly when a row has the id, and it is that row's product |
| ProductDao.FindBySku | Vastra/src/main/java/com/vastra/dao/ProductDAO.java:108-120 | NULL or blank SKUs find nothing; otherwise found exactly when a row carries that SKU, and the result is the first such row's product |
| ProductDao.FindByBarcode | Vastra/src/main/java/com/vastra/ui/controllers/MainController.java:181 | found exactly when a row carries the code as its barcode, and the result is the first such row's product |
| ProductDao.ExtractAll | Vastra/src/main/java/com/vastra/dao/ProductDAO.java:101-103 | one extracted product per row, in order |
| ProductDao.InExtractAll | Vastra/src/main/java/com/vastra/dao/ProductDAO.java:101-103 | a product is listed exactly when some row extracts to it |
| ProductDao.LexLeqTotal | Vastra/src/main/java/com/vastra/dao/ProductDAO.java:96 | the text order of `ORDER BY name` relates every pair of names |
| ProductDao.LexLeqTransitive | Vastra/src/main/java/com/vastra/dao/ProductDAO.java:96 | that order is transitive |
| ProductDao.StockOrderIsTotal | Vastra/src/main/java/com/vastra/dao/ProductDAO.java:83 | `ORDER BY stock` is a total preorder |
| ProductDao.NameOrderIsTotal | Vastra/src/main/java/com/vastra/dao/ProductDAO.java:96 | `ORDER BY name` is a total preorder |
| ProductDao.LowStockProducts | Vastra/src/main/java/com/vastra/dao/ProductDAO.java:82-93 | sorted by ascending stock, and a permutation of the low-stock rows' products |
| ProductDao.LowStockProductsAreTheLowRows | Vastra/src/main/java/com/vastra/dao/ProductDAO.java:82-93 | a product is listed exactly when a row at or below its re-order level gives it; each one listed is low on stock |
| ProductDao.InFilter | Vastra/src/main/java/com/vastra/dao/ProductDAO.java:83 | the WHERE filter keeps exactly the rows that satisfy it |
| ProductDao.AllProducts | Vastra/src/main/java/com/vastra/dao/ProductDAO.java:95-106 | sorted by name, a permutation of every row's product |
| ProductDao.DecrementRows | Vastra/src/main/java/com/vastra/dao/ProductDAO.java:68-80 | succeeds exactly when a row with the id has stock ≥ quantity; only stock changes; the matching rows drop by the quantity and stay non-negative |
| ProductDao.SetStock | Vastra/src/main/java/com/vastra/dao/ProductDAO.java:58-66 | the rows with the id get the new stock; every other column and row is kept |
| ProductDao.StockOf | Vastra/src/main/java/com/vastra/dao/ProductDAO.java:31-42 | present exactly when a row has the id; with unique ids it is that row's stock |
| ProductDao.DecrementSucceedsIff | Vastra/src/main/java/com/vastra/dao/ProductDAO.java:68-80 | with unique ids: success exactly when the stock covers the quantity; that stock drops by the quantity and every other product's is kept |
| ProductDao.SetStockKeepsIds | Vastra/src/main/java/com/vastra/dao/ProductDAO.java:58-66 | an update keeps every id and so the primary key |
| ProductDao.InsertThenFind | Vastra/src/main/java/com/vastra/dao/ProductDAO.java:12-42 | inserting a row with a fresh id keeps ids unique, and findById then returns its product |
| ProductDao.DecrementStock | Vastra/src/main/java/com/vastra/dao/ProductDAO.java:68-80 | `false` (the SQLException) exactly when no row is updated, and then nothing changes; otherwise the products become `Decrement`'s rows |
| ProductDao.UpdateStock | Vastra/src/main/java/com/vastra/dao/ProductDAO.java:58-66 | the products become `SetStock`'s rows; the other tables are untouched |
| ProductDao.AddProduct | Vastra/src/main/java/com/vastra/dao/ProductDAO.java:12-29 | the row is appended exactly when its id is free (primary key); otherwise nothing changes |
| ProductDao.InsertProduct | Vastra/src/main/java/com/vastra/dao/ProductDAO.java:12-29 | inserts exactly when the id is free: the inserted row is appended after the existing rows, which are kept, and findById then returns its values |
| CustomerDao.ExtractCustomer | Vastra/src/main/java/com/vastra/dao/CustomerDAO.java:82-123 | every column is copied; each nullable text column reads as its text, or as "" when NULL ("BRONZE" for a NULL tier); active means `is_active == 1` |
| CustomerDao.NullAndEmptyAddressAgree | Vastra/src/main/java/com/vastra/dao/CustomerDAO.java:91-92 | a NULL address column and an empty one give the same full address |
| CustomerDao.FindByPhone | Vastra/src/main/java/com/vastra/dao/CustomerDAO.java:13-24 | found exactly when a row has the phone, and it is the first such row's customer |
| CustomerDao.FindById | Vastra/src/main/java/com/vastra/dao/CustomerDAO.java:69-80 | found exactly when a row has the id; with unique ids it is that row's customer |
| CustomerDao.PointsOf | Vastra/src/main/java/com/vastra/dao/CustomerDAO.java:69-80 | present exactly when a row has the id; with unique ids it is that row's balance |
| CustomerDao.AddPointsRows | Vastra/src/main/java/com/vastra/dao/CustomerDAO.java:45-53 | only balances change, and only the id's rows gain the points |
| CustomerDao.Redeem | Vastra/src/main/java/com/vastra/dao/CustomerDAO.java:55-67 | succeeds exactly when a row with the id has at least the points; only balances change, and with unique ids only that one |
| CustomerDao.RedeemSucceedsIff | Vastra/src/main/java/com/vastra/dao/CustomerDAO.java:55-67 | with unique ids: success exactly when the balance covers the points; that balance drops by them and every other balance is kept |
| CustomerDao.AddPointsChangesOnlyThatBalance | Vastra/src/main/java/com/vastra/dao/CustomerDAO.java:45-53 | the primary key is kept; an unknown id changes nothing; the id's balance rises by the points; every other balance is kept |
| CustomerDao.AddThenRedeemRestores | Vastra/src/main/java/com/vastra/dao/CustomerDAO.java:45-67 | redeeming the points just added succeeds and restores the table |
| CustomerDao.AddPoints | Vastra/src/main/java/com/vastra/dao/CustomerDAO.java:45-53 | the customers become `AddPointsRows`'s rows; the other tables are untouched |
| CustomerDao.RedeemPoints | Vastra/src/main/java/com/vastra/dao/CustomerDAO.java:55-67 | `false` (the SQLException) exactly when no row is updated, and then nothing changes; otherwise the customers become `Redeem`'s rows |
| CustomerDao.CreateThenFindByPhone | Vastra/src/main/java/com/vastra/dao/CustomerDAO.java:26-43 | after the insert the phone is found; with no earlier holder of the phone it is the new customer with zero points |
| CustomerDao.CreateCustomer | Vastra/src/main/java/com/vastra/dao/CustomerDAO.java:26-43 | a taken id fails and changes nothing; otherwise a zero-point row is appended and the result is findByPhone of the phone |
| SalesDao.SubtotalAppend | Vastra/src/main/java/com/vastra/dao/SalesDAO.java:24-30 | the subtotal of two carts joined is the sum of their subtotals |
| SalesDao.SubtotalOfOneLine | Vastra/src/main/java/com/vastra/dao/SalesDAO.java:27 | one line contributes price times quantity |
| SalesDao.SubtotalNonNegative | Vastra/src/main/java/com/vastra/dao/SalesDAO.java:24-30 | non-negative prices and quantities give a non-negative subtotal |
| SalesDao.LoyaltyPointsRate | Vastra/src/main/java/com/vastra/dao/SalesDAO.java:84-90 | `(total/100)/100` is `total/10000` for non-negative totals; points are earned exactly from ₹100 (10000 cents); a negative total earns none |
| SalesDao.SaleHeader | Vastra/src/main/java/com/vastra/dao/SalesDAO.java:32-57 | the sale row is COMPLETED, with the cart's subtotal, and total plus discount equal to the subtotal |
| SalesDao.ItemRow | Vastra/src/main/java/com/vastra/dao/SalesDAO.java:67-77 | an item row copies the line's product id, name, variant (NULL as ""), quantity, unit price and GST rate |
| SalesDao.ItemRows | Vastra/src/main/java/com/vastra/dao/SalesDAO.java:66-82 | one item row per line, in cart order: row k is line k's snapshot (product id, name, variant, quantity, price, tax) under the sale id |
| SalesDao.DemandNonNegative | Vastra/src/main/java/com/vastra/dao/SalesDAO.java:67-81 | the total quantity a cart asks of a product is never negative |
| SalesDao.DemandOfAbsentProduct | Vastra/src/main/java/com/vastra/dao/SalesDAO.java:67-81 | a product on no line is asked for nothing |
| SalesDao.DemandOfDistinctLine | Vastra/src/main/java/com/vastra/dao/SalesDAO.java:67-81 | in a cart with one line per product, the demand for a line's product is its quantity |
| SalesDao.DistinctTail | Vastra/src/main/java/com/vastra/dao/SalesDAO.java:67 | the rest of a one-line-per-product cart still has one line per product, none for the first product |
| SalesDao.DemandUnfold | Vastra/src/main/java/com/vastra/dao/SalesDAO.java:67-81 | the demand is the first line's share plus the rest's |
| SalesDao.CoveredFromRest | Vastra/src/main/java/com/vastra/dao/SalesDAO.java:67-81 | if the first decrement succeeds and the rest is covered afterwards, the whole cart was covered |
| SalesDao.RestCovered | Vastra/src/main/java/com/vastra/dao/SalesDAO.java:67-81 | a covered cart leaves the rest covered after the first decrement |
| SalesDao.CoveredAfterFirst | Vastra/src/main/java/com/vastra/dao/SalesDAO.java:67-81 | coverage of the cart before equals coverage of the rest after the first line's decrement |
| SalesDao.RemainingAfterFirst | Vastra/src/main/java/com/vastra/dao/SalesDAO.java:67-81 | what remains of each product after the rest equals what remains after the whole cart |
| SalesDao.FirstLineUncovered | Vastra/src/main/java/com/vastra/dao/SalesDAO.java:80 | a first line whose product is missing or short leaves the cart uncovered |
| SalesDao.DecrementAllMeetsDemand | Vastra/src/main/java/com/vastra/dao/SalesDAO.java:66-82 | the item loop's decrements all succeed exactly when every product's stock covers the cart's total demand for it; ids stay unique and each stock ends at its start minus the demand |
| SalesDao.DistinctCoveredIff | Vastra/src/main/java/com/vastra/dao/SalesDAO.java:66-82 | with one line per product, coverage is "each line's quantity is in stock" |
| SalesDao.DistinctCartSucceedsIff | Vastra/src/main/java/com/vastra/dao/SalesDAO.java:66-82 | for a checkout cart the sale goes through exactly when each line's quantity is in stock |
| SalesDao.StockAfterSale | Vastra/src/main/java/com/vastra/dao/SalesDAO.java:80 | after a sale each sold product's stock is its old stock less the cart's demand |
| SalesDao.DistinctCartFinalStock | Vastra/src/main/java/com/vastra/dao/SalesDAO.java:80 | with one line per product, that is old stock less the line's quantity |
| SalesDao.RemainingOfKnownProduct | Vastra/src/main/java/com/vastra/dao/SalesDAO.java:80 | a known product's remaining stock is its stock less the demand |
| SalesDao.LineOverStockFailsSale | Vastra/src/main/java/com/vastra/dao/SalesDAO.java:76-80 | one line asking for more than the stock makes the whole sale fail |
| SalesDao.DemandAtLeastLine | Vastra/src/main/java/com/vastra/dao/SalesDAO.java:67-81 | a product's demand is at least any one of its line quantities |
| SalesDao.AwardPointsEffect | Vastra/src/main/java/com/vastra/dao/SalesDAO.java:84-90 | the primary key is kept; a walk-in, an empty id or a total under ₹100 changes nothing |
| SalesDao.AwardRaisesBalance | Vastra/src/main/java/com/vastra/dao/SalesDAO.java:84-90 | a known customer's balance rises by `total/10000` from ₹100 on, and stays otherwise |
| SalesDao.AwardLeavesOtherBalances | Vastra/src/main/java/com/vastra/dao/SalesDAO.java:84-90 | every other customer's balance is kept |
| SalesDao.AwardedRows | Vastra/src/main/java/com/vastra/dao/SalesDAO.java:84-90 | the award is addPoints of the earned points, or no change |
| SalesDao.ItemRowsSnoc | Vastra/src/main/java/com/vastra/dao/SalesDAO.java:67-81 | one more loop pass appends one item row |
| SalesDao.DecrementAllFrom | Vastra/src/main/java/com/vastra/dao/SalesDAO.java:67-81 | the decrements from line k are line k's, then those from k+1 |
| SalesDao.SumSubtotals | Vastra/src/main/java/com/vastra/dao/SalesDAO.java:24-30 | the loop's running sum ends as the cart's subtotal |
| SalesDao.InsertItems | Vastra/src/main/java/com/vastra/dao/SalesDAO.java:66-82 | the item loop completes exactly when every decrement succeeds; it then writes every item row and the decremented stock; customers and sales are untouched |
| SalesDao.AwardLoyalty | Vastra/src/main/java/com/vastra/dao/SalesDAO.java:84-90 | the customers become `AwardPoints`'s rows; the other tables are untouched |
| SalesDao.CompleteSale | Vastra/src/main/java/com/vastra/dao/SalesDAO.java:16-110 | commits exactly when the stock covers the cart, writing the header, the item rows, the decremented stock and the points; otherwise rolls back to the old store |
| Checkout.AddToCartLines | Vastra/src/main/java/com/vastra/ui/controllers/MainController.java:225-241 | a new line of 1 exactly when the product is absent; otherwise that product's line grows by one when its quantity is below the stock, else the cart is unchanged |
| Checkout.AddToCartKeepsInvariant | Vastra/src/main/java/com/vastra/ui/controllers/MainController.java:225-241 | one line per product and positive quantities are preserved; a merge never exceeds the stock |
| Checkout.ScanLookup | Vastra/src/main/java/com/vastra/ui/controllers/MainController.java:181-195 | a found product matches the code by barcode, SKU or id; nothing is found exactly when no row matches in any of the three |
| Checkout.ScanLookupOrder | Vastra/src/main/java/com/vastra/ui/controllers/MainController.java:181-189 | the barcode lookup wins, then the SKU, then the id |
| Checkout.ScanResult | Vastra/src/main/java/com/vastra/ui/controllers/MainController.java:178-223 | not found, inactive and out-of-stock (stock ≤ 0) each leave the cart as it is; otherwise the cart is `addToCart`'s |
| Checkout.ScanAppendsOnlyStockedProducts | Vastra/src/main/java/com/vastra/ui/controllers/MainController.java:197-209 | a line appended by a scan is an active product with stock, quantity 1 |
| Checkout.KeyStep | Vastra/src/main/java/com/vastra/ui/controllers/MainController.java:140-164 | a code is handed over exactly on Enter within 100 ms of the last key with a non-empty buffer, emptying it; letters and digits are appended, after a reset when over 100 ms passed |
| Checkout.BurstAppends | Vastra/src/main/java/com/vastra/ui/controllers/MainController.java:140-153 | keys typed 100 ms or less apart accumulate in the buffer and hand nothing over |
| Checkout.ScanIsHandedOver | Vastra/src/main/java/com/vastra/ui/controllers/MainController.java:140-164 | a scanner burst ended by a prompt Enter hands over exactly the typed code and empties the buffer |
| Checkout.FeedAppend | Vastra/src/main/java/com/vastra/ui/controllers/MainController.java:140-164 | feeding two key sequences is feeding them one after the other |
| Checkout.SlowKeyRestartsBuffer | Vastra/src/main/java/com/vastra/ui/controllers/MainController.java:143-153 | a key more than 100 ms after the last starts a new buffer with its own text |
| Checkout.StaleEnterHandsOverNothing | Vastra/src/main/java/com/vastra/ui/controllers/MainController.java:143-163 | an Enter more than 100 ms after the last key hands nothing over |
| Checkout.RedeemAcceptedIff | Vastra/src/main/java/com/vastra/ui/controllers/MainController.java:337-375 | accepted exactly with a customer and an entered number between 100 and the balance; never above the available discount |
| Checkout.CheckoutRedeemsTheDiscount | Vastra/src/main/java/com/vastra/ui/controllers/MainController.java:410-416 | accepted points are what checkout redeems; a hand-typed discount of ₹1 (100 cents) or more is taken from the points too, one point per rupee, when the cached balance covers it; a walk-in redeems nothing |
| Checkout.Redeemed | Vastra/src/main/java/com/vastra/ui/controllers/MainController.java:410-416 | no redemption leaves the customers as they are; a failure means the stored balance is below the cached one the discount was checked against; a success changes only balances |
| Checkout.CustomerId | Vastra/src/main/java/com/vastra/ui/controllers/MainController.java:408 | the sale records the selected customer's id, and NULL exactly for a walk-in |
| Checkout.CustomersAfterCheckout | Vastra/src/main/java/com/vastra/ui/controllers/MainController.java:408-423 | the checkout's customers exist exactly when the redemption succeeds, keep every row, and a walk-in's checkout changes no customer |
| Checkout.AfterRedemption | Vastra/src/main/java/com/vastra/ui/controllers/MainController.java:410-423 | once the redemption has given its rows, the checkout's customers are the sale's points award on top of them |
| Checkout.LinesOf | Vastra/src/main/java/com/vastra/ui/controllers/MainController.java:48 | the cart's values, item by item |
| Checkout.MainController.constructor | Vastra/src/main/java/com/vastra/ui/controllers/MainController.java:54-72 | an empty valid cart, a walk-in customer, discount 0 and an empty key buffer |
| Checkout.MainController.IncrementAt | Vastra/src/main/java/com/vastra/ui/controllers/MainController.java:230 | only that line's quantity grows by one; the invariant holds |
| Checkout.MainController.AppendNew | Vastra/src/main/java/com/vastra/ui/controllers/MainController.java:240 | a line of 1 is appended for an absent product; the invariant holds |
| Checkout.MainController.AddToCart | Vastra/src/main/java/com/vastra/ui/controllers/MainController.java:225-241 | the search loop and the update give `AddToCartLines`'s outcome and cart; nothing else changes |
| Checkout.MainController.EditQuantity | Vastra/src/main/java/com/vastra/ui/controllers/MainController.java:83-93 | applied exactly when 0 < quantity ≤ the product's stock, changing only that line; otherwise the cart is kept |
| Checkout.MainController.RemoveAt | Vastra/src/main/java/com/vastra/ui/controllers/MainController.java:108-112 | the row leaves the cart in order, and its product no longer appears in it |
| Checkout.MainController.HandleBarcodeScanned | Vastra/src/main/java/com/vastra/ui/controllers/MainController.java:178-223 | the outcome and new cart are `ScanResult`'s; customer, discount and key buffer are kept |
| Checkout.MainController.TakeKey | Vastra/src/main/java/com/vastra/ui/controllers/MainController.java:141-159 | the key buffer and timer move as `KeyStep` says, and the handed-over code is its result |
| Checkout.MainController.OnKeyPressed | Vastra/src/main/java/com/vastra/ui/controllers/MainController.java:140-164 | the key buffer moves by `KeyStep`; a handed-over code is scanned into the cart, otherwise the cart is kept |
| Checkout.MainController.OnRedeemPoints | Vastra/src/main/java/com/vastra/ui/controllers/MainController.java:337-375 | the outcome is `RedeemDecision`'s; the discount grows by 100 cents per accepted point and is otherwise kept |
| Checkout.MainController.ClearCart | Vastra/src/main/java/com/vastra/ui/controllers/MainController.java:486-493 | empty cart, walk-in customer, discount 0 |
| Checkout.MainController.OnClearCustomer | Vastra/src/main/java/com/vastra/ui/controllers/MainController.java:496-500 | walk-in customer; the cart and the discount field are kept |
| Checkout.MainController.RedeemAtCheckout | Vastra/src/main/java/com/vastra/ui/controllers/MainController.java:410-416 | fails exactly when redeemPoints throws, with nothing changed; otherwise the customers are `Redeemed`'s rows |
| Checkout.MainController.RecordSale | Vastra/src/main/java/com/vastra/ui/controllers/MainController.java:419-432 | a failed sale changes nothing; a completed one writes `completeSale`'s tables and clears the cart |
| Checkout.MainController.SettleSale | Vastra/src/main/java/com/vastra/ui/controllers/MainController.java:403-443 | the redemption fails with nothing changed, or the sale fails keeping the redemption, or the sale completes with the redemption and then the award applied |
| Checkout.MainController.OnCompleteSale | Vastra/src/main/java/com/vastra/ui/controllers/MainController.java:378-444 | an empty cart or a cancelled dialog changes nothing; otherwise one of the three outcomes, each exactly under its condition, with its effect on every table and on the screen |
| JavaText.KeptFrom | Vastra/src/main/java/com/vastra/ui/controllers/ProductFormController.java:46 | the first index at or after i whose character trim keeps; only trimmed characters lie before it |
| JavaText.KeptUntil | Vastra/src/main/java/com/vastra/ui/controllers/ProductFormController.java:46 | the kept text's end; only trimmed characters follow it |
| JavaText.TrimEmptyIff | Vastra/src/main/java/com/vastra/ui/controllers/ProductFormController.java:46-62 | `trim().isEmpty()` holds exactly for text of characters up to the space; a non-empty trim neither starts nor ends with one |
| JavaText.TrimIsInfix | Vastra/src/main/java/com/vastra/ui/controllers/ProductFormController.java:65-69 | trim gives an infix with only trimmed characters around it |
| JavaText.TrimIdempotent | Vastra/src/main/java/com/vastra/ui/controllers/ProductFormController.java:65-69 | trimming twice is trimming once |
| JavaText.DigitsStart | Vastra/src/main/java/com/vastra/ui/controllers/ProductFormController.java:78-80 | digits start after at most one sign character |
| JavaText.ParseInt | Vastra/src/main/java/com/vastra/ui/controllers/ProductFormController.java:78-80 | a parsed value is a 32-bit int; "", "-" and "+" are refused; accepted text is an optional sign followed by digits only, so "1x2" is refused |
| JavaText.DigitChar | Vastra/src/main/java/com/vastra/ui/controllers/ProductFormController.java:78-80 | the digit character of a value below 10 |
| JavaText.DigitsValueShift | Vastra/src/main/java/com/vastra/ui/controllers/ProductFormController.java:78-80 | a digit range's value depends only on its characters |
| JavaText.NatToStringDigits | Vastra/src/main/java/com/vastra/ui/controllers/ProductFormController.java:78-80 | the decimal text of n is unsigned digits worth n |
| JavaText.DigitsValueSame | Vastra/src/main/java/com/vastra/ui/controllers/ProductFormController.java:78-80 | texts agreeing on a prefix give its digits the same value |
| JavaText.ParseIntOfToString | Vastra/src/main/java/com/vastra/ui/controllers/ProductFormController.java:78-80 | parseInt reads back every int's decimal text |
| JavaText.ParseIntRejectsOverflow | Vastra/src/main/java/com/vastra/ui/controllers/ProductFormController.java:78-80 | the decimal text of a value outside the int range is refused |
| JavaText.ParseIntLeadingZeros | Vastra/src/main/java/com/vastra/ui/controllers/ProductFormController.java:78-80 | digits padded with leading zeros parse to the same int as without them |
| JavaText.ParseIntPlusSign | Vastra/src/main/java/com/vastra/ui/controllers/ProductFormController.java:78-80 | a leading '+' before digits is accepted and does not change the value |
| JavaText.Trim | Vastra/src/main/java/com/vastra/ui/controllers/ProductFormController.java:65-69 | trim never lengthens the text, and its result neither starts nor ends with a character up to the space |
| ProductForm.InitialForm | Vastra/src/main/java/com/vastra/ui/controllers/ProductFormController.java:30-40 | the form opens with GST "18", re-order "5", unit "PCS" and the other fields empty |
| ProductForm.Validate | Vastra/src/main/java/com/vastra/ui/controllers/ProductFormController.java:43-102 | an accepted form has a non-empty trimmed name, a positive price, non-negative stock, GST in 0..28, parsed numbers and a free or empty SKU |
| ProductForm.CheckList | Vastra/src/main/java/com/vastra/ui/controllers/ProductFormController.java:46-102 | the eight checks of onSave |
| ProductForm.FirstFailure | Vastra/src/main/java/com/vastra/ui/controllers/ProductFormController.java:46-102 | none exactly when every check passes; otherwise the message of the earliest failing check |
| ProductForm.FirstFailureAt | Vastra/src/main/java/com/vastra/ui/controllers/ProductFormController.java:46-102 | a failing check preceded only by passing ones decides the message |
| ProductForm.CheckListFirstFailure | Vastra/src/main/java/com/vastra/ui/controllers/ProductFormController.java:46-102 | the first failure is the cascade of early returns, in onSave's order |
| ProductForm.ValidateIsFirstFailure | Vastra/src/main/java/com/vastra/ui/controllers/ProductFormController.java:43-102 | the form is accepted exactly when all checks pass, and a refusal reports the first failing check |
| ProductForm.InitialFormNeedsAName | Vastra/src/main/java/com/vastra/ui/controllers/ProductFormController.java:30-50 | the form as first shown is refused for its name |
| ProductForm.DefaultsParse | Vastra/src/main/java/com/vastra/ui/controllers/ProductFormController.java:38-39 | the default GST parses to 18 and the default re-order to 5 |
| ProductForm.FormRow | Vastra/src/main/java/com/vastra/ui/controllers/ProductFormController.java:105-108 | the inserted row carries the form's values, is active and has no barcode |
| ProductForm.OnSave | Vastra/src/main/java/com/vastra/ui/controllers/ProductFormController.java:43-127 | a refused form reports its first failure and saves nothing; a taken id is a save error; otherwise exactly one row is appended and the label text is the SKU, or the id without one |
| ProductForm.IdLabelScansBack | Vastra/src/main/java/com/vastra/ui/controllers/ProductFormController.java:112 | an id label of a barcode-less new row scans back to it |
| ProductForm.SkuLabelScansBack | Vastra/src/main/java/com/vastra/ui/controllers/ProductFormController.java:112 | a SKU label no other row shares scans back to the new row |
| ProductForm.SavedLabelScansBack | Vastra/src/main/java/com/vastra/ui/controllers/ProductFormController.java:105-113 | the label of a saved product scans back to it at the checkout |
| ProductForm.SavedProductScansIntoCart | Vastra/src/main/java/com/vastra/ui/controllers/ProductFormController.java:105-113 | scanning that label adds the product exactly when its stock is positive, and reports out of stock exactly at zero |
| Seqs.FirstIndex | Vastra/src/main/java/com/vastra/ui/controllers/MainController.java:227-238 | the first index satisfying the test; none exactly when no element does |
| Seqs.InsertByPermutes | Vastra/src/main/java/com/vastra/dao/ProductDAO.java:83 | insertion adds exactly the one element |
| Seqs.InsertByKeepsOrder | Vastra/src/main/java/com/vastra/dao/ProductDAO.java:83 | inserting into a sorted list keeps it sorted |
| Seqs.SortBy | Vastra/src/main/java/com/vastra/dao/ProductDAO.java:83 | `ORDER BY`: a sorted permutation of the input |
| Seqs.Filter | Vastra/src/main/java/com/vastra/dao/ProductDAO.java:83 | `WHERE`: keeps exactly the elements that pass, each no more often than in the input |
| ProductDao.Decrement | Vastra/src/main/java/com/vastra/dao/ProductDAO.java:68-80 | the guarded update keeps every row of the table; which rows change and by how much is `ProductDao.DecrementRows` |
| ProductDao.IsBlank | Vastra/src/main/java/com/vastra/dao/ProductDAO.java:109 | `String.isBlank`: the empty text is blank, and a blank non-empty text begins and ends with Java whitespace; `FindBySku` answers a blank SKU with nothing |
| SalesDao.SubtotalCents | Vastra/src/main/java/com/vastra/dao/SalesDAO.java:24-30 | the subtotal loop starts at 0 and a one-line cart's subtotal is that line's; `SumSubtotals` computes it by the loop, and `SubtotalAppend` and `SubtotalNonNegative` state the rest |
| SalesDao.LoyaltyPoints | Vastra/src/main/java/com/vastra/dao/SalesDAO.java:86 | a total under 100 rupees either way earns nothing; a non-negative total earns non-negative points, at most one per 100 rupees; a negative total never earns; `LoyaltyPointsRate` states the exact rate |
| SalesDao.DecrementAll | Vastra/src/main/java/com/vastra/dao/SalesDAO.java:66-82 | the item loop's decrements in cart order keep every row of the table; `DecrementAllMeetsDemand` states when they succeed and the stock they leave |
| SalesDao.AwardPoints | Vastra/src/main/java/com/vastra/dao/SalesDAO.java:84-90 | the award keeps every row of the table; `AwardPointsEffect`, `AwardRaisesBalance` and `AwardLeavesOtherBalances` state its effect |
| Checkout.RedeemDecision | Vastra/src/main/java/com/vastra/ui/controllers/MainController.java:337-375 | an accepted redemption has a customer and between 100 points and that customer's balance |
| Checkout.CheckoutRedemption | Vastra/src/main/java/com/vastra/ui/controllers/MainController.java:410-416 | a redemption at checkout is from the selected customer, is the discount in whole rupees (truncated), and never exceeds the cached balance |
| Checkout.Feed | Vastra/src/main/java/com/vastra/ui/controllers/MainController.java:140-164 | no keys change nothing; otherwise the last key's time is recorded; at most one code is handed over per key |
| ProductForm.NumberFails | Vastra/src/main/java/com/vastra/ui/controllers/ProductFormController.java:71-80 | when no NumberFormatException is raised, the prices and the GST, stock and re-order texts all parsed; with an empty purchase price the exception is raised exactly when one of the others fails to parse |
| ProductForm.LabelText | Vastra/src/main/java/com/vastra/ui/controllers/ProductFormController.java:112 | the label text is the SKU or the id, and is empty only when both are; `SavedLabelScansBack` proves it scans back |
| Products.Product.IsLowStock | Vastra/src/main/java/com/vastra/model/Product.java:134-136 | with a non-negative re-order level, zero or negative stock is low; a negative stock is low unless the level is below it |
| Products.Product.IsOutOfStock | Vastra/src/main/java/com/vastra/model/Product.java:138-140 | with a non-negative re-order level, an out-of-stock product is also low on stock |
| Products.Product.LineTotalCents | Vastra/src/main/java/com/vastra/model/Product.java:121-123 | zero quantity costs nothing, one unit costs the sell price, and non-negative price and quantity give a non-negative total |

## Left out

- Floating point. Tax (`calculateTaxAmount`, `getTaxAmount`), the `double` line totals written to
  `sale_items`, `updateTotals`' labels and `Double.parseDouble` on price fields are all parameters:
  - `taxCents` and `lineTotals` are passed to `CompleteSale`;
  - the form takes its prices as `PriceCents`, already parsed to cents.
  The money getters that divide by 100.0 are left out.
- 32-bit wrap-around of `int` arithmetic in the DAOs and the cart (subtotal, stock, points) is not
  modelled: the model's integers are unbounded. The exception is `JavaText.ParseInt`, which
  enforces Java's int range.
- Connection handling, autocommit and SQL exceptions other than the ones the code raises itself
  are not modelled. A store method either runs or reports its own failure; the database is
  assumed never to fail on its own.
- SalesDao.CompleteSale: rolling back the whole sale is an assumption. `decrementStock` and
  `addPoints` each open their own connection through `DBUtil.getConnection()`, not the sale's
  transaction. `DBUtil` is not part of this model, so nothing shows that the rollback undoes their
  writes. The contract (a failed sale leaves every table as it was) is the transaction's intent,
  taken on the assumption that those calls share the sale's transaction.
- `SalesDAO.getDailySalesReport` and `getSalesInRange` are report queries returning raw result
  sets, and are not part of this model.
- `ProductDAO.searchByName` (a `LIKE` query) is not part of this model.
- `ProductDAO.findByBarcode` is called by the checkout but is not in the repository's
  `ProductDAO.java`. It is modelled as the first row whose barcode column equals the code, like
  `findBySku` without the blank check.
- `ProductDAO.insertProduct` as the form calls it has nine arguments and returns the new id; that
  overload is not in the repository. It is modelled as appending a row under a fresh id given as
  a parameter, failing on a taken id.
  - The columns that this overload does not receive (purchase price, HSN, re-order level, unit,
    description) are left NULL or 0 in the row, so the form's purchase price and re-order values
    are parsed but not saved.
- The database schema is not in the repository. Columns such as id, name, phone and the int
  columns are taken as never NULL, and a new row is taken as active.
- UUIDs, `System.currentTimeMillis`, `LocalDateTime.now` and `datetime('now')` are parameters
  (sale id, item ids, invoice number, time stamp, created-at time, the key listener's clock).
- `Integer.parseInt` is modelled for ASCII digits only; Java also accepts other Unicode decimal
  digits.
- The key listener's `isLetterKey`/`isDigitKey` and `getText` are taken from the key event as
  given (`KeyEvent.kind` and `KeyEvent.text`).
- Dialogs are not modelled as UI: the confirmation and payment choice of `onCompleteSale` and the
  points dialog of `onRedeemPoints` are parameters. The same holds for alerts, beeps, focus
  requests, table refreshes, window closing (`onCancel`, `closeWindow`) and the console output.
- `printBill`, `BarcodeUtil.generateCode128`, `onPrintBarcodes`, `onShowLowStock`,
  `checkLowStockAlerts`, `onAddProduct` and `onAddCustomer` only open windows, write files or
  show lists from the DAOs above, and are not part of this model. The label text they encode is
  modelled as `LabelText`.
- `onClearCart` is its confirmation dialog around `clearCart`, which is modelled as `ClearCart`.
- The refresh of the customer after `clearCart` in `onCompleteSale` can never run, because
  `clearCart` sets the customer to null first. It is left out.
- `Customer.getAvailableDiscount` equals the points balance; it is modelled without a contract
  of its own and appears in `Checkout.RedeemAcceptedIff`.
- The other `Customer` and `Product` getters and setters are the datatypes' fields.
- `Customer.getTotalPurchases`, `Product.getProfitAmount` and the price getters return
  `double`s, and are left out.
- `Products.Product.ProfitMargin` computes over `real`, not `double`, so rounding is not
  modelled.
- The discount field is modelled as cents held by the controller. `Double.parseDouble` of the
  field's text and its conversion to cents are not modelled.
