/**
 * Completing a sale (dao/SalesDAO.java): one transaction that writes the sale header, one item
 * row per cart line, decrements the stock of every line and awards loyalty points, and that is
 * rolled back as a whole when any step fails.
 */
module SalesDao {
  import opened Wrappers
  import opened Products
  import opened CartItems
  import opened Tables
  import ProductDao
  import CustomerDao

  /** The subtotal loop: sell price times quantity, summed over the lines in cart order. */
  function SubtotalCents(lines: seq<CartLine>): (r: int)
    ensures lines == [] ==> r == 0
    ensures |lines| == 1 ==> r == lines[0].SubtotalCents()
  {
    if lines == [] then 0
    else SubtotalCents(lines[..|lines| - 1]) + lines[|lines| - 1].SubtotalCents()
  }

  /** The subtotal of a cart is the sum of the subtotals of its parts. */
  lemma {:induction false} SubtotalAppend(a: seq<CartLine>, b: seq<CartLine>)
    ensures SubtotalCents(a + b) == SubtotalCents(a) + SubtotalCents(b)
    decreases |b|
  {
    if b == [] {
      assert a + b == a;
    } else {
      var b' := b[..|b| - 1];
      assert (a + b)[..|a + b| - 1] == a + b';
      SubtotalAppend(a, b');
    }
  }

  /** Each line contributes exactly its own subtotal (CartItem.getSubtotal in cents). */
  lemma {:induction false} SubtotalOfOneLine(l: CartLine)
    ensures SubtotalCents([l]) == l.SubtotalCents()
  {
    assert [l][..0] == [];
  }

  /** With non-negative prices and quantities the subtotal is non-negative. */
  lemma {:induction false} SubtotalNonNegative(lines: seq<CartLine>)
    requires forall k :: 0 <= k < |lines| ==> lines[k].product.sellPriceCents >= 0 && lines[k].quantity >= 0
    ensures SubtotalCents(lines) >= 0
    decreases |lines|
  {
    if lines != [] {
      var last := lines[|lines| - 1];
      SubtotalNonNegative(lines[..|lines| - 1]);
      assert last.SubtotalCents() == last.product.sellPriceCents * last.quantity;
      assert last.SubtotalCents() >= 0;
    }
  }

  /** `(total / 100) / 100` with Java's truncating division: one point per 100 rupees. */
  function LoyaltyPoints(totalCents: int): (r: int)
    ensures -10000 < totalCents < 10000 ==> r == 0
    ensures totalCents >= 0 ==> 0 <= r && 10000 * r <= totalCents
    ensures totalCents <= 0 ==> r <= 0
  {
    JavaDiv(JavaDiv(totalCents, 100), 100)
  }

  /** Division by `d` is determined by any quotient and remainder that fit. */
  lemma DivUnique(t: int, d: int, q: int, r: int)
    requires d > 0 && 0 <= r < d && t == d * q + r
    ensures t / d == q
  {
    var q', r' := t / d, t % d;
    assert t == d * q' + r';
    if q' < q {
      MulAtLeast(d, q - q');
    }
    if q' > q {
      MulAtLeast(d, q' - q);
    }
  }

  lemma {:induction false} MulAtLeast(d: int, m: int)
    requires d > 0 && m >= 1
    ensures d * m >= d
    decreases m
  {
    if m > 1 {
      MulAtLeast(d, m - 1);
      assert d * m == d * (m - 1) + d;
    }
  }

  /**
   * For a non-negative total the two truncating divisions are one division by 10000, so the
   * points are positive exactly from 10000 cents (100 rupees) on; a negative total earns none.
   */
  lemma LoyaltyPointsRate(totalCents: int)
    ensures totalCents >= 0 ==> LoyaltyPoints(totalCents) == totalCents / 10000
    ensures LoyaltyPoints(totalCents) > 0 <==> totalCents >= 10000
    ensures totalCents < 0 ==> LoyaltyPoints(totalCents) <= 0
  {
    if totalCents >= 0 {
      var q := totalCents / 100;
      var r := totalCents % 100;
      var a := q / 100;
      var b := q % 100;
      assert q == 100 * a + b;
      assert totalCents == 10000 * a + (100 * b + r);
      DivUnique(totalCents, 10000, a, 100 * b + r);
      if totalCents >= 10000 {
        DivUnique(totalCents, 10000, totalCents / 10000, totalCents % 10000);
        assert totalCents / 10000 >= 1;
      }
    } else {
      var m := (-totalCents) / 100;
      assert m >= 0;
      assert JavaDiv(totalCents, 100) == -m;
      assert JavaDiv(-m, 100) == -(m / 100) || m == 0;
    }
  }

  /** The sale header: subtotal from the lines, total = subtotal - discount, status COMPLETED. */
  function SaleHeader(saleId: string, invoiceNumber: string, customerId: Option<string>, timestamp: string,
                      lines: seq<CartLine>, taxCents: int, discountCents: int, paymentMode: string): (r: SaleRow)
    ensures r.id == saleId && r.status == "COMPLETED" && r.customerId == customerId
    ensures r.subtotalCents == SubtotalCents(lines)
    ensures r.totalCents + discountCents == r.subtotalCents && r.discountCents == discountCents
  {
    var subtotal := SubtotalCents(lines);
    SaleRow(saleId, invoiceNumber, customerId, timestamp, subtotal, taxCents, discountCents,
            subtotal - discountCents, paymentMode, "COMPLETED")
  }

  /**
   * The item row of one line: a snapshot of the product; a NULL variant is stored as "". The
   * line total is computed in floating point by the caller and arrives here as cents.
   */
  function ItemRow(saleId: string, itemId: string, l: CartLine, lineTotalCents: int): (r: SaleItemRow)
    ensures r.saleId == saleId && r.productId == l.product.id && r.qty == l.quantity
    ensures r.productName == l.product.name && r.unitPriceCents == l.product.sellPriceCents
    ensures r.productVariant == (if l.product.variant.Some? then l.product.variant.value else "")
    ensures r.taxPercent == l.product.gstPercent
  {
    SaleItemRow(itemId, saleId, l.product.id, l.product.name, l.product.variant.GetOr(""),
                l.quantity, l.product.sellPriceCents, l.product.gstPercent, lineTotalCents)
  }

  /** The item rows of a sale, one per line and in cart order, all under the same sale id. */
  function ItemRows(saleId: string, itemIds: seq<string>, lines: seq<CartLine>, lineTotals: seq<int>): (r: seq<SaleItemRow>)
    requires |itemIds| == |lines| && |lineTotals| == |lines|
    ensures |r| == |lines|
    ensures forall k :: 0 <= k < |lines| ==> r[k].saleId == saleId && r[k].productId == lines[k].product.id && r[k].qty == lines[k].quantity
    ensures forall k :: 0 <= k < |lines| ==> r[k] == ItemRow(saleId, itemIds[k], lines[k], lineTotals[k])
  {
    seq(|lines|, k requires 0 <= k < |lines| => ItemRow(saleId, itemIds[k], lines[k], lineTotals[k]))
  }

  /** Every `decrementStock` of the item loop, in cart order; `None` as soon as one fails. */
  function DecrementAll(rows: seq<ProductRow>, lines: seq<CartLine>): (r: Option<seq<ProductRow>>)
    ensures r.Some? ==> |r.value| == |rows|
    decreases |lines|
  {
    if lines == [] then Some(rows)
    else match ProductDao.Decrement(rows, lines[0].product.id, lines[0].quantity)
      case None => None
      case Some(rows') => DecrementAll(rows', lines[1..])
  }

  /** The quantity of `id` the lines ask for in total. */
  function Demand(lines: seq<CartLine>, id: string): int
    decreases |lines|
  {
    if lines == [] then 0
    else (if lines[0].product.id == id then lines[0].quantity else 0) + Demand(lines[1..], id)
  }

  lemma {:induction false} DemandNonNegative(lines: seq<CartLine>, id: string)
    requires forall k :: 0 <= k < |lines| ==> lines[k].quantity >= 0
    ensures Demand(lines, id) >= 0
    decreases |lines|
  {
    if lines != [] {
      DemandNonNegative(lines[1..], id);
    }
  }

  lemma {:induction false} DemandOfAbsentProduct(lines: seq<CartLine>, id: string)
    requires forall k :: 0 <= k < |lines| ==> lines[k].product.id != id
    ensures Demand(lines, id) == 0
    decreases |lines|
  {
    if lines != [] {
      DemandOfAbsentProduct(lines[1..], id);
    }
  }

  /** With one line per product, the demand of a line's product is that line's quantity. */
  lemma {:induction false} DemandOfDistinctLine(lines: seq<CartLine>, k: nat)
    requires DistinctProducts(lines) && k < |lines|
    ensures Demand(lines, lines[k].product.id) == lines[k].quantity
    decreases |lines|
  {
    if k == 0 {
      DemandOfAbsentProduct(lines[1..], lines[0].product.id);
    } else {
      DistinctTail(lines);
      DemandOfDistinctLine(lines[1..], k - 1);
    }
  }

  lemma DistinctTail(lines: seq<CartLine>)
    requires DistinctProducts(lines) && lines != []
    ensures DistinctProducts(lines[1..])
    ensures forall k :: 0 <= k < |lines| - 1 ==> lines[1..][k].product.id != lines[0].product.id
  {
  }

  /** Every line names an existing product whose stock covers what the whole cart asks of it. */
  predicate DemandCovered(rows: seq<ProductRow>, lines: seq<CartLine>) {
    forall k :: 0 <= k < |lines| ==>
      ProductDao.StockOf(rows, lines[k].product.id).Some? &&
      Demand(lines, lines[k].product.id) <= ProductDao.StockOf(rows, lines[k].product.id).value
  }

  /** The stock of `id` once the lines are served; `None` for an unknown product. */
  function Remaining(rows: seq<ProductRow>, lines: seq<CartLine>, id: string): Option<int> {
    match ProductDao.StockOf(rows, id)
    case None => None
    case Some(s) => Some(s - Demand(lines, id))
  }

  /** Every product's stock in `after` is its stock in `rows` less what the lines ask of it. */
  ghost predicate StockLeft(after: seq<ProductRow>, rows: seq<ProductRow>, lines: seq<CartLine>) {
    forall id :: ProductDao.StockOf(after, id) == Remaining(rows, lines, id)
  }

  /** The demand of the whole cart is the first line's share plus the demand of the rest. */
  lemma DemandUnfold(lines: seq<CartLine>)
    requires lines != []
    ensures forall id :: Demand(lines, id) == (if id == lines[0].product.id then lines[0].quantity else 0) + Demand(lines[1..], id)
  {
  }

  /** What the first line's stock update does to the stock: only its product loses its quantity. */
  predicate FirstLineServed(rows: seq<ProductRow>, rows': seq<ProductRow>, lines: seq<CartLine>)
    requires lines != []
  {
    && ProductDao.StockOf(rows, lines[0].product.id).Some?
    && ProductDao.StockOf(rows', lines[0].product.id) ==
       Some(ProductDao.StockOf(rows, lines[0].product.id).value - lines[0].quantity)
  }

  lemma {:induction false} CoveredFromRest(rows: seq<ProductRow>, rows': seq<ProductRow>, lines: seq<CartLine>)
    requires lines != [] && FirstLineServed(rows, rows', lines)
    requires forall k :: 0 <= k < |lines| ==> lines[k].quantity >= 0
    requires ProductDao.StockOf(rows, lines[0].product.id).value >= lines[0].quantity
    requires forall other :: other != lines[0].product.id ==> ProductDao.StockOf(rows', other) == ProductDao.StockOf(rows, other)
    requires DemandCovered(rows', lines[1..])
    ensures DemandCovered(rows, lines)
  {
    var rest := lines[1..];
    var id0 := lines[0].product.id;
    DemandUnfold(lines);
    forall k | 0 <= k < |lines|
      ensures ProductDao.StockOf(rows, lines[k].product.id).Some?
      ensures Demand(lines, lines[k].product.id) <= ProductDao.StockOf(rows, lines[k].product.id).value
    {
      if k > 0 {
        assert lines[k] == rest[k - 1];
      } else if exists j :: 0 <= j < |rest| && rest[j].product.id == id0 {
        var j :| 0 <= j < |rest| && rest[j].product.id == id0;
      } else {
        DemandOfAbsentProduct(rest, id0);
      }
    }
  }

  lemma {:induction false} RestCovered(rows: seq<ProductRow>, rows': seq<ProductRow>, lines: seq<CartLine>)
    requires lines != [] && FirstLineServed(rows, rows', lines)
    requires forall other :: other != lines[0].product.id ==> ProductDao.StockOf(rows', other) == ProductDao.StockOf(rows, other)
    requires DemandCovered(rows, lines)
    ensures DemandCovered(rows', lines[1..])
  {
    var rest := lines[1..];
    DemandUnfold(lines);
    forall k | 0 <= k < |rest|
      ensures ProductDao.StockOf(rows', rest[k].product.id).Some?
      ensures Demand(rest, rest[k].product.id) <= ProductDao.StockOf(rows', rest[k].product.id).value
    {
      assert rest[k] == lines[k + 1];
    }
  }

  /**
   * Once the first line's product has lost that line's quantity, the rest of the cart is covered
   * exactly when the whole cart was.
   */
  lemma {:induction false} CoveredAfterFirst(rows: seq<ProductRow>, rows': seq<ProductRow>, lines: seq<CartLine>)
    requires lines != []
    requires forall k :: 0 <= k < |lines| ==> lines[k].quantity >= 0
    requires ProductDao.StockOf(rows, lines[0].product.id).Some?
    requires ProductDao.StockOf(rows, lines[0].product.id).value >= lines[0].quantity
    requires ProductDao.StockOf(rows', lines[0].product.id) == Some(ProductDao.StockOf(rows, lines[0].product.id).value - lines[0].quantity)
    requires forall other :: other != lines[0].product.id ==> ProductDao.StockOf(rows', other) == ProductDao.StockOf(rows, other)
    ensures DemandCovered(rows, lines) <==> DemandCovered(rows', lines[1..])
  {
    if DemandCovered(rows', lines[1..]) {
      CoveredFromRest(rows, rows', lines);
    }
    if DemandCovered(rows, lines) {
      RestCovered(rows, rows', lines);
    }
  }

  /** Likewise the stock left after the rest equals the stock left after the whole cart. */
  lemma RemainingAfterFirst(rows: seq<ProductRow>, rows': seq<ProductRow>, lines: seq<CartLine>)
    requires lines != []
    requires ProductDao.StockOf(rows, lines[0].product.id).Some?
    requires ProductDao.StockOf(rows', lines[0].product.id) == Some(ProductDao.StockOf(rows, lines[0].product.id).value - lines[0].quantity)
    requires forall other :: other != lines[0].product.id ==> ProductDao.StockOf(rows', other) == ProductDao.StockOf(rows, other)
    ensures forall id :: Remaining(rows', lines[1..], id) == Remaining(rows, lines, id)
  {
    DemandUnfold(lines);
  }

  /** A first line its product's stock cannot serve leaves the cart's demand uncovered. */
  lemma FirstLineUncovered(rows: seq<ProductRow>, lines: seq<CartLine>)
    requires lines != []
    requires forall k :: 0 <= k < |lines| ==> lines[k].quantity >= 0
    requires ProductDao.StockOf(rows, lines[0].product.id).None? ||
             ProductDao.StockOf(rows, lines[0].product.id).value < lines[0].quantity
    ensures !DemandCovered(rows, lines)
  {
    DemandNonNegative(lines[1..], lines[0].product.id);
    DemandUnfold(lines);
  }

  /**
   * The item loop's stock updates all succeed exactly when the stock of every product covers
   * the cart's total demand for it, and then each product's stock drops by that demand.
   */
  lemma {:induction false} DecrementAllMeetsDemand(rows: seq<ProductRow>, lines: seq<CartLine>)
    requires UniqueProductIds(rows)
    requires forall k :: 0 <= k < |lines| ==> lines[k].quantity >= 0
    ensures DecrementAll(rows, lines).Some? <==> DemandCovered(rows, lines)
    ensures DecrementAll(rows, lines).Some? ==>
      UniqueProductIds(DecrementAll(rows, lines).value) && StockLeft(DecrementAll(rows, lines).value, rows, lines)
    decreases |lines|
  {
    if lines == [] {
      forall id ensures ProductDao.StockOf(rows, id) == Remaining(rows, lines, id) {
      }
    } else {
      var l := lines[0];
      ProductDao.DecrementSucceedsIff(rows, l.product.id, l.quantity);
      match ProductDao.Decrement(rows, l.product.id, l.quantity)
      case None =>
        FirstLineUncovered(rows, lines);
      case Some(rows') =>
        DecrementAllMeetsDemand(rows', lines[1..]);
        CoveredAfterFirst(rows, rows', lines);
        RemainingAfterFirst(rows, rows', lines);
    }
  }

  /** Every line names an existing product whose current stock covers that line's quantity. */
  predicate LinesInStock(rows: seq<ProductRow>, lines: seq<CartLine>) {
    forall k :: 0 <= k < |lines| ==>
      ProductDao.StockOf(rows, lines[k].product.id).Some? &&
      lines[k].quantity <= ProductDao.StockOf(rows, lines[k].product.id).value
  }

  /** With one line per product, covering the demand is the same as covering each line. */
  lemma DistinctCoveredIff(rows: seq<ProductRow>, lines: seq<CartLine>)
    requires DistinctProducts(lines)
    ensures DemandCovered(rows, lines) <==> LinesInStock(rows, lines)
  {
    forall k | 0 <= k < |lines| ensures Demand(lines, lines[k].product.id) == lines[k].quantity {
      DemandOfDistinctLine(lines, k);
    }
  }

  /**
   * With one line per product (the cart's invariant): the sale's stock updates succeed exactly
   * when every line's quantity is at most its product's current stock.
   */
  lemma DistinctCartSucceedsIff(rows: seq<ProductRow>, lines: seq<CartLine>)
    requires UniqueProductIds(rows) && DistinctProducts(lines)
    requires forall k :: 0 <= k < |lines| ==> lines[k].quantity >= 0
    ensures DecrementAll(rows, lines).Some? <==> LinesInStock(rows, lines)
  {
    DecrementAllMeetsDemand(rows, lines);
    DistinctCoveredIff(rows, lines);
  }

  /** After a successful sale, the product of each line has lost the cart's whole demand for it. */
  lemma StockAfterSale(rows: seq<ProductRow>, lines: seq<CartLine>, k: nat)
    requires UniqueProductIds(rows)
    requires forall j :: 0 <= j < |lines| ==> lines[j].quantity >= 0
    requires DecrementAll(rows, lines).Some? && k < |lines|
    ensures ProductDao.StockOf(rows, lines[k].product.id).Some?
    ensures ProductDao.StockOf(DecrementAll(rows, lines).value, lines[k].product.id) ==
            Some(ProductDao.StockOf(rows, lines[k].product.id).value - Demand(lines, lines[k].product.id))
  {
    var id := lines[k].product.id;
    DecrementAllMeetsDemand(rows, lines);
    assert ProductDao.StockOf(rows, id).Some?;
    assert ProductDao.StockOf(DecrementAll(rows, lines).value, id) == Remaining(rows, lines, id);
    RemainingOfKnownProduct(rows, lines, id);
  }

  /** With one line per product, each line's product ends at its stock minus the quantity sold. */
  lemma DistinctCartFinalStock(rows: seq<ProductRow>, lines: seq<CartLine>, k: nat)
    requires UniqueProductIds(rows) && DistinctProducts(lines)
    requires forall j :: 0 <= j < |lines| ==> lines[j].quantity >= 0
    requires DecrementAll(rows, lines).Some? && k < |lines|
    ensures ProductDao.StockOf(rows, lines[k].product.id).Some?
    ensures ProductDao.StockOf(DecrementAll(rows, lines).value, lines[k].product.id) ==
            Some(ProductDao.StockOf(rows, lines[k].product.id).value - lines[k].quantity)
  {
    StockAfterSale(rows, lines, k);
    assert Demand(lines, lines[k].product.id) == lines[k].quantity by {
      DemandOfDistinctLine(lines, k);
    }
  }

  lemma RemainingOfKnownProduct(rows: seq<ProductRow>, lines: seq<CartLine>, id: string)
    requires ProductDao.StockOf(rows, id).Some?
    ensures Remaining(rows, lines, id) == Some(ProductDao.StockOf(rows, id).value - Demand(lines, id))
  {
  }

  /** A single line that asks for more than its product's stock makes the whole sale fail. */
  lemma LineOverStockFailsSale(rows: seq<ProductRow>, lines: seq<CartLine>, k: nat)
    requires UniqueProductIds(rows)
    requires forall j :: 0 <= j < |lines| ==> lines[j].quantity >= 0
    requires k < |lines|
    requires ProductDao.StockOf(rows, lines[k].product.id).Some?
    requires lines[k].quantity > ProductDao.StockOf(rows, lines[k].product.id).value
    ensures DecrementAll(rows, lines).None?
  {
    DecrementAllMeetsDemand(rows, lines);
    DemandAtLeastLine(lines, k);
  }

  lemma {:induction false} DemandAtLeastLine(lines: seq<CartLine>, k: nat)
    requires forall j :: 0 <= j < |lines| ==> lines[j].quantity >= 0
    requires k < |lines|
    ensures Demand(lines, lines[k].product.id) >= lines[k].quantity
    decreases |lines|
  {
    if k == 0 {
      DemandNonNegative(lines[1..], lines[0].product.id);
    } else {
      DemandAtLeastLine(lines[1..], k - 1);
    }
  }

  /** The loyalty step: only a non-null, non-empty customer id and a positive award add points. */
  function AwardPoints(customers: seq<CustomerRow>, customerId: Option<string>, totalCents: int): (r: seq<CustomerRow>)
    ensures |r| == |customers|
  {
    if customerId.Some? && customerId.value != "" && LoyaltyPoints(totalCents) > 0
    then CustomerDao.AddPointsRows(customers, customerId.value, LoyaltyPoints(totalCents))
    else customers
  }

  /**
   * Awarding keeps the primary key; a walk-in sale, an empty customer id or a total under 100
   * rupees leaves the table as it was.
   */
  lemma AwardPointsEffect(customers: seq<CustomerRow>, customerId: Option<string>, totalCents: int)
    requires UniqueCustomerIds(customers)
    ensures UniqueCustomerIds(AwardPoints(customers, customerId, totalCents))
    ensures customerId.None? || customerId == Some("") || totalCents < 10000 ==>
      AwardPoints(customers, customerId, totalCents) == customers
  {
    AwardedRows(customers, customerId, totalCents);
    if customerId.Some? && customerId.value != "" && totalCents >= 10000 {
      CustomerDao.AddPointsChangesOnlyThatBalance(customers, customerId.value, totalCents / 10000);
    }
  }

  /** A named customer's balance grows by one point per full 100 rupees of the total. */
  lemma AwardRaisesBalance(customers: seq<CustomerRow>, id: string, totalCents: int)
    requires UniqueCustomerIds(customers)
    requires id != "" && CustomerDao.PointsOf(customers, id).Some?
    ensures CustomerDao.PointsOf(AwardPoints(customers, Some(id), totalCents), id) ==
      Some(CustomerDao.PointsOf(customers, id).value + (if totalCents >= 10000 then totalCents / 10000 else 0))
  {
    AwardedRows(customers, Some(id), totalCents);
    if totalCents >= 10000 {
      CustomerDao.AddPointsChangesOnlyThatBalance(customers, id, totalCents / 10000);
    }
  }

  /** Awarding leaves the balance of every customer but the named one as it was. */
  lemma AwardLeavesOtherBalances(customers: seq<CustomerRow>, customerId: Option<string>, totalCents: int)
    requires UniqueCustomerIds(customers)
    ensures forall other :: customerId != Some(other) ==>
      CustomerDao.PointsOf(AwardPoints(customers, customerId, totalCents), other) == CustomerDao.PointsOf(customers, other)
  {
    AwardedRows(customers, customerId, totalCents);
    if customerId.Some? && customerId.value != "" && totalCents >= 10000 {
      CustomerDao.AddPointsChangesOnlyThatBalance(customers, customerId.value, totalCents / 10000);
    }
  }

  /** The award is an addition of `total / 10000` points to a named customer from 100 rupees on. */
  lemma AwardedRows(customers: seq<CustomerRow>, customerId: Option<string>, totalCents: int)
    ensures AwardPoints(customers, customerId, totalCents) ==
      if customerId.Some? && customerId.value != "" && totalCents >= 10000
      then CustomerDao.AddPointsRows(customers, customerId.value, totalCents / 10000)
      else customers
  {
    LoyaltyPointsRate(totalCents);
  }

  /** One more item row extends the rows of the lines before it. */
  lemma ItemRowsSnoc(saleId: string, itemIds: seq<string>, lines: seq<CartLine>, lineTotals: seq<int>, k: nat)
    requires |itemIds| == |lines| && |lineTotals| == |lines| && k < |lines|
    ensures ItemRows(saleId, itemIds[..k + 1], lines[..k + 1], lineTotals[..k + 1]) ==
            ItemRows(saleId, itemIds[..k], lines[..k], lineTotals[..k]) + [ItemRow(saleId, itemIds[k], lines[k], lineTotals[k])]
  {
  }

  /** The item loop from line `k` on: one stock update, then the lines after it. */
  lemma DecrementAllFrom(rows: seq<ProductRow>, lines: seq<CartLine>, k: nat)
    requires k < |lines|
    ensures DecrementAll(rows, lines[k..]) ==
      match ProductDao.Decrement(rows, lines[k].product.id, lines[k].quantity)
      case None => None
      case Some(rows') => DecrementAll(rows', lines[k + 1..])
  {
    assert lines[k..][1..] == lines[k + 1..];
  }

  /** The first loop of completeSale: it adds up sell price times quantity line by line. */
  method SumSubtotals(lines: seq<CartLine>) returns (subtotal: int)
    ensures subtotal == SubtotalCents(lines)
  {
    subtotal := 0;
    var i := 0;
    while i < |lines|
      invariant 0 <= i <= |lines|
      invariant subtotal == SubtotalCents(lines[..i])
    {
      assert lines[..i + 1][..i] == lines[..i];
      subtotal := subtotal + lines[i].product.sellPriceCents * lines[i].quantity;
      i := i + 1;
    }
    assert lines[..|lines|] == lines;
  }

  /**
   * The item loop of completeSale: for each line, in cart order, an item row and a stock update.
   * It stops at the first update that fails, leaving the rows written so far for the rollback.
   */
  method InsertItems(db: Store, lines: seq<CartLine>, saleId: string, itemIds: seq<string>, lineTotals: seq<int>)
    returns (ok: bool)
    requires db.Valid()
    requires |itemIds| == |lines| && |lineTotals| == |lines|
    modifies db
    ensures db.Valid()
    ensures ok <==> DecrementAll(old(db.products), lines).Some?
    ensures ok ==> db.products == DecrementAll(old(db.products), lines).value &&
                   db.saleItems == old(db.saleItems) + ItemRows(saleId, itemIds, lines, lineTotals)
    ensures db.customers == old(db.customers) && db.sales == old(db.sales)
  {
    ghost var products0 := db.products;
    ghost var items0 := db.saleItems;
    assert lines[0..] == lines;
    var k := 0;
    while k < |lines|
      invariant 0 <= k <= |lines|
      invariant db.Valid()
      invariant db.saleItems == items0 + ItemRows(saleId, itemIds[..k], lines[..k], lineTotals[..k])
      invariant db.customers == old(db.customers) && db.sales == old(db.sales)
      invariant DecrementAll(products0, lines) == DecrementAll(db.products, lines[k..])
    {
      var line := lines[k];
      ItemRowsSnoc(saleId, itemIds, lines, lineTotals, k);
      DecrementAllFrom(db.products, lines, k);
      db.saleItems := db.saleItems + [ItemRow(saleId, itemIds[k], line, lineTotals[k])];
      ok := ProductDao.DecrementStock(db, line.product.id, line.quantity);
      if !ok {
        return;
      }
      k := k + 1;
    }
    assert itemIds[..|lines|] == itemIds && lines[..|lines|] == lines && lineTotals[..|lines|] == lineTotals;
    assert lines[|lines|..] == [];
    ok := true;
  }

  /** The loyalty step of completeSale: a named customer earns the points of the sale's total. */
  method AwardLoyalty(db: Store, customerId: Option<string>, totalCents: int)
    requires db.Valid()
    modifies db
    ensures db.Valid()
    ensures db.customers == AwardPoints(old(db.customers), customerId, totalCents)
    ensures db.products == old(db.products) && db.sales == old(db.sales) && db.saleItems == old(db.saleItems)
  {
    if customerId.Some? && customerId.value != "" {
      var pointsEarned := LoyaltyPoints(totalCents);
      if pointsEarned > 0 {
        CustomerDao.AddPoints(db, customerId.value, pointsEarned);
      }
    }
  }

  /**
   * completeSale. The snapshot taken first is what a rollback returns to; the generated ids,
   * invoice number, timestamp and the floating-point tax and line totals are parameters.
   */
  method CompleteSale(db: Store, lines: seq<CartLine>, customerId: Option<string>, discountCents: int,
                      paymentMode: string, saleId: string, invoiceNumber: string, timestamp: string,
                      taxCents: int, itemIds: seq<string>, lineTotals: seq<int>)
    returns (result: Option<string>)
    requires db.Valid()
    requires |itemIds| == |lines| && |lineTotals| == |lines|
    modifies db
    ensures db.Valid()
    ensures result.Some? <==> DecrementAll(old(db.products), lines).Some?
    ensures result.None? ==>
      db.products == old(db.products) && db.customers == old(db.customers) &&
      db.sales == old(db.sales) && db.saleItems == old(db.saleItems)
    ensures result.Some? ==>
      result.value == saleId &&
      db.products == DecrementAll(old(db.products), lines).value &&
      db.sales == old(db.sales) + [SaleHeader(saleId, invoiceNumber, customerId, timestamp, lines, taxCents, discountCents, paymentMode)] &&
      db.saleItems == old(db.saleItems) + ItemRows(saleId, itemIds, lines, lineTotals) &&
      db.customers == AwardPoints(old(db.customers), customerId, SubtotalCents(lines) - discountCents)
  {
    var savedProducts, savedCustomers, savedSales, savedItems := db.products, db.customers, db.sales, db.saleItems;

    var subtotal := SumSubtotals(lines);
    var total := subtotal - discountCents;

    db.sales := db.sales + [SaleRow(saleId, invoiceNumber, customerId, timestamp, subtotal, taxCents,
                                    discountCents, total, paymentMode, "COMPLETED")];

    var ok := InsertItems(db, lines, saleId, itemIds, lineTotals);
    if !ok {
      db.products, db.customers, db.sales, db.saleItems := savedProducts, savedCustomers, savedSales, savedItems;
      return None;
    }

    AwardLoyalty(db, customerId, total);
    return Some(saleId);
  }
}
