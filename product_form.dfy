/**
 * The "add product" form (ui/controllers/ProductFormController.java): its default texts, the
 * ordered checks of onSave, the insert of the new product and the text its barcode label carries.
 */
module ProductForm {
  import opened Wrappers
  import opened JavaText
  import opened Products
  import opened Tables
  import ProductDao
  import Checkout
  import CartItems
  import Seqs

  /** The text of every field of the form, as typed. */
  datatype FormFields = FormFields(
    name: string,
    variant: string,
    category: string,
    brand: string,
    sku: string,
    mrp: string,
    sellPrice: string,
    purchasePrice: string,
    gst: string,
    hsn: string,
    stock: string,
    reorder: string,
    unit: string,
    description: string)

  /** initialize: GST "18", re-order level "5", unit "PCS"; every other field starts empty. */
  function InitialForm(): (f: FormFields)
    ensures f.gst == "18" && f.reorder == "5" && f.unit == "PCS"
    ensures f.name == "" && f.sellPrice == "" && f.stock == "" && f.sku == ""
  {
    FormFields("", "", "", "", "", "", "", "", "18", "", "", "5", "PCS", "")
  }

  /**
   * What `(int) (Double.parseDouble(text.trim()) * 100)` gives for each price field: the price in
   * cents, or `None` where parseDouble throws NumberFormatException.
   */
  datatype PriceCents = PriceCents(mrp: Option<int>, sellPrice: Option<int>, purchasePrice: Option<int>)

  /** The messages onSave can end with instead of saving. */
  datatype FormError =
    | NameRequired
    | SellPriceRequired
    | StockRequired
    | InvalidNumber
    | SellPriceNotPositive
    | NegativeStock
    | GstOutOfRange
    | SkuExists(sku: string)
    | SaveFailed

  /** The values onSave hands to the insert. */
  datatype NewProduct = NewProduct(
    name: string, variant: string, category: string, brand: string, sku: string,
    mrpCents: int, sellPriceCents: int, gstPercent: int, stock: int)

  datatype Checked = Accept(entry: NewProduct) | Reject(error: FormError)

  /** `text.trim().isEmpty()` */
  predicate Empty(text: string) {
    Trim(text) == []
  }

  /** Some number on the form does not parse: a NumberFormatException inside onSave. */
  predicate NumberFails(form: FormFields, prices: PriceCents): (b: bool)
    ensures !b ==> prices.mrp.Some? && prices.sellPrice.Some?
    ensures !b ==> ParseInt(Trim(form.gst)).Some? && ParseInt(Trim(form.stock)).Some?
    ensures !b ==> ParseInt(Trim(form.reorder)).Some?
    ensures Empty(form.purchasePrice) ==>
              (b <==> (|| prices.mrp.None?
                       || prices.sellPrice.None?
                       || ParseInt(Trim(form.gst)).None?
                       || ParseInt(Trim(form.stock)).None?
                       || ParseInt(Trim(form.reorder)).None?))
  {
    || prices.mrp.None?
    || prices.sellPrice.None?
    || (!Empty(form.purchasePrice) && prices.purchasePrice.None?)
    || ParseInt(Trim(form.gst)).None?
    || ParseInt(Trim(form.stock)).None?
    || ParseInt(Trim(form.reorder)).None?
  }

  /**
   * The checks of onSave, in the order it makes them: the required fields, the parsing of the
   * numbers, the ranges, the SKU lookup. The first that fails decides the message.
   */
  function Validate(form: FormFields, prices: PriceCents, rows: seq<ProductRow>): (r: Checked)
    ensures r.Accept? ==>
      && r.entry.name == Trim(form.name) && r.entry.name != []
      && r.entry.sellPriceCents > 0 && r.entry.stock >= 0 && 0 <= r.entry.gstPercent <= 28
      && Some(r.entry.sellPriceCents) == prices.sellPrice && Some(r.entry.mrpCents) == prices.mrp
      && Some(r.entry.stock) == ParseInt(Trim(form.stock)) && Some(r.entry.gstPercent) == ParseInt(Trim(form.gst))
      && r.entry.sku == Trim(form.sku)
      && (r.entry.sku == [] || ProductDao.FindBySku(rows, Some(r.entry.sku)).None?)
    ensures r.Accept? ==> ParseInt(Trim(form.reorder)).Some?
    ensures r.Reject? ==> r.error != SaveFailed
  {
    if Empty(form.name) then Reject(NameRequired)
    else if Empty(form.sellPrice) then Reject(SellPriceRequired)
    else if Empty(form.stock) then Reject(StockRequired)
    else if NumberFails(form, prices) then Reject(InvalidNumber)
    else
      var sellPrice := prices.sellPrice.value;
      var gst := ParseInt(Trim(form.gst)).value;
      var stock := ParseInt(Trim(form.stock)).value;
      if sellPrice <= 0 then Reject(SellPriceNotPositive)
      else if stock < 0 then Reject(NegativeStock)
      else if gst < 0 || gst > 28 then Reject(GstOutOfRange)
      else
        var sku := Trim(form.sku);
        if sku != [] && ProductDao.FindBySku(rows, Some(sku)).Some? then Reject(SkuExists(sku))
        else Accept(NewProduct(Trim(form.name), Trim(form.variant), Trim(form.category), Trim(form.brand), sku,
                               prices.mrp.value, sellPrice, gst, stock))
  }

  // ---------------------------------------------------------------- the checks as a list

  /** One check of the form: the message it gives and whether the form passes it. */
  datatype Check = Check(error: FormError, passes: bool)

  /** The eight checks in order, given whether the form passes each. */
  function CheckList(nameGiven: bool, sellPriceGiven: bool, stockGiven: bool, numbersParse: bool,
                     sellPricePositive: bool, stockNonNegative: bool, gstInRange: bool,
                     sku: string, skuFree: bool): (c: seq<Check>)
    ensures |c| == 8
  {
    [ Check(NameRequired, nameGiven),
      Check(SellPriceRequired, sellPriceGiven),
      Check(StockRequired, stockGiven),
      Check(InvalidNumber, numbersParse),
      Check(SellPriceNotPositive, sellPricePositive),
      Check(NegativeStock, stockNonNegative),
      Check(GstOutOfRange, gstInRange),
      Check(SkuExists(sku), skuFree) ]
  }

  /**
   * The checks of the form listed in order. A check after a failing one may read a number that
   * did not parse; its verdict is never consulted.
   */
  function Checks(form: FormFields, prices: PriceCents, rows: seq<ProductRow>): seq<Check> {
    var sellPrice := prices.sellPrice.GetOr(0);
    var gst := ParseInt(Trim(form.gst)).GetOr(0);
    var stock := ParseInt(Trim(form.stock)).GetOr(0);
    var sku := Trim(form.sku);
    CheckList(!Empty(form.name), !Empty(form.sellPrice), !Empty(form.stock), !NumberFails(form, prices),
              sellPrice > 0, stock >= 0, 0 <= gst <= 28,
              sku, sku == [] || ProductDao.FindBySku(rows, Some(sku)).None?)
  }

  /** The message of the first failing check, if any. */
  function FirstFailure(checks: seq<Check>): (r: Option<FormError>)
    ensures r.None? <==> forall k :: 0 <= k < |checks| ==> checks[k].passes
    ensures r.Some? ==> exists k :: 0 <= k < |checks| && !checks[k].passes && checks[k].error == r.value &&
                                    forall j :: 0 <= j < k ==> checks[j].passes
  {
    if checks == [] then None
    else if !checks[0].passes then Some(checks[0].error)
    else
      var rest := FirstFailure(checks[1..]);
      assert forall k :: 1 <= k < |checks| ==> checks[k] == checks[1..][k - 1];
      rest
  }

  /** A failing check with only passing checks before it is the first failure. */
  lemma FirstFailureAt(checks: seq<Check>, k: nat)
    requires k < |checks| && !checks[k].passes
    requires forall j :: 0 <= j < k ==> checks[j].passes
    ensures FirstFailure(checks) == Some(checks[k].error)
  {
    var r := FirstFailure(checks);
    var k' :| 0 <= k' < |checks| && !checks[k'].passes && checks[k'].error == r.value &&
              forall j :: 0 <= j < k' ==> checks[j].passes;
    assert k' == k;
  }

  /** The first failure of the eight checks, written out as the cascade of tests it amounts to. */
  lemma CheckListFirstFailure(nameGiven: bool, sellPriceGiven: bool, stockGiven: bool, numbersParse: bool,
                              sellPricePositive: bool, stockNonNegative: bool, gstInRange: bool,
                              sku: string, skuFree: bool)
    ensures FirstFailure(CheckList(nameGiven, sellPriceGiven, stockGiven, numbersParse, sellPricePositive,
                                   stockNonNegative, gstInRange, sku, skuFree)) ==
      if !nameGiven then Some(NameRequired)
      else if !sellPriceGiven then Some(SellPriceRequired)
      else if !stockGiven then Some(StockRequired)
      else if !numbersParse then Some(InvalidNumber)
      else if !sellPricePositive then Some(SellPriceNotPositive)
      else if !stockNonNegative then Some(NegativeStock)
      else if !gstInRange then Some(GstOutOfRange)
      else if !skuFree then Some(SkuExists(sku))
      else None
  {
    var c := CheckList(nameGiven, sellPriceGiven, stockGiven, numbersParse, sellPricePositive,
                       stockNonNegative, gstInRange, sku, skuFree);
    if !nameGiven { FirstFailureAt(c, 0); }
    else if !sellPriceGiven { FirstFailureAt(c, 1); }
    else if !stockGiven { FirstFailureAt(c, 2); }
    else if !numbersParse { FirstFailureAt(c, 3); }
    else if !sellPricePositive { FirstFailureAt(c, 4); }
    else if !stockNonNegative { FirstFailureAt(c, 5); }
    else if !gstInRange { FirstFailureAt(c, 6); }
    else if !skuFree { FirstFailureAt(c, 7); }
    else { assert forall k :: 0 <= k < |c| ==> c[k].passes; }
  }

  /**
   * onSave's cascade of early returns is the first failing check of the list: it accepts the
   * form exactly when every check passes, and otherwise reports the first check that fails.
   */
  lemma ValidateIsFirstFailure(form: FormFields, prices: PriceCents, rows: seq<ProductRow>)
    ensures Validate(form, prices, rows).Accept? <==> FirstFailure(Checks(form, prices, rows)).None?
    ensures Validate(form, prices, rows).Reject? ==>
      FirstFailure(Checks(form, prices, rows)) == Some(Validate(form, prices, rows).error)
  {
    var sellPrice := prices.sellPrice.GetOr(0);
    var gst := ParseInt(Trim(form.gst)).GetOr(0);
    var stock := ParseInt(Trim(form.stock)).GetOr(0);
    var sku := Trim(form.sku);
    var skuFree := sku == [] || ProductDao.FindBySku(rows, Some(sku)).None?;
    var c := Checks(form, prices, rows);
    assert c == CheckList(!Empty(form.name), !Empty(form.sellPrice), !Empty(form.stock), !NumberFails(form, prices),
                          sellPrice > 0, stock >= 0, 0 <= gst <= 28, sku, skuFree);
    CheckListFirstFailure(!Empty(form.name), !Empty(form.sellPrice), !Empty(form.stock), !NumberFails(form, prices),
                          sellPrice > 0, stock >= 0, 0 <= gst <= 28, sku, skuFree);
    var r := Validate(form, prices, rows);
    if Empty(form.name) {
      assert r == Reject(NameRequired) && FirstFailure(c) == Some(NameRequired);
    } else if Empty(form.sellPrice) {
      assert r == Reject(SellPriceRequired) && FirstFailure(c) == Some(SellPriceRequired);
    } else if Empty(form.stock) {
      assert r == Reject(StockRequired) && FirstFailure(c) == Some(StockRequired);
    } else if NumberFails(form, prices) {
      assert r == Reject(InvalidNumber) && FirstFailure(c) == Some(InvalidNumber);
    } else {
      assert sellPrice == prices.sellPrice.value;
      assert gst == ParseInt(Trim(form.gst)).value;
      assert stock == ParseInt(Trim(form.stock)).value;
      if sellPrice <= 0 {
        assert r == Reject(SellPriceNotPositive) && FirstFailure(c) == Some(SellPriceNotPositive);
      } else if stock < 0 {
        assert r == Reject(NegativeStock) && FirstFailure(c) == Some(NegativeStock);
      } else if gst < 0 || gst > 28 {
        assert r == Reject(GstOutOfRange) && FirstFailure(c) == Some(GstOutOfRange);
      } else if !skuFree {
        assert r == Reject(SkuExists(sku)) && FirstFailure(c) == Some(SkuExists(sku));
      } else {
        assert r.Accept? && FirstFailure(c) == None;
      }
    }
  }

  /** The form as first shown is refused for its empty name, whatever the store holds. */
  lemma InitialFormNeedsAName(prices: PriceCents, rows: seq<ProductRow>)
    ensures Validate(InitialForm(), prices, rows) == Reject(NameRequired)
  {
  }

  /** The default GST text is a valid rate, and the default re-order text parses. */
  lemma DefaultsParse()
    ensures ParseInt(Trim(InitialForm().gst)) == Some(18)
    ensures ParseInt(Trim(InitialForm().reorder)) == Some(5)
  {
    var gst := InitialForm().gst;
    assert gst == "18";
    assert KeptFrom(gst, 0) == 0 && KeptUntil(gst, 0, 2) == 2;
    assert Trim(gst) == gst;
    assert DigitsValue(gst, 0, 2) == DigitsValue(gst, 0, 1) * 10 + 8;
    var reorder := InitialForm().reorder;
    assert reorder == "5";
    assert KeptFrom(reorder, 0) == 0 && KeptUntil(reorder, 0, 1) == 1;
    assert Trim(reorder) == reorder;
  }

  // ---------------------------------------------------------------- saving

  /**
   * The row the insert writes for an accepted form: the trimmed texts as given (an empty SKU is
   * stored as empty text, not NULL), an active product with no barcode column, and the columns the
   * form does not pass on (purchase price, HSN, re-order level, unit, description) left NULL or 0.
   */
  function FormRow(id: string, p: NewProduct, createdAt: string): (row: ProductRow)
    ensures row.id == id && row.name == p.name && row.sku == Some(p.sku) && row.barcode == None
    ensures row.sellPriceCents == p.sellPriceCents && row.mrpCents == p.mrpCents
    ensures row.stock == p.stock && row.gstPercent == p.gstPercent && row.isActive == 1
  {
    ProductRow(id, p.name, Some(p.variant), Some(p.category), Some(p.brand), None, Some(p.sku),
               p.mrpCents, p.sellPriceCents, 0, p.gstPercent, None, p.stock, 0, None, None, None,
               1, Some(createdAt), None)
  }

  /** The text encoded on the product's barcode label: its SKU, or its id when it has none. */
  function LabelText(sku: string, productId: string): (r: string)
    ensures r == sku || r == productId
    ensures r == [] <==> sku == [] && productId == []
  {
    if sku == [] then productId else sku
  }

  datatype SaveOutcome = Saved(productId: string, labelText: string) | Refused(error: FormError)

  /**
   * onSave. The price parses, the id the insert generates and the creation time are parameters;
   * the insert fails, as a primary-key violation, when that id is taken.
   */
  method OnSave(db: Store, form: FormFields, prices: PriceCents, newId: string, createdAt: string)
    returns (outcome: SaveOutcome)
    requires db.Valid()
    modifies db
    ensures db.Valid()
    ensures Validate(form, prices, old(db.products)).Reject? ==>
      outcome == Refused(Validate(form, prices, old(db.products)).error) && db.products == old(db.products)
    ensures Validate(form, prices, old(db.products)).Accept? && ProductDao.FindById(old(db.products), newId).Some? ==>
      outcome == Refused(SaveFailed) && db.products == old(db.products)
    ensures Validate(form, prices, old(db.products)).Accept? && ProductDao.FindById(old(db.products), newId).None? ==>
      var entry := Validate(form, prices, old(db.products)).entry;
      outcome == Saved(newId, LabelText(entry.sku, newId)) &&
      db.products == old(db.products) + [FormRow(newId, entry, createdAt)]
    ensures db.customers == old(db.customers) && db.sales == old(db.sales) && db.saleItems == old(db.saleItems)
  {
    var checked := Validate(form, prices, db.products);
    if checked.Reject? {
      return Refused(checked.error);
    }
    var row := FormRow(newId, checked.entry, createdAt);
    var ok := ProductDao.AddProduct(db, row);
    if !ok {
      return Refused(SaveFailed);
    }
    return Saved(newId, LabelText(checked.entry.sku, newId));
  }

  /** A new row with no barcode, labelled with its id, is what a scan of that id finds. */
  lemma IdLabelScansBack(rows: seq<ProductRow>, row: ProductRow)
    requires UniqueProductIds(rows)
    requires forall i :: 0 <= i < |rows| ==> rows[i].id != row.id
    requires row.barcode == None && (row.sku != Some(row.id) || ProductDao.IsBlank(row.id))
    requires forall i :: 0 <= i < |rows| ==> rows[i].barcode != Some(row.id) && rows[i].sku != Some(row.id)
    ensures Checkout.ScanLookup(rows + [row], row.id) == Some(ProductDao.ExtractProduct(row))
  {
    var after := rows + [row];
    assert after[|rows|] == row;
    ProductDao.InsertThenFind(rows, row);
    assert ProductDao.FindByBarcode(after, row.id).None?;
    assert ProductDao.FindBySku(after, Some(row.id)).None?;
  }

  /** A new row with no barcode, labelled with a SKU no other row has, is what a scan of that SKU finds. */
  lemma SkuLabelScansBack(rows: seq<ProductRow>, row: ProductRow, sku: string)
    requires row.barcode == None && row.sku == Some(sku) && !ProductDao.IsBlank(sku)
    requires forall i :: 0 <= i < |rows| ==> rows[i].barcode != Some(sku) && rows[i].sku != Some(sku)
    ensures Checkout.ScanLookup(rows + [row], sku) == Some(ProductDao.ExtractProduct(row))
  {
    var after := rows + [row];
    assert after[|rows|] == row;
    assert ProductDao.FindByBarcode(after, sku).None?;
    assert Seqs.FirstIndex(after, (r: ProductRow) => r.sku == Some(sku)) == Some(|rows|);
  }

  /**
   * The label of a saved product scans back to it: with no other product carrying that text as
   * its barcode (nor, for a label showing the id, as its SKU), the checkout's lookup of the label
   * text finds the new row. A SKU that is neither empty nor blank is unique by the SKU check.
   */
  lemma SavedLabelScansBack(rows: seq<ProductRow>, form: FormFields, prices: PriceCents, newId: string, createdAt: string)
    requires UniqueProductIds(rows)
    requires Validate(form, prices, rows).Accept?
    requires ProductDao.FindById(rows, newId).None?
    requires var sku := Validate(form, prices, rows).entry.sku; sku == [] || !ProductDao.IsBlank(sku)
    requires var text := LabelText(Validate(form, prices, rows).entry.sku, newId);
      forall i :: 0 <= i < |rows| ==> rows[i].barcode != Some(text)
    requires Validate(form, prices, rows).entry.sku == [] ==> forall i :: 0 <= i < |rows| ==> rows[i].sku != Some(newId)
    ensures var entry := Validate(form, prices, rows).entry;
      var row := FormRow(newId, entry, createdAt);
      Checkout.ScanLookup(rows + [row], LabelText(entry.sku, newId)) == Some(ProductDao.ExtractProduct(row))
  {
    var entry := Validate(form, prices, rows).entry;
    var row := FormRow(newId, entry, createdAt);
    if entry.sku == [] {
      IdLabelScansBack(rows, row);
    } else {
      SkuLabelScansBack(rows, row, entry.sku);
    }
  }

  /**
   * Scanning the label of a product just saved with stock puts it in the cart: a new row is
   * active, and the form only accepts a stock of zero or more.
   */
  lemma SavedProductScansIntoCart(rows: seq<ProductRow>, form: FormFields, prices: PriceCents, newId: string,
                                  createdAt: string, lines: seq<CartItems.CartLine>)
    requires UniqueProductIds(rows)
    requires Validate(form, prices, rows).Accept?
    requires ProductDao.FindById(rows, newId).None?
    requires var sku := Validate(form, prices, rows).entry.sku; sku == [] || !ProductDao.IsBlank(sku)
    requires var text := LabelText(Validate(form, prices, rows).entry.sku, newId);
      forall i :: 0 <= i < |rows| ==> rows[i].barcode != Some(text)
    requires Validate(form, prices, rows).entry.sku == [] ==> forall i :: 0 <= i < |rows| ==> rows[i].sku != Some(newId)
    ensures var entry := Validate(form, prices, rows).entry;
      var after := rows + [FormRow(newId, entry, createdAt)];
      var scanned := Checkout.ScanResult(after, lines, LabelText(entry.sku, newId));
      (scanned.0.Added? <==> entry.stock > 0) && (scanned.0 == Checkout.OutOfStock <==> entry.stock == 0)
  {
    SavedLabelScansBack(rows, form, prices, newId, createdAt);
  }
}
