/**
 * dao/ProductDAO.java: row-to-record mapping, the queries on the products table and the
 * UPDATE statements that change stock.
 */
module ProductDao {
  import opened Wrappers
  import opened Seqs
  import opened Products
  import opened Tables

  /** extractProduct: NULL text columns become "" (unit becomes "PCS"); active iff is_active is 1. */
  function ExtractProduct(row: ProductRow): (p: Product)
    ensures p.id == row.id && p.name == row.name && p.stock == row.stock
    ensures p.reorderThreshold == row.reorderThreshold && p.sellPriceCents == row.sellPriceCents
    ensures p.mrpCents == row.mrpCents && p.purchasePriceCents == row.purchasePriceCents
    ensures p.gstPercent == row.gstPercent
    ensures p.variant == row.variant && p.createdAt == row.createdAt
    ensures ReadsAs(p.category, row.category, "") && ReadsAs(p.brand, row.brand, "")
    ensures ReadsAs(p.barcode, row.barcode, "") && ReadsAs(p.sku, row.sku, "")
    ensures ReadsAs(p.hsnCode, row.hsnCode, "") && ReadsAs(p.unit, row.unit, "PCS")
    ensures ReadsAs(p.description, row.description, "") && ReadsAs(p.imagePath, row.imagePath, "")
    ensures ReadsAs(p.updatedAt, row.updatedAt, "")
    ensures p.isActive <==> row.isActive == 1
  {
    Product(
      row.id, row.name, row.variant,
      Some(row.category.GetOr("")), Some(row.brand.GetOr("")),
      Some(row.barcode.GetOr("")), Some(row.sku.GetOr("")),
      row.mrpCents, row.sellPriceCents, row.purchasePriceCents, row.gstPercent,
      Some(row.hsnCode.GetOr("")), row.stock, row.reorderThreshold,
      Some(row.unit.GetOr("PCS")), Some(row.description.GetOr("")), Some(row.imagePath.GetOr("")),
      row.isActive == 1, row.createdAt, Some(row.updatedAt.GetOr("")))
  }

  /** Reading a record back through its own column values changes nothing: the defaults are stable. */
  lemma ExtractIsStable(row: ProductRow)
    ensures var p := ExtractProduct(row);
      ExtractProduct(ProductRow(p.id, p.name, p.variant, p.category, p.brand, p.barcode, p.sku,
        p.mrpCents, p.sellPriceCents, p.purchasePriceCents, p.gstPercent, p.hsnCode, p.stock,
        p.reorderThreshold, p.unit, p.description, p.imagePath, if p.isActive then 1 else 0,
        p.createdAt, p.updatedAt)) == p
  {
  }

  /** The record's isLowStock is the low-stock query's WHERE clause on the row. */
  lemma LowStockAgreesWithQuery(row: ProductRow)
    ensures ExtractProduct(row).IsLowStock() <==> row.stock <= row.reorderThreshold
  {
  }

  /** `SELECT * FROM products WHERE id = ?`: the first matching row, as a record. */
  function FindById(rows: seq<ProductRow>, id: string): (r: Option<Product>)
    ensures r.Some? <==> exists i :: 0 <= i < |rows| && rows[i].id == id
    ensures r.Some? ==> r.value.id == id
    ensures UniqueProductIds(rows) ==>
              forall i :: 0 <= i < |rows| && rows[i].id == id ==> r == Some(ExtractProduct(rows[i]))
  {
    match FirstIndex(rows, (row: ProductRow) => row.id == id)
    case None => None
    case Some(i) => Some(ExtractProduct(rows[i]))
  }

  /** Java's Character.isWhitespace. */
  predicate IsJavaWhitespace(c: char) {
    || c == ' ' || '\t' <= c <= '\r' || '\U{1C}' <= c <= '\U{1F}'
    || c == '\U{1680}' || '\U{2000}' <= c <= '\U{2006}' || '\U{2008}' <= c <= '\U{200A}'
    || c == '\U{2028}' || c == '\U{2029}' || c == '\U{205F}' || c == '\U{3000}'
  }

  /** String.isBlank: empty or whitespace only. */
  predicate IsBlank(s: string): (b: bool)
    ensures s == [] ==> b
    ensures b && s != [] ==> IsJavaWhitespace(s[0]) && IsJavaWhitespace(s[|s| - 1])
  {
    forall k :: 0 <= k < |s| ==> IsJavaWhitespace(s[k])
  }

  /** findBySku: a null or blank SKU is answered with null without a query. */
  function FindBySku(rows: seq<ProductRow>, sku: Option<string>): (r: Option<Product>)
    ensures sku.None? || IsBlank(sku.value) ==> r.None?
    ensures r.Some? <==> sku.Some? && !IsBlank(sku.value) && exists i :: 0 <= i < |rows| && rows[i].sku == sku
    ensures r.Some? ==> r.value.sku == sku
    ensures r.Some? ==>
              exists i :: (0 <= i < |rows| && rows[i].sku == sku && r.value == ExtractProduct(rows[i])
                           && forall j :: 0 <= j < i ==> rows[j].sku != sku)
  {
    if sku.None? || IsBlank(sku.value) then None
    else match FirstIndex(rows, (row: ProductRow) => row.sku == sku)
      case None => None
      case Some(i) => Some(ExtractProduct(rows[i]))
  }

  /**
   * findByBarcode, called by the checkout screen but absent from ProductDAO.java: taken here to be
   * `SELECT * FROM products WHERE barcode = ?`, the first matching row.
   */
  function FindByBarcode(rows: seq<ProductRow>, code: string): (r: Option<Product>)
    ensures r.Some? <==> exists i :: 0 <= i < |rows| && rows[i].barcode == Some(code)
    ensures r.Some? ==> r.value.barcode == Some(code)
    ensures r.Some? ==>
              exists i :: (0 <= i < |rows| && rows[i].barcode == Some(code) && r.value == ExtractProduct(rows[i])
                           && forall j :: 0 <= j < i ==> rows[j].barcode != Some(code))
  {
    match FirstIndex(rows, (row: ProductRow) => row.barcode == Some(code))
    case None => None
    case Some(i) => Some(ExtractProduct(rows[i]))
  }

  /** The records of all rows, in table order. */
  function ExtractAll(rows: seq<ProductRow>): (r: seq<Product>)
    ensures |r| == |rows| && forall i :: 0 <= i < |rows| ==> r[i] == ExtractProduct(rows[i])
  {
    seq(|rows|, i requires 0 <= i < |rows| => ExtractProduct(rows[i]))
  }

  lemma {:induction false} InExtractAll(rows: seq<ProductRow>, p: Product)
    ensures p in ExtractAll(rows) <==> exists i :: 0 <= i < |rows| && p == ExtractProduct(rows[i])
  {
    if p in ExtractAll(rows) {
      var k :| 0 <= k < |ExtractAll(rows)| && ExtractAll(rows)[k] == p;
      assert p == ExtractProduct(rows[k]);
    }
  }

  /** ORDER BY stock */
  predicate StockLeq(a: Product, b: Product) {
    a.stock <= b.stock
  }

  /** ORDER BY name, compared character by character (SQLite's BINARY collation). */
  predicate LexLeq(a: string, b: string) {
    a == [] || (b != [] && (a[0] < b[0] || (a[0] == b[0] && LexLeq(a[1..], b[1..]))))
  }

  predicate NameLeq(a: Product, b: Product) {
    LexLeq(a.name, b.name)
  }

  lemma {:induction false} LexLeqTotal(a: string, b: string)
    ensures LexLeq(a, b) || LexLeq(b, a)
  {
    if a != [] && b != [] && a[0] == b[0] {
      LexLeqTotal(a[1..], b[1..]);
    }
  }

  lemma {:induction false} LexLeqTransitive(a: string, b: string, c: string)
    requires LexLeq(a, b) && LexLeq(b, c)
    ensures LexLeq(a, c)
  {
    if a != [] && b != [] && c != [] && a[0] == b[0] == c[0] {
      LexLeqTransitive(a[1..], b[1..], c[1..]);
    }
  }

  lemma StockOrderIsTotal()
    ensures TotalPreorder(StockLeq)
  {
  }

  lemma NameOrderIsTotal()
    ensures TotalPreorder(NameLeq)
  {
    forall a: Product, b: Product ensures NameLeq(a, b) || NameLeq(b, a) {
      LexLeqTotal(a.name, b.name);
    }
    forall a: Product, b: Product, c: Product | NameLeq(a, b) && NameLeq(b, c) ensures NameLeq(a, c) {
      LexLeqTransitive(a.name, b.name, c.name);
    }
  }

  predicate IsLowRow(row: ProductRow) {
    row.stock <= row.reorderThreshold
  }

  /** getLowStockProducts: `WHERE stock <= reorder_threshold ORDER BY stock`. */
  function LowStockProducts(rows: seq<ProductRow>): (r: seq<Product>)
    ensures forall i, j :: 0 <= i < j < |r| ==> r[i].stock <= r[j].stock
    ensures multiset(r) == multiset(ExtractAll(Filter(rows, IsLowRow)))
  {
    StockOrderIsTotal();
    SortBy(ExtractAll(Filter(rows, IsLowRow)), StockLeq)
  }

  /** The low-stock list holds exactly the records of the rows at or below their reorder threshold. */
  lemma LowStockProductsAreTheLowRows(rows: seq<ProductRow>, p: Product)
    ensures p in LowStockProducts(rows) <==>
              exists i :: 0 <= i < |rows| && IsLowRow(rows[i]) && p == ExtractProduct(rows[i])
    ensures p in LowStockProducts(rows) ==> p.IsLowStock()
  {
    var low := Filter(rows, IsLowRow);
    var all := ExtractAll(low);
    assert p in LowStockProducts(rows) <==> p in all by {
      assert multiset(LowStockProducts(rows)) == multiset(all);
      assert p in LowStockProducts(rows) <==> p in multiset(LowStockProducts(rows));
    }
    InExtractAll(low, p);
    if p in all {
      var k :| 0 <= k < |low| && p == ExtractProduct(low[k]);
      InFilter(rows, IsLowRow, low[k]);
      var i :| 0 <= i < |rows| && rows[i] == low[k];
      assert IsLowRow(rows[i]) && p == ExtractProduct(rows[i]);
    }
    if exists i :: 0 <= i < |rows| && IsLowRow(rows[i]) && p == ExtractProduct(rows[i]) {
      var i :| 0 <= i < |rows| && IsLowRow(rows[i]) && p == ExtractProduct(rows[i]);
      InFilter(rows, IsLowRow, rows[i]);
      var k :| 0 <= k < |low| && low[k] == rows[i];
      assert all[k] == p;
    }
  }

  lemma InFilter(rows: seq<ProductRow>, keep: ProductRow -> bool, row: ProductRow)
    ensures row in Filter(rows, keep) <==> row in rows && keep(row)
    ensures row in Filter(rows, keep) ==> exists k :: 0 <= k < |Filter(rows, keep)| && Filter(rows, keep)[k] == row
    ensures row in rows ==> exists i :: 0 <= i < |rows| && rows[i] == row
  {
  }

  /** getAllProducts: every row, `ORDER BY name`. */
  function AllProducts(rows: seq<ProductRow>): (r: seq<Product>)
    ensures SortedBy(r, NameLeq)
    ensures multiset(r) == multiset(ExtractAll(rows))
    ensures |r| == |rows|
  {
    NameOrderIsTotal();
    var r := SortBy(ExtractAll(rows), NameLeq);
    assert |r| == |multiset(r)| == |ExtractAll(rows)|;
    r
  }

  /** The WHERE clause of decrementStock: the product, with at least `quantity` in stock. */
  predicate CanDecrement(row: ProductRow, id: string, quantity: int) {
    row.id == id && row.stock >= quantity
  }

  /**
   * `UPDATE products SET stock = stock - ? WHERE id = ? AND stock >= ?`; None when no row is
   * updated, which decrementStock turns into an exception.
   */
  function Decrement(rows: seq<ProductRow>, id: string, quantity: int): (r: Option<seq<ProductRow>>)
    ensures r.Some? ==> |r.value| == |rows|
  {
    if exists i :: 0 <= i < |rows| && CanDecrement(rows[i], id, quantity) then
      Some(seq(|rows|, i requires 0 <= i < |rows| =>
        if CanDecrement(rows[i], id, quantity) then rows[i].(stock := rows[i].stock - quantity) else rows[i]))
    else None
  }

  /**
   * The update matches a row exactly when the product exists with at least `quantity` in stock;
   * it then changes nothing but the stock column, and only that product's stock, which stays
   * non-negative.
   */
  lemma DecrementRows(rows: seq<ProductRow>, id: string, quantity: int)
    ensures var r := Decrement(rows, id, quantity);
      r.Some? <==> exists i :: 0 <= i < |rows| && rows[i].id == id && rows[i].stock >= quantity
    ensures var r := Decrement(rows, id, quantity);
      r.Some? ==> |r.value| == |rows| && forall i :: 0 <= i < |rows| ==> r.value[i] == rows[i].(stock := r.value[i].stock)
    ensures var r := Decrement(rows, id, quantity);
      r.Some? && UniqueProductIds(rows) ==>
        forall i :: 0 <= i < |rows| ==>
          r.value[i].stock == if rows[i].id == id then rows[i].stock - quantity else rows[i].stock
    ensures var r := Decrement(rows, id, quantity);
      r.Some? && UniqueProductIds(rows) ==> forall i :: 0 <= i < |rows| && rows[i].id == id ==> r.value[i].stock >= 0
  {
  }

  /** `UPDATE products SET stock = ? WHERE id = ?`: no check on the new value. */
  function SetStock(rows: seq<ProductRow>, id: string, newStock: int): (r: seq<ProductRow>)
    ensures |r| == |rows|
    ensures forall i :: 0 <= i < |rows| ==> r[i] == rows[i].(stock := r[i].stock)
    ensures forall i :: 0 <= i < |rows| ==> r[i].stock == if rows[i].id == id then newStock else rows[i].stock
  {
    seq(|rows|, i requires 0 <= i < |rows| => if rows[i].id == id then rows[i].(stock := newStock) else rows[i])
  }

  /** The stock of the product with the given id, when there is one. */
  function StockOf(rows: seq<ProductRow>, id: string): (r: Option<int>)
    ensures r.Some? <==> exists i :: 0 <= i < |rows| && rows[i].id == id
    ensures UniqueProductIds(rows) ==> forall i :: 0 <= i < |rows| && rows[i].id == id ==> r == Some(rows[i].stock)
  {
    match FirstIndex(rows, (row: ProductRow) => row.id == id)
    case None => None
    case Some(i) => Some(rows[i].stock)
  }

  /** decrementStock succeeds exactly when the product exists with enough stock, and then lowers it. */
  lemma DecrementSucceedsIff(rows: seq<ProductRow>, id: string, quantity: int)
    requires UniqueProductIds(rows)
    ensures Decrement(rows, id, quantity).Some? <==> StockOf(rows, id).Some? && StockOf(rows, id).value >= quantity
    ensures Decrement(rows, id, quantity).Some? ==>
              var rows' := Decrement(rows, id, quantity).value;
              && UniqueProductIds(rows')
              && StockOf(rows', id) == Some(StockOf(rows, id).value - quantity)
              && forall other :: other != id ==> StockOf(rows', other) == StockOf(rows, other)
  {
    var r := Decrement(rows, id, quantity);
    DecrementRows(rows, id, quantity);
    if r.Some? {
      var rows' := r.value;
      assert forall i :: 0 <= i < |rows| ==> rows'[i].id == rows[i].id;
      forall other ensures StockOf(rows', other).Some? <==> StockOf(rows, other).Some? {
      }
      forall other | StockOf(rows, other).Some? ensures StockOf(rows', other).value == (if other == id then StockOf(rows, id).value - quantity else StockOf(rows, other).value) {
        var i :| 0 <= i < |rows| && rows[i].id == other;
      }
    }
  }

  /** The table keeps its primary key through a stock change. */
  lemma SetStockKeepsIds(rows: seq<ProductRow>, id: string, newStock: int)
    requires UniqueProductIds(rows)
    ensures UniqueProductIds(SetStock(rows, id, newStock))
    ensures forall i :: 0 <= i < |rows| ==> SetStock(rows, id, newStock)[i].id == rows[i].id
  {
  }

  /** The row a plain insertProduct writes; the columns it omits are NULL or 0, is_active is 1. */
  function InsertedRow(id: string, name: string, variant: Option<string>, mrpCents: int,
                       sellPriceCents: int, gstPercent: int, stock: int, createdAt: string): ProductRow
  {
    ProductRow(id, name, variant, None, None, None, None, mrpCents, sellPriceCents, 0, gstPercent,
               None, stock, 0, None, None, None, 1, Some(createdAt), None)
  }

  /** Inserting a row with a new id and reading it back by id gives its record, defaults filled in. */
  lemma InsertThenFind(rows: seq<ProductRow>, row: ProductRow)
    requires UniqueProductIds(rows)
    requires forall i :: 0 <= i < |rows| ==> rows[i].id != row.id
    ensures UniqueProductIds(rows + [row])
    ensures FindById(rows + [row], row.id) == Some(ExtractProduct(row))
  {
    assert (rows + [row])[|rows|] == row;
  }

  /** decrementStock */
  method DecrementStock(db: Store, productId: string, quantity: int) returns (ok: bool)
    requires db.Valid()
    modifies db
    ensures db.Valid()
    ensures ok <==> Decrement(old(db.products), productId, quantity).Some?
    ensures ok ==> db.products == Decrement(old(db.products), productId, quantity).value
    ensures !ok ==> db.products == old(db.products)
    ensures db.customers == old(db.customers) && db.sales == old(db.sales) && db.saleItems == old(db.saleItems)
  {
    var updated := Decrement(db.products, productId, quantity);
    DecrementRows(db.products, productId, quantity);
    if updated.Some? {
      assert forall i :: 0 <= i < |db.products| ==> updated.value[i].id == db.products[i].id;
      db.products := updated.value;
      ok := true;
    } else {
      ok := false;
    }
  }

  /** updateStock */
  method UpdateStock(db: Store, productId: string, newStock: int)
    requires db.Valid()
    modifies db
    ensures db.Valid()
    ensures db.products == SetStock(old(db.products), productId, newStock)
    ensures db.customers == old(db.customers) && db.sales == old(db.sales) && db.saleItems == old(db.saleItems)
  {
    SetStockKeepsIds(db.products, productId, newStock);
    db.products := SetStock(db.products, productId, newStock);
  }

  /** The insert: adds a row under a new id; a taken id violates the primary key and fails. */
  method AddProduct(db: Store, row: ProductRow) returns (ok: bool)
    requires db.Valid()
    modifies db
    ensures db.Valid()
    ensures ok <==> forall i :: 0 <= i < |old(db.products)| ==> old(db.products)[i].id != row.id
    ensures db.products == if ok then old(db.products) + [row] else old(db.products)
    ensures db.customers == old(db.customers) && db.sales == old(db.sales) && db.saleItems == old(db.saleItems)
  {
    ok := forall i :: 0 <= i < |db.products| ==> db.products[i].id != row.id;
    if ok {
      InsertThenFind(db.products, row);
      db.products := db.products + [row];
    }
  }

  /** insertProduct(id, name, variant, mrp, sellPrice, gst, stock) */
  method InsertProduct(db: Store, id: string, name: string, variant: Option<string>, mrpCents: int,
                       sellPriceCents: int, gstPercent: int, stock: int, createdAt: string) returns (ok: bool)
    requires db.Valid()
    modifies db
    ensures db.Valid()
    ensures ok <==> FindById(old(db.products), id).None?
    ensures ok ==> FindById(db.products, id) ==
                     Some(ExtractProduct(InsertedRow(id, name, variant, mrpCents, sellPriceCents, gstPercent, stock, createdAt)))
    ensures ok ==> db.products == old(db.products) + [InsertedRow(id, name, variant, mrpCents, sellPriceCents, gstPercent, stock, createdAt)]
    ensures !ok ==> db.products == old(db.products)
    ensures db.customers == old(db.customers) && db.sales == old(db.sales) && db.saleItems == old(db.saleItems)
  {
    var row := InsertedRow(id, name, variant, mrpCents, sellPriceCents, gstPercent, stock, createdAt);
    ok := AddProduct(db, row);
    if ok {
      InsertThenFind(old(db.products), row);
    }
  }
}
