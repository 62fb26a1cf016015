/**
 * The relational store behind the DAOs: the `products`, `customers`, `sales` and `sale_items`
 * tables, each a sequence of rows in scan order. A NULL text column is `None`.
 */
module Tables {
  import opened Wrappers

  /**
   * How a record field reads a nullable text column: the column's text when it has one, and
   * `nullText` when it is NULL.
   */
  predicate ReadsAs(field: Option<string>, column: Option<string>, nullText: string) {
    field == (if column.Some? then column else Some(nullText))
  }

  datatype ProductRow = ProductRow(
    id: string,
    name: string,
    variant: Option<string>,
    category: Option<string>,
    brand: Option<string>,
    barcode: Option<string>,
    sku: Option<string>,
    mrpCents: int,
    sellPriceCents: int,
    purchasePriceCents: int,
    gstPercent: int,
    hsnCode: Option<string>,
    stock: int,
    reorderThreshold: int,
    unit: Option<string>,
    description: Option<string>,
    imagePath: Option<string>,
    isActive: int,
    createdAt: Option<string>,
    updatedAt: Option<string>)

  datatype CustomerRow = CustomerRow(
    id: string,
    name: string,
    phone: string,
    email: Option<string>,
    address: Option<string>,
    city: Option<string>,
    pincode: Option<string>,
    birthday: Option<string>,
    anniversary: Option<string>,
    points: int,
    totalPurchasesCents: int,
    visitCount: int,
    tier: Option<string>,
    notes: Option<string>,
    isActive: int,
    createdAt: Option<string>,
    lastVisit: Option<string>)

  /** A sale header; its status column is always written as 'COMPLETED'. */
  datatype SaleRow = SaleRow(
    id: string,
    invoiceNumber: string,
    customerId: Option<string>,
    ts: string,
    subtotalCents: int,
    taxCents: int,
    discountCents: int,
    totalCents: int,
    paymentMode: string,
    status: string)

  /** One sold line, a snapshot of the cart line it came from. */
  datatype SaleItemRow = SaleItemRow(
    id: string,
    saleId: string,
    productId: string,
    productName: string,
    productVariant: string,
    qty: int,
    unitPriceCents: int,
    taxPercent: int,
    lineTotalCents: int)

  /** `id` is the primary key of the products table. */
  predicate UniqueProductIds(rows: seq<ProductRow>) {
    forall i, j :: 0 <= i < j < |rows| ==> rows[i].id != rows[j].id
  }

  /** `id` is the primary key of the customers table. */
  predicate UniqueCustomerIds(rows: seq<CustomerRow>) {
    forall i, j :: 0 <= i < j < |rows| ==> rows[i].id != rows[j].id
  }

  /** The database the DAOs open connections to. */
  class Store {
    var products: seq<ProductRow>
    var customers: seq<CustomerRow>
    var sales: seq<SaleRow>
    var saleItems: seq<SaleItemRow>

    predicate Valid()
      reads this
    {
      UniqueProductIds(products) && UniqueCustomerIds(customers)
    }

    constructor ()
      ensures Valid()
      ensures products == [] && customers == [] && sales == [] && saleItems == []
    {
      products, customers, sales, saleItems := [], [], [], [];
    }
  }
}
