/** The product record (model/Product.java) and its derived values, with money in integer cents. */
module Products {
  import opened Wrappers

  /** Java's `s != null && !s.isEmpty()` on a nullable String. */
  predicate HasText(s: Option<string>) {
    s.Some? && s.value != ""
  }

  /** A product as the application holds it. Nullable Java Strings are `Option<string>`. */
  datatype Product = Product(
    id: string,
    name: string,
    variant: Option<string>,
    category: Option<string>,
    brand: Option<string>,
    barcode: Option<string>,
    sku: Option<string>,
    mrpCents: int,
    sellPriceCents: int,
    purchasePriceCents: int,
    gstPercent: int,
    hsnCode: Option<string>,
    stock: int,
    reorderThreshold: int,
    unit: Option<string>,
    description: Option<string>,
    imagePath: Option<string>,
    isActive: bool,
    createdAt: Option<string>,
    updatedAt: Option<string>)
  {
    /** getDisplayName: the name, followed by " - variant" when there is a variant. */
    function DisplayName(): (r: string)
      ensures name <= r
      ensures r == name <==> !HasText(variant)
      ensures HasText(variant) ==> r[|name|..] == " - " + variant.value
    {
      if HasText(variant) then name + " - " + variant.value else name
    }

    /** getFullDisplayName: built on its own from name, variant and brand. */
    function FullDisplayName(): (r: string)
      ensures DisplayName() <= r
      ensures r == DisplayName() <==> !HasText(brand)
    {
      var withVariant := if HasText(variant) then name + " - " + variant.value else name;
      if HasText(brand) then withVariant + " (" + brand.value + ")" else withVariant
    }

    /** isLowStock */
    predicate IsLowStock(): (b: bool)
      ensures reorderThreshold >= 0 && stock <= 0 ==> b
      ensures stock < 0 && !b ==> reorderThreshold < stock
    {
      stock <= reorderThreshold
    }

    /** isOutOfStock: exactly zero, so a negative stock is not "out of stock". */
    predicate IsOutOfStock(): (b: bool)
      ensures b && reorderThreshold >= 0 ==> IsLowStock()
    {
      stock == 0
    }

    /** calculateLineTotal, in cents rather than rupees. */
    function LineTotalCents(quantity: int): (r: int)
      ensures quantity == 0 ==> r == 0
      ensures quantity == 1 ==> r == sellPriceCents
      ensures sellPriceCents >= 0 && quantity >= 0 ==> r >= 0
    {
      sellPriceCents * quantity
    }

    /** getProfitMargin in exact arithmetic; the guard returns 0 for a zero purchase price. */
    function ProfitMargin(): (r: real)
      ensures purchasePriceCents == 0 ==> r == 0.0
      ensures purchasePriceCents != 0 ==>
                r * (purchasePriceCents as real) == ((sellPriceCents - purchasePriceCents) as real) * 100.0
    {
      if purchasePriceCents == 0 then 0.0
      else ((sellPriceCents - purchasePriceCents) as real * 100.0) / (purchasePriceCents as real)
    }
  }

  /** The full display name is the display name with " (brand)" appended when there is a brand. */
  lemma FullDisplayNameExtendsDisplayName(p: Product)
    ensures HasText(p.brand) ==> p.FullDisplayName() == p.DisplayName() + " (" + p.brand.value + ")"
    ensures !HasText(p.brand) ==> p.FullDisplayName() == p.DisplayName()
  {
  }

  /** With neither variant nor brand both names are just the product name. */
  lemma PlainNames(p: Product)
    requires !HasText(p.variant) && !HasText(p.brand)
    ensures p.DisplayName() == p.name && p.FullDisplayName() == p.name
  {
  }

  /** A negative stock counts as low (for a non-negative threshold) but never as out of stock. */
  lemma NegativeStockIsLowButNotOut(p: Product)
    requires p.stock < 0 && p.reorderThreshold >= 0
    ensures p.IsLowStock() && !p.IsOutOfStock()
  {
  }

  /** The line total is linear in the quantity. */
  lemma LineTotalIsLinear(p: Product, a: int, b: int)
    ensures p.LineTotalCents(a + b) == p.LineTotalCents(a) + p.LineTotalCents(b)
    ensures p.LineTotalCents(0) == 0
  {
    assert p.sellPriceCents * (a + b) == p.sellPriceCents * a + p.sellPriceCents * b;
  }
}
