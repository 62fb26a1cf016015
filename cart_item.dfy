/** A cart line (model/CartItem.java): a product snapshot, a quantity and a line discount. */
module CartItems {
  import opened Products

  /** The value of a cart item at one moment; the amounts are in cents. */
  datatype CartLine = CartLine(product: Product, quantity: int, discountCents: int) {

    /** getSubtotal, in cents: what the product's own line total gives for this quantity. */
    function SubtotalCents(): (r: int)
      ensures r == product.LineTotalCents(quantity)
    {
      product.sellPriceCents * quantity
    }

    /** getLineTotal, in cents: the subtotal less the line discount. */
    function LineTotalCents(): (r: int)
      ensures r + discountCents == SubtotalCents()
    {
      product.sellPriceCents * quantity - discountCents
    }

    /** incrementQuantity */
    function Incremented(): (r: CartLine)
      ensures r.product == product && r.discountCents == discountCents
      ensures r.quantity == quantity + 1
    {
      this.(quantity := quantity + 1)
    }

    /** decrementQuantity: one less, but never below one. */
    function Decremented(): (r: CartLine)
      ensures r.product == product && r.discountCents == discountCents
      ensures quantity > 1 ==> r.quantity == quantity - 1
      ensures quantity <= 1 ==> r == this
    {
      if quantity > 1 then this.(quantity := quantity - 1) else this
    }
  }

  /** At most one line per product: the invariant the checkout screen keeps for its cart. */
  predicate DistinctProducts(lines: seq<CartLine>) {
    forall i, j :: 0 <= i < j < |lines| ==> lines[i].product.id != lines[j].product.id
  }

  /** Decrementing keeps a quantity that starts at one or more at one or more. */
  lemma DecrementKeepsQuantityPositive(l: CartLine)
    requires l.quantity >= 1
    ensures l.Decremented().quantity >= 1
    ensures l.Decremented().quantity == if l.quantity == 1 then 1 else l.quantity - 1
  {
  }

  /** Incrementing and then decrementing gives back the original line. */
  lemma IncrementThenDecrement(l: CartLine)
    requires l.quantity >= 1
    ensures l.Incremented().Decremented() == l
  {
  }

  /** A fresh line has no discount, so its line total is its subtotal. */
  lemma NewLineTotalIsSubtotal(p: Product, quantity: int)
    ensures CartLine(p, quantity, 0).LineTotalCents() == CartLine(p, quantity, 0).SubtotalCents()
  {
  }

  /** The mutable cart item; `Line()` is its value. */
  class CartItem {
    var product: Product
    var quantity: int
    var discountCents: int

    function Line(): CartLine
      reads this
    {
      CartLine(product, quantity, discountCents)
    }

    /** `new CartItem(product, quantity)`: the discount starts at zero. */
    constructor (product: Product, quantity: int)
      ensures Line() == CartLine(product, quantity, 0)
    {
      this.product := product;
      this.quantity := quantity;
      this.discountCents := 0;
    }

    method IncrementQuantity()
      modifies this
      ensures Line() == old(Line()).Incremented()
    {
      quantity := quantity + 1;
    }

    method DecrementQuantity()
      modifies this
      ensures Line() == old(Line()).Decremented()
    {
      if quantity > 1 {
        quantity := quantity - 1;
      }
    }

    method SetQuantity(newQuantity: int)
      modifies this
      ensures Line() == old(Line()).(quantity := newQuantity)
    {
      quantity := newQuantity;
    }
  }
}
