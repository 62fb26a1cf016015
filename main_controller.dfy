/**
 * The checkout screen (ui/controllers/MainController.java): the cart, the selected customer,
 * the discount, the scanner's key buffer, and the handlers that change them.
 */
module Checkout {
  import opened Wrappers
  import opened Seqs
  import opened Products
  import opened Customers
  import opened CartItems
  import opened Tables
  import ProductDao
  import CustomerDao
  import SalesDao

  // ---------------------------------------------------------------- addToCart

  /** What addToCart did with a product. */
  datatype AddOutcome = Merged | AtStockLimit | Appended

  /**
   * addToCart on cart values: a repeat of a product already in the cart grows that line by one
   * while its quantity is below the scanned product's stock; a new product gets a line of one.
   */
  function AddToCartLines(lines: seq<CartLine>, product: Product): (r: (AddOutcome, seq<CartLine>))
    ensures r.0.Appended? <==> forall k :: 0 <= k < |lines| ==> lines[k].product.id != product.id
    ensures r.0.Appended? ==> r.1 == lines + [CartLine(product, 1, 0)]
    ensures r.0.Merged? ==>
      exists k :: 0 <= k < |lines| && lines[k].product.id == product.id && lines[k].quantity < product.stock &&
                  r.1 == lines[k := lines[k].Incremented()]
    ensures r.0.AtStockLimit? ==>
      r.1 == lines && exists k :: 0 <= k < |lines| && lines[k].product.id == product.id && lines[k].quantity >= product.stock
  {
    match FirstIndex(lines, (l: CartLine) => l.product.id == product.id)
    case Some(k) =>
      if lines[k].quantity < product.stock then (Merged, lines[k := lines[k].Incremented()])
      else (AtStockLimit, lines)
    case None => (Appended, lines + [CartLine(product, 1, 0)])
  }

  /** Every quantity in the cart is at least one. */
  predicate PositiveQuantities(lines: seq<CartLine>) {
    forall k :: 0 <= k < |lines| ==> lines[k].quantity >= 1
  }

  /**
   * addToCart keeps one line per product and positive quantities, and a line it merges into
   * never exceeds the stock of the product scanned.
   */
  lemma AddToCartKeepsInvariant(lines: seq<CartLine>, product: Product)
    requires DistinctProducts(lines) && PositiveQuantities(lines)
    ensures DistinctProducts(AddToCartLines(lines, product).1)
    ensures PositiveQuantities(AddToCartLines(lines, product).1)
    ensures AddToCartLines(lines, product).0.Merged? ==>
      forall k :: 0 <= k < |lines| && lines[k].product.id == product.id ==>
        AddToCartLines(lines, product).1[k].quantity <= product.stock
  {
    var r := AddToCartLines(lines, product);
    if r.0.Merged? {
      var k :| 0 <= k < |lines| && lines[k].product.id == product.id && lines[k].quantity < product.stock &&
               r.1 == lines[k := lines[k].Incremented()];
      assert forall j :: 0 <= j < |lines| ==> r.1[j].product == lines[j].product;
    }
  }

  // ---------------------------------------------------------------- scanning

  /** The product a scanned code stands for: by barcode, else by SKU, else by id. */
  function ScanLookup(rows: seq<ProductRow>, code: string): (r: Option<Product>)
    ensures r.Some? ==> r.value.barcode == Some(code) || r.value.sku == Some(code) || r.value.id == code
    ensures r.None? <==>
      (forall i :: 0 <= i < |rows| ==> rows[i].barcode != Some(code) && rows[i].id != code) &&
      (ProductDao.IsBlank(code) || forall i :: 0 <= i < |rows| ==> rows[i].sku != Some(code))
  {
    var byBarcode := ProductDao.FindByBarcode(rows, code);
    if byBarcode.Some? then byBarcode
    else
      var bySku := ProductDao.FindBySku(rows, Some(code));
      if bySku.Some? then bySku else ProductDao.FindById(rows, code)
  }

  /** A barcode match wins over a SKU match, which wins over an id match. */
  lemma ScanLookupOrder(rows: seq<ProductRow>, code: string)
    ensures ProductDao.FindByBarcode(rows, code).Some? ==> ScanLookup(rows, code) == ProductDao.FindByBarcode(rows, code)
    ensures ProductDao.FindByBarcode(rows, code).None? && ProductDao.FindBySku(rows, Some(code)).Some? ==>
      ScanLookup(rows, code) == ProductDao.FindBySku(rows, Some(code))
    ensures ProductDao.FindByBarcode(rows, code).None? && ProductDao.FindBySku(rows, Some(code)).None? ==>
      ScanLookup(rows, code) == ProductDao.FindById(rows, code)
  {
  }

  /** What handleBarcodeScanned did with a code. */
  datatype ScanOutcome = NotFound | Inactive | OutOfStock | Added(how: AddOutcome)

  /** handleBarcodeScanned on cart values: reject unknown, inactive and out-of-stock products. */
  function ScanResult(rows: seq<ProductRow>, lines: seq<CartLine>, code: string): (r: (ScanOutcome, seq<CartLine>))
    ensures r.0 == NotFound <==> ScanLookup(rows, code).None?
    ensures r.0 == Inactive <==> ScanLookup(rows, code).Some? && !ScanLookup(rows, code).value.isActive
    ensures r.0 == OutOfStock <==>
      ScanLookup(rows, code).Some? && ScanLookup(rows, code).value.isActive && ScanLookup(rows, code).value.stock <= 0
    ensures !r.0.Added? ==> r.1 == lines
    ensures r.0.Added? ==> (r.0.how, r.1) == AddToCartLines(lines, ScanLookup(rows, code).value)
  {
    match ScanLookup(rows, code)
    case None => (NotFound, lines)
    case Some(p) =>
      if !p.isActive then (Inactive, lines)
      else if p.stock <= 0 then (OutOfStock, lines)
      else var added := AddToCartLines(lines, p); (Added(added.0), added.1)
  }

  /** A scan adds a line only for an active product with stock, so a new line is never empty. */
  lemma ScanAppendsOnlyStockedProducts(rows: seq<ProductRow>, lines: seq<CartLine>, code: string)
    requires ScanResult(rows, lines, code).0 == Added(Appended)
    ensures var last := ScanResult(rows, lines, code).1[|lines|];
      last.quantity == 1 && last.product.isActive && last.quantity <= last.product.stock
  {
  }

  // ---------------------------------------------------------------- key buffer

  datatype KeyKind = Letter | Digit | Enter | OtherKey

  /** A key press: its code's kind and the text it types. */
  datatype KeyEvent = KeyEvent(kind: KeyKind, text: string)

  /** The listener's captured state: the buffer and the time of the last key, in milliseconds. */
  datatype ScanState = ScanState(buffer: string, lastKeyTime: int)

  /**
   * One key press: a gap of more than 100 ms drops a non-empty buffer, letters and digits are
   * appended, and Enter hands over a non-empty buffer and empties it.
   */
  function KeyStep(s: ScanState, now: int, key: KeyEvent): (r: (ScanState, Option<string>))
    ensures r.0.lastKeyTime == now
    ensures r.1.Some? <==> key.kind == Enter && |s.buffer| > 0 && now - s.lastKeyTime <= 100
    ensures r.1.Some? ==> r.1.value == s.buffer && r.0.buffer == ""
    ensures (key.kind == Letter || key.kind == Digit) ==>
      r.0.buffer == (if now - s.lastKeyTime > 100 then "" else s.buffer) + key.text
  {
    var kept := if now - s.lastKeyTime > 100 && |s.buffer| > 0 then "" else s.buffer;
    var typed := if key.kind == Letter || key.kind == Digit then kept + key.text else kept;
    if key.kind == Enter && |typed| > 0 then (ScanState("", now), Some(typed))
    else (ScanState(typed, now), None)
  }

  datatype TimedKey = TimedKey(time: int, key: KeyEvent)

  /** A run of key presses: the final state and every code handed over, in order. */
  function Feed(s: ScanState, keys: seq<TimedKey>): (r: (ScanState, seq<string>))
    ensures keys == [] ==> r == (s, [])
    ensures keys != [] ==> r.0.lastKeyTime == keys[|keys| - 1].time
    ensures |r.1| <= |keys|
    decreases |keys|
  {
    if keys == [] then (s, [])
    else
      var step := KeyStep(s, keys[0].time, keys[0].key);
      var rest := Feed(step.0, keys[1..]);
      (rest.0, (if step.1.Some? then [step.1.value] else []) + rest.1)
  }

  /** The text of a run of keys. */
  function Typed(keys: seq<TimedKey>): string
    decreases |keys|
  {
    if keys == [] then "" else keys[0].key.text + Typed(keys[1..])
  }

  /**
   * What a hardware scanner sends: letter or digit keys that type something, the first one
   * within 100 ms of the previous key (or onto an empty buffer), each next one within 100 ms.
   */
  predicate Burst(s: ScanState, keys: seq<TimedKey>) {
    (forall k :: 0 <= k < |keys| ==> (keys[k].key.kind == Letter || keys[k].key.kind == Digit) && keys[k].key.text != "") &&
    (forall k :: 0 < k < |keys| ==> keys[k].time - keys[k - 1].time <= 100) &&
    (|keys| > 0 && |s.buffer| > 0 ==> keys[0].time - s.lastKeyTime <= 100)
  }

  /** A burst only appends: nothing is handed over and the buffer grows by the burst's text. */
  lemma {:induction false} BurstAppends(s: ScanState, keys: seq<TimedKey>)
    requires Burst(s, keys)
    ensures Feed(s, keys).1 == []
    ensures Feed(s, keys).0.buffer == s.buffer + Typed(keys)
    ensures keys != [] ==> Feed(s, keys).0.lastKeyTime == keys[|keys| - 1].time
    ensures keys == [] ==> Feed(s, keys).0 == s
    decreases |keys|
  {
    if keys != [] {
      var step := KeyStep(s, keys[0].time, keys[0].key);
      assert step.0.buffer == s.buffer + keys[0].key.text && step.1 == None;
      assert Burst(step.0, keys[1..]);
      BurstAppends(step.0, keys[1..]);
      var rest := Feed(step.0, keys[1..]);
      assert Feed(s, keys) == (rest.0, [] + rest.1);
      assert Typed(keys) == keys[0].key.text + Typed(keys[1..]);
      assert s.buffer + Typed(keys) == step.0.buffer + Typed(keys[1..]);
    }
  }

  /**
   * A scan into an empty buffer followed by Enter within 100 ms hands over exactly the scanned
   * text, once, and leaves the buffer empty.
   */
  lemma ScanIsHandedOver(t: int, keys: seq<TimedKey>, enter: TimedKey)
    requires keys != [] && Burst(ScanState("", t), keys)
    requires enter.key.kind == Enter && enter.time - keys[|keys| - 1].time <= 100
    ensures Feed(ScanState("", t), keys + [enter]).1 == [Typed(keys)]
    ensures Feed(ScanState("", t), keys + [enter]).0.buffer == ""
  {
    var s := ScanState("", t);
    BurstAppends(s, keys);
    FeedAppend(s, keys, [enter]);
    var mid := Feed(s, keys).0;
    assert mid.buffer == Typed(keys);
    assert keys[0].key.text != "";
    assert |Typed(keys)| > 0;
    assert [enter][1..] == [];
    assert KeyStep(mid, enter.time, enter.key) == (ScanState("", enter.time), Some(mid.buffer));
    assert Feed(ScanState("", enter.time), []) == (ScanState("", enter.time), []);
    assert [mid.buffer] + [] == [mid.buffer];
    assert Feed(mid, [enter]) == (ScanState("", enter.time), [mid.buffer]);
    assert Feed(s, keys).1 + [mid.buffer] == [Typed(keys)];
  }

  lemma {:induction false} FeedAppend(s: ScanState, a: seq<TimedKey>, b: seq<TimedKey>)
    ensures Feed(s, a + b).0 == Feed(Feed(s, a).0, b).0
    ensures Feed(s, a + b).1 == Feed(s, a).1 + Feed(Feed(s, a).0, b).1
    decreases |a|
  {
    if a == [] {
      assert a + b == b;
    } else {
      assert (a + b)[0] == a[0];
      assert (a + b)[1..] == a[1..] + b;
      var step := KeyStep(s, a[0].time, a[0].key);
      FeedAppend(step.0, a[1..], b);
      var head := if step.1.Some? then [step.1.value] else [];
      assert Feed(s, a + b).1 == head + Feed(step.0, a[1..] + b).1;
      assert Feed(s, a).1 == head + Feed(step.0, a[1..]).1;
    }
  }

  /** Typing by hand, with more than 100 ms between keys, leaves only the last key in the buffer. */
  lemma SlowKeyRestartsBuffer(s: ScanState, now: int, key: KeyEvent)
    requires key.kind == Letter || key.kind == Digit
    requires now - s.lastKeyTime > 100
    ensures KeyStep(s, now, key).0.buffer == key.text
  {
  }

  /** Enter after a pause of more than 100 ms hands nothing over, whatever the buffer held. */
  lemma StaleEnterHandsOverNothing(s: ScanState, now: int)
    requires now - s.lastKeyTime > 100
    ensures KeyStep(s, now, KeyEvent(Enter, "")).1 == None
    ensures KeyStep(s, now, KeyEvent(Enter, "")).0.buffer == ""
  {
  }

  // ---------------------------------------------------------------- points redemption

  /** The points dialog: closed, a text that is not an integer, or an integer. */
  datatype PointsEntry = DialogClosed | NotANumber | Entered(points: int)

  datatype RedeemOutcome =
    | NoCustomer | TooFewPoints | Closed | InvalidNumber | NotEnoughPoints | BelowMinimum
    | Accepted(points: int)

  /** The checks of onRedeemPoints, in the order they are made. */
  function RedeemDecision(customer: Option<Customer>, entry: PointsEntry): (r: RedeemOutcome)
    ensures r.Accepted? ==> customer.Some? && 100 <= r.points <= customer.value.points
  {
    if customer.None? then NoCustomer
    else if customer.value.points < 100 then TooFewPoints
    else match entry
      case DialogClosed => Closed
      case NotANumber => InvalidNumber
      case Entered(n) =>
        if n > customer.value.points then NotEnoughPoints
        else if n < 100 then BelowMinimum
        else Accepted(n)
  }

  /**
   * A redemption is accepted exactly when a customer is selected and the entered number lies
   * between 100 and the customer's balance, which is then at least 100; it never asks for
   * more than the customer's available discount.
   */
  lemma RedeemAcceptedIff(customer: Option<Customer>, entry: PointsEntry, n: int)
    ensures RedeemDecision(customer, entry) == Accepted(n) <==>
      customer.Some? && entry == Entered(n) && 100 <= n <= customer.value.points
    ensures RedeemDecision(customer, entry) == Accepted(n) ==>
      customer.value.points >= 100 && n <= customer.value.AvailableDiscount()
  {
  }

  /**
   * The points onCompleteSale takes from the customer: the whole discount in rupees, when a
   * customer is selected, the discount is positive and the cached balance covers it.
   */
  function CheckoutRedemption(customer: Option<Customer>, discountCents: int): (r: Option<(string, int)>)
    ensures r.Some? ==> customer.Some? && r.value.0 == customer.value.id && 0 <= r.value.1 <= customer.value.points
    ensures r.Some? ==> 100 * r.value.1 <= discountCents < 100 * (r.value.1 + 1)
  {
    if customer.Some? && discountCents > 0 && discountCents / 100 <= customer.value.points
    then Some((customer.value.id, discountCents / 100))
    else None
  }

  /**
   * Points accepted in the dialog onto a zero discount are the points taken at checkout; but
   * any discount typed by hand is taken from the balance too, one point per rupee.
   */
  lemma CheckoutRedeemsTheDiscount(c: Customer, entry: PointsEntry, manualCents: int)
    ensures RedeemDecision(Some(c), entry).Accepted? ==>
      CheckoutRedemption(Some(c), 100 * RedeemDecision(Some(c), entry).points) == Some((c.id, RedeemDecision(Some(c), entry).points))
    ensures 100 <= manualCents && manualCents / 100 <= c.points ==>
      CheckoutRedemption(Some(c), manualCents) == Some((c.id, manualCents / 100))
    ensures CheckoutRedemption(None, manualCents) == None
  {
  }

  /** The customers table after the redemption step; `None` when redeemPoints throws. */
  function Redeemed(customers: seq<CustomerRow>, customer: Option<Customer>, discountCents: int): (r: Option<seq<CustomerRow>>)
    ensures CheckoutRedemption(customer, discountCents).None? ==> r == Some(customers)
    ensures r.None? ==> customer.Some?
    ensures r.None? ==>
              forall i :: 0 <= i < |customers| && customers[i].id == customer.value.id ==>
                customers[i].points < discountCents / 100
    ensures r.Some? ==> |r.value| == |customers|
    ensures r.Some? ==>
              forall i :: 0 <= i < |customers| ==> r.value[i] == customers[i].(points := r.value[i].points)
  {
    match CheckoutRedemption(customer, discountCents)
    case None => Some(customers)
    case Some(r) => CustomerDao.Redeem(customers, r.0, r.1)
  }

  /** The customer id a sale records: the selected customer's, or NULL for a walk-in. */
  function CustomerId(customer: Option<Customer>): (r: Option<string>)
    ensures r.Some? <==> customer.Some?
    ensures customer.Some? ==> r.value == customer.value.id
  {
    if customer.Some? then Some(customer.value.id) else None
  }

  /**
   * The customers table after a completed checkout: the redemption, then the sale's points
   * award for the sale's total; None when the redemption fails.
   */
  function CustomersAfterCheckout(customers: seq<CustomerRow>, customer: Option<Customer>, discountCents: int,
                                  lines: seq<CartLine>): (r: Option<seq<CustomerRow>>)
    ensures r.None? <==> Redeemed(customers, customer, discountCents).None?
    ensures r.Some? ==> |r.value| == |customers|
    ensures customer.None? ==> r == Some(customers)
  {
    match Redeemed(customers, customer, discountCents)
    case None => None
    case Some(redeemed) =>
      Some(SalesDao.AwardPoints(redeemed, CustomerId(customer), SalesDao.SubtotalCents(lines) - discountCents))
  }

  /** Once the redemption has given `redeemed`, the checkout's customers are the award on top of it. */
  lemma AfterRedemption(customers: seq<CustomerRow>, redeemed: seq<CustomerRow>, customer: Option<Customer>,
                        discountCents: int, lines: seq<CartLine>)
    requires Redeemed(customers, customer, discountCents) == Some(redeemed)
    ensures CustomersAfterCheckout(customers, customer, discountCents, lines) ==
      Some(SalesDao.AwardPoints(redeemed, CustomerId(customer), SalesDao.SubtotalCents(lines) - discountCents))
  {
  }

  /** What onCompleteSale did. */
  datatype CheckoutOutcome = CartEmpty | Cancelled | RedemptionFailed | SaleFailed | Completed(saleId: string)

  // ---------------------------------------------------------------- the controller

  /** The values of a list of cart items. */
  function LinesOf(items: seq<CartItem>): (r: seq<CartLine>)
    reads items
    ensures |r| == |items| && forall i :: 0 <= i < |items| ==> r[i] == items[i].Line()
  {
    seq(|items|, i requires 0 <= i < |items| reads items => items[i].Line())
  }

  class MainController {
    var cart: seq<CartItem>
    var currentCustomer: Option<Customer>
    /** The discount field, in cents. */
    var discountCents: int
    var scanBuffer: string
    var lastKeyTime: int

    /** The cart as values, in table order. */
    function Lines(): seq<CartLine>
      reads this`cart, cart
    {
      LinesOf(cart)
    }

    function Scanner(): ScanState
      reads this
    {
      ScanState(scanBuffer, lastKeyTime)
    }

    /** Each cart item appears once, with its own product and a positive quantity. */
    predicate Valid()
      reads this`cart, cart
    {
      (forall i, j :: 0 <= i < j < |cart| ==> cart[i] != cart[j]) &&
      DistinctProducts(Lines()) && PositiveQuantities(Lines())
    }

    /** A fresh screen: empty cart, walk-in customer, discount "0", empty key buffer. */
    constructor ()
      ensures Valid()
      ensures Lines() == [] && currentCustomer == None && discountCents == 0 && Scanner() == ScanState("", 0)
    {
      cart := [];
      currentCustomer := None;
      discountCents := 0;
      scanBuffer := "";
      lastKeyTime := 0;
    }

    /** incrementQuantity on the item at `i`: the cart keeps its items, one line grows by one. */
    method IncrementAt(i: nat)
      requires Valid() && i < |cart|
      modifies cart[i]
      ensures Valid()
      ensures Lines() == old(Lines())[i := old(Lines())[i].Incremented()]
    {
      ghost var before := Lines();
      cart[i].IncrementQuantity();
      assert Lines() == before[i := before[i].Incremented()] by {
        assert forall j :: 0 <= j < |cart| && j != i ==> cart[j].Line() == before[j];
      }
    }

    /** `cart.add(new CartItem(product, 1))` for a product not yet in the cart. */
    method AppendNew(product: Product)
      requires Valid()
      requires forall j :: 0 <= j < |cart| ==> cart[j].product.id != product.id
      modifies this`cart
      ensures Valid()
      ensures Lines() == old(Lines()) + [CartLine(product, 1, 0)]
    {
      ghost var before := Lines();
      var item := new CartItem(product, 1);
      cart := cart + [item];
      assert Lines() == before + [CartLine(product, 1, 0)];
    }

    /** addToCart: search the cart for the product, then merge, refuse or append. */
    method AddToCart(product: Product) returns (outcome: AddOutcome)
      requires Valid()
      modifies this, cart
      ensures Valid()
      ensures (outcome, Lines()) == AddToCartLines(old(Lines()), product)
      ensures currentCustomer == old(currentCustomer) && discountCents == old(discountCents) && Scanner() == old(Scanner())
    {
      ghost var before := Lines();
      var i := 0;
      while i < |cart| && cart[i].product.id != product.id
        invariant 0 <= i <= |cart|
        invariant forall j :: 0 <= j < i ==> cart[j].product.id != product.id
      {
        i := i + 1;
      }
      if i < |cart| {
        assert FirstIndex(before, (l: CartLine) => l.product.id == product.id) == Some(i) by {
          assert forall j :: 0 <= j < i ==> before[j].product.id != product.id;
        }
        if cart[i].quantity < product.stock {
          IncrementAt(i);
          return Merged;
        } else {
          return AtStockLimit;
        }
      }
      assert FirstIndex(before, (l: CartLine) => l.product.id == product.id) == None;
      AppendNew(product);
      return Appended;
    }

    /** The quantity cell's commit: applied only when 0 < newQuantity <= the line's product stock. */
    method EditQuantity(k: nat, newQuantity: int) returns (applied: bool)
      requires Valid() && k < |cart|
      modifies cart[k]
      ensures Valid()
      ensures applied <==> 0 < newQuantity <= old(Lines())[k].product.stock
      ensures Lines() == if applied then old(Lines())[k := old(Lines())[k].(quantity := newQuantity)] else old(Lines())
    {
      var item := cart[k];
      if newQuantity > 0 && newQuantity <= item.product.stock {
        ghost var before := Lines();
        item.SetQuantity(newQuantity);
        assert forall j :: 0 <= j < |cart| && j != k ==> Lines()[j] == before[j];
        assert Lines() == before[k := before[k].(quantity := newQuantity)];
        applied := true;
      } else {
        applied := false;
      }
    }

    /**
     * The Remove button of row `k`: that item leaves the cart, the others keep their order, and
     * since each product has one line, its product is no longer in the cart.
     */
    method RemoveAt(k: nat)
      requires Valid() && k < |cart|
      modifies this`cart
      ensures Valid()
      ensures Lines() == old(Lines())[..k] + old(Lines())[k + 1..]
      ensures forall j :: 0 <= j < |Lines()| ==> Lines()[j].product.id != old(Lines())[k].product.id
    {
      ghost var before := Lines();
      cart := cart[..k] + cart[k + 1..];
      assert Lines() == before[..k] + before[k + 1..];
    }

    /** handleBarcodeScanned: look the code up, reject what cannot be sold, else addToCart. */
    method HandleBarcodeScanned(db: Store, code: string) returns (outcome: ScanOutcome)
      requires Valid()
      modifies this, cart
      ensures Valid()
      ensures (outcome, Lines()) == ScanResult(db.products, old(Lines()), code)
      ensures currentCustomer == old(currentCustomer) && discountCents == old(discountCents) && Scanner() == old(Scanner())
    {
      var product := ScanLookup(db.products, code);
      if product.None? {
        return NotFound;
      }
      if !product.value.isActive {
        return Inactive;
      }
      if product.value.stock <= 0 {
        return OutOfStock;
      }
      var how := AddToCart(product.value);
      return Added(how);
    }

    /** The key listener's handling of the scan buffer: the code an Enter hands over, if any. */
    method TakeKey(now: int, key: KeyEvent) returns (code: Option<string>)
      modifies this`scanBuffer, this`lastKeyTime
      ensures (Scanner(), code) == KeyStep(old(Scanner()), now, key)
    {
      if now - lastKeyTime > 100 && |scanBuffer| > 0 {
        scanBuffer := "";
      }
      lastKeyTime := now;
      if key.kind == Letter || key.kind == Digit {
        scanBuffer := scanBuffer + key.text;
      }
      code := None;
      if key.kind == Enter && |scanBuffer| > 0 {
        code := Some(scanBuffer);
        scanBuffer := "";
      }
    }

    /** The window's key listener; a handed-over code goes to handleBarcodeScanned. */
    method OnKeyPressed(db: Store, now: int, key: KeyEvent) returns (handedOver: Option<string>)
      requires Valid()
      modifies this, cart
      ensures Valid()
      ensures (Scanner(), handedOver) == KeyStep(old(Scanner()), now, key)
      ensures handedOver.None? ==> Lines() == old(Lines())
      ensures handedOver.Some? ==> Lines() == ScanResult(db.products, old(Lines()), handedOver.value).1
      ensures currentCustomer == old(currentCustomer) && discountCents == old(discountCents)
    {
      handedOver := TakeKey(now, key);
      if handedOver.Some? {
        var _ := HandleBarcodeScanned(db, handedOver.value);
      }
    }

    /** onRedeemPoints: the accepted points are added to the discount, one rupee per point. */
    method OnRedeemPoints(entry: PointsEntry) returns (outcome: RedeemOutcome)
      modifies this
      ensures outcome == RedeemDecision(old(currentCustomer), entry)
      ensures discountCents == old(discountCents) + (if outcome.Accepted? then 100 * outcome.points else 0)
      ensures cart == old(cart) && currentCustomer == old(currentCustomer) && Scanner() == old(Scanner())
    {
      if currentCustomer.None? {
        return NoCustomer;
      }
      if currentCustomer.value.points < 100 {
        return TooFewPoints;
      }
      match entry {
        case DialogClosed => return Closed;
        case NotANumber => return InvalidNumber;
        case Entered(points) =>
          if points > currentCustomer.value.points {
            return NotEnoughPoints;
          }
          if points < 100 {
            return BelowMinimum;
          }
          discountCents := discountCents + 100 * points;
          return Accepted(points);
      }
    }

    /** clearCart: empty cart, walk-in customer, discount back to "0". */
    method ClearCart()
      modifies this
      ensures Valid()
      ensures cart == [] && currentCustomer == None && discountCents == 0 && Scanner() == old(Scanner())
    {
      cart := [];
      currentCustomer := None;
      discountCents := 0;
    }

    /**
     * onClearCustomer: back to a walk-in sale. The discount field is left as it is, so points
     * accepted for the customer stay as a discount that checkout no longer takes from anyone.
     */
    method OnClearCustomer()
      modifies this`currentCustomer
      ensures currentCustomer == None
      ensures discountCents == old(discountCents) && cart == old(cart)
    {
      currentCustomer := None;
    }

    /**
     * The redemption step of onCompleteSale: a positive discount is taken from a selected
     * customer's points, one point per rupee, when the cached balance covers it; `false` when
     * redeemPoints throws because the stored balance does not.
     */
    method RedeemAtCheckout(db: Store) returns (ok: bool)
      requires db.Valid()
      modifies db
      ensures db.Valid()
      ensures ok <==> Redeemed(old(db.customers), currentCustomer, discountCents).Some?
      ensures db.customers == if ok then Redeemed(old(db.customers), currentCustomer, discountCents).value else old(db.customers)
      ensures db.products == old(db.products) && db.sales == old(db.sales) && db.saleItems == old(db.saleItems)
    {
      ok := true;
      if currentCustomer.Some? && discountCents > 0 {
        var pointsToRedeem := discountCents / 100;
        if pointsToRedeem <= currentCustomer.value.points {
          ok := CustomerDao.RedeemPoints(db, currentCustomer.value.id, pointsToRedeem);
        }
      }
    }

    /**
     * The sale itself, once the points are redeemed: completeSale on the cart's lines, and a
     * cleared cart when it commits.
     */
    method RecordSale(db: Store, lines: seq<CartLine>, customerId: Option<string>, saleDiscount: int, paymentMode: string,
                      saleId: string, invoiceNumber: string, timestamp: string, taxCents: int,
                      itemIds: seq<string>, lineTotals: seq<int>)
      returns (outcome: CheckoutOutcome)
      requires Valid() && db.Valid()
      requires |itemIds| == |lines| && |lineTotals| == |lines|
      modifies this, db
      ensures Valid() && db.Valid()
      ensures outcome == SaleFailed || outcome.Completed?
      ensures outcome == SaleFailed <==> SalesDao.DecrementAll(old(db.products), lines).None?
      ensures outcome == SaleFailed ==>
        cart == old(cart) && currentCustomer == old(currentCustomer) && discountCents == old(discountCents) &&
        db.customers == old(db.customers) && db.products == old(db.products) &&
        db.sales == old(db.sales) && db.saleItems == old(db.saleItems)
      ensures outcome.Completed? ==> outcome.saleId == saleId && cart == [] && currentCustomer == None && discountCents == 0
      ensures outcome.Completed? ==> db.products == SalesDao.DecrementAll(old(db.products), lines).value
      ensures outcome.Completed? ==>
        db.sales == old(db.sales) + [SalesDao.SaleHeader(saleId, invoiceNumber, customerId, timestamp,
                                                         lines, taxCents, saleDiscount, paymentMode)]
      ensures outcome.Completed? ==> db.saleItems == old(db.saleItems) + SalesDao.ItemRows(saleId, itemIds, lines, lineTotals)
      ensures outcome.Completed? ==>
        db.customers == SalesDao.AwardPoints(old(db.customers), customerId, SalesDao.SubtotalCents(lines) - saleDiscount)
      ensures Scanner() == old(Scanner())
    {
      var result := SalesDao.CompleteSale(db, lines, customerId, saleDiscount, paymentMode,
                                          saleId, invoiceNumber, timestamp, taxCents, itemIds, lineTotals);
      if result.None? {
        return SaleFailed;
      }
      ClearCart();
      return Completed(result.value);
    }

    /**
     * The part of onCompleteSale after the dialogs: points are redeemed first, outside the sale's
     * transaction, so a sale that fails afterwards keeps the redemption; a completed sale clears
     * the cart.
     */
    method SettleSale(db: Store, lines: seq<CartLine>, customer: Option<Customer>, saleDiscount: int, paymentMode: string,
                      saleId: string, invoiceNumber: string, timestamp: string, taxCents: int,
                      itemIds: seq<string>, lineTotals: seq<int>)
      returns (outcome: CheckoutOutcome)
      requires Valid() && db.Valid()
      requires customer == currentCustomer && saleDiscount == discountCents
      requires |itemIds| == |lines| && |lineTotals| == |lines|
      modifies this, db
      ensures Valid() && db.Valid()
      ensures outcome == RedemptionFailed || outcome == SaleFailed || outcome.Completed?
      ensures outcome == RedemptionFailed <==> Redeemed(old(db.customers), customer, saleDiscount).None?
      ensures outcome == SaleFailed <==>
        Redeemed(old(db.customers), customer, saleDiscount).Some? &&
        SalesDao.DecrementAll(old(db.products), lines).None?
      ensures !outcome.Completed? ==>
        cart == old(cart) && currentCustomer == customer && discountCents == saleDiscount &&
        db.products == old(db.products) && db.sales == old(db.sales) && db.saleItems == old(db.saleItems)
      ensures outcome == RedemptionFailed ==> db.customers == old(db.customers)
      ensures outcome == SaleFailed ==>
        Some(db.customers) == Redeemed(old(db.customers), customer, saleDiscount)
      ensures outcome.Completed? ==> outcome.saleId == saleId && cart == [] && currentCustomer == None && discountCents == 0
      ensures outcome.Completed? ==> db.products == SalesDao.DecrementAll(old(db.products), lines).value
      ensures outcome.Completed? ==>
        db.sales == old(db.sales) + [SalesDao.SaleHeader(saleId, invoiceNumber, CustomerId(customer), timestamp,
                                                         lines, taxCents, saleDiscount, paymentMode)]
      ensures outcome.Completed? ==> db.saleItems == old(db.saleItems) + SalesDao.ItemRows(saleId, itemIds, lines, lineTotals)
      ensures outcome.Completed? ==>
        Some(db.customers) == CustomersAfterCheckout(old(db.customers), customer, saleDiscount, lines)
      ensures Scanner() == old(Scanner())
    {
      var customerId := CustomerId(customer);
      ghost var customers0 := db.customers;
      var redeemed := RedeemAtCheckout(db);
      if !redeemed {
        return RedemptionFailed;
      }
      ghost var customers1 := db.customers;
      outcome := RecordSale(db, lines, customerId, saleDiscount, paymentMode,
                            saleId, invoiceNumber, timestamp, taxCents, itemIds, lineTotals);
      if outcome.Completed? {
        AfterRedemption(customers0, customers1, customer, saleDiscount, lines);
      }
    }

    /**
     * onCompleteSale. The confirmation and payment dialogs are parameters, as are the values
     * the sale generates (its id, invoice number, time stamp, tax and line totals).
     */
    method OnCompleteSale(db: Store, confirmed: bool, paymentMode: Option<string>,
                          saleId: string, invoiceNumber: string, timestamp: string, taxCents: int,
                          itemIds: seq<string>, lineTotals: seq<int>)
      returns (outcome: CheckoutOutcome)
      requires Valid() && db.Valid()
      requires |itemIds| == |cart| && |lineTotals| == |cart|
      modifies this, db
      ensures Valid() && db.Valid()
      ensures outcome == CartEmpty <==> old(|cart|) == 0
      ensures outcome == Cancelled <==> old(|cart|) > 0 && (!confirmed || paymentMode.None?)
      ensures outcome == CartEmpty || outcome == Cancelled ==>
        cart == old(cart) && currentCustomer == old(currentCustomer) && discountCents == old(discountCents) &&
        db.customers == old(db.customers) && db.products == old(db.products) &&
        db.sales == old(db.sales) && db.saleItems == old(db.saleItems)
      ensures old(|cart|) > 0 && confirmed && paymentMode.Some? ==>
        outcome == RedemptionFailed || outcome == SaleFailed || outcome.Completed?
      ensures outcome == RedemptionFailed <==>
        old(|cart|) > 0 && confirmed && paymentMode.Some? &&
        Redeemed(old(db.customers), old(currentCustomer), old(discountCents)).None?
      ensures outcome == SaleFailed <==>
        old(|cart|) > 0 && confirmed && paymentMode.Some? &&
        Redeemed(old(db.customers), old(currentCustomer), old(discountCents)).Some? &&
        SalesDao.DecrementAll(old(db.products), old(Lines())).None?
      ensures outcome == RedemptionFailed || outcome == SaleFailed ==>
        cart == old(cart) && currentCustomer == old(currentCustomer) && discountCents == old(discountCents) &&
        db.products == old(db.products) && db.sales == old(db.sales) && db.saleItems == old(db.saleItems)
      ensures outcome == RedemptionFailed ==> db.customers == old(db.customers)
      ensures outcome == SaleFailed ==>
        Some(db.customers) == Redeemed(old(db.customers), old(currentCustomer), old(discountCents))
      ensures outcome.Completed? ==>
        outcome.saleId == saleId && cart == [] && currentCustomer == None && discountCents == 0 &&
        Some(db.customers) == CustomersAfterCheckout(old(db.customers), old(currentCustomer), old(discountCents), old(Lines()))
      ensures outcome.Completed? ==>
        db.products == SalesDao.DecrementAll(old(db.products), old(Lines())).value &&
        db.sales == old(db.sales) + [SalesDao.SaleHeader(saleId, invoiceNumber, CustomerId(old(currentCustomer)), timestamp,
                                                         old(Lines()), taxCents, old(discountCents), paymentMode.value)] &&
        db.saleItems == old(db.saleItems) + SalesDao.ItemRows(saleId, itemIds, old(Lines()), lineTotals)
      ensures Scanner() == old(Scanner())
    {
      if |cart| == 0 {
        return CartEmpty;
      }
      if !confirmed || paymentMode.None? {
        return Cancelled;
      }
      outcome := SettleSale(db, Lines(), currentCustomer, discountCents, paymentMode.value, saleId, invoiceNumber, timestamp, taxCents, itemIds, lineTotals);
    }
  }
}
