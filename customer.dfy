/** The customer record (model/Customer.java) and its derived values. */
module Customers {
  import opened Wrappers
  import opened Products

  /** A customer as the application holds it. Nullable Java Strings are `Option<string>`. */
  datatype Customer = Customer(
    id: string,
    name: string,
    phone: string,
    email: Option<string>,
    address: Option<string>,
    city: Option<string>,
    pincode: Option<string>,
    birthday: Option<string>,
    anniversary: Option<string>,
    points: int,
    totalPurchasesCents: int,
    visitCount: int,
    tier: Option<string>,
    notes: Option<string>,
    isActive: bool,
    createdAt: Option<string>,
    lastVisit: Option<string>)
  {
    /** getAvailableDiscount: one point is worth one rupee of discount. */
    function AvailableDiscount(): int {
      points
    }

    /**
     * getFullAddress: the present parts among address, city and pincode, with ", " before the
     * city and " - " before the pincode only when something was written before them.
     */
    function FullAddress(): (r: string)
      ensures r == "" <==> !HasText(address) && !HasText(city) && !HasText(pincode)
    {
      var afterAddress := if HasText(address) then address.value else "";
      var afterCity :=
        if HasText(city) then (if |afterAddress| > 0 then afterAddress + ", " else afterAddress) + city.value
        else afterAddress;
      if HasText(pincode) then (if |afterCity| > 0 then afterCity + " - " else afterCity) + pincode.value
      else afterCity
    }
  }

  /** The text a missing part contributes: nothing. */
  function Part(s: Option<string>): string {
    if HasText(s) then s.value else ""
  }

  /** The full address of every combination of present parts, written out case by case. */
  lemma FullAddressCases(c: Customer)
    ensures var a, ci, p := HasText(c.address), HasText(c.city), HasText(c.pincode);
      var A, C, P := Part(c.address), Part(c.city), Part(c.pincode);
      c.FullAddress() ==
        if a && ci && p then A + ", " + C + " - " + P
        else if a && ci then A + ", " + C
        else if a && p then A + " - " + P
        else if ci && p then C + " - " + P
        else if a then A
        else if ci then C
        else if p then P
        else ""
  {
  }

  /** With exactly one part present, the address is that part with no separator. */
  lemma FullAddressSinglePart(c: Customer)
    ensures HasText(c.address) && !HasText(c.city) && !HasText(c.pincode) ==> c.FullAddress() == c.address.value
    ensures !HasText(c.address) && HasText(c.city) && !HasText(c.pincode) ==> c.FullAddress() == c.city.value
    ensures !HasText(c.address) && !HasText(c.city) && HasText(c.pincode) ==> c.FullAddress() == c.pincode.value
  {
    FullAddressCases(c);
  }

  /** A separator is written only after a non-empty prefix, so the address never starts with one. */
  lemma {:induction false} FullAddressStartsWithAPart(c: Customer)
    requires c.FullAddress() != ""
    ensures var first := if HasText(c.address) then c.address.value
                         else if HasText(c.city) then c.city.value else c.pincode.value;
            first <= c.FullAddress()
  {
    FullAddressCases(c);
  }
}
