/**
 * dao/CustomerDAO.java: row-to-record mapping, lookups and the UPDATE statements on a
 * customer's loyalty points.
 */
module CustomerDao {
  import opened Wrappers
  import opened Seqs
  import opened Customers
  import opened Tables

  /** extractCustomer: a NULL tier becomes "BRONZE", other NULL text columns ""; active iff is_active is 1. */
  function ExtractCustomer(row: CustomerRow): (c: Customer)
    ensures c.id == row.id && c.name == row.name && c.phone == row.phone && c.points == row.points
    ensures c.totalPurchasesCents == row.totalPurchasesCents && c.visitCount == row.visitCount
    ensures c.createdAt == row.createdAt
    ensures ReadsAs(c.email, row.email, "") && ReadsAs(c.address, row.address, "")
    ensures ReadsAs(c.city, row.city, "") && ReadsAs(c.pincode, row.pincode, "")
    ensures ReadsAs(c.birthday, row.birthday, "") && ReadsAs(c.anniversary, row.anniversary, "")
    ensures ReadsAs(c.tier, row.tier, "BRONZE") && ReadsAs(c.notes, row.notes, "")
    ensures ReadsAs(c.lastVisit, row.lastVisit, "")
    ensures c.isActive <==> row.isActive == 1
  {
    Customer(
      row.id, row.name, row.phone,
      Some(row.email.GetOr("")), Some(row.address.GetOr("")), Some(row.city.GetOr("")),
      Some(row.pincode.GetOr("")), Some(row.birthday.GetOr("")), Some(row.anniversary.GetOr("")),
      row.points, row.totalPurchasesCents, row.visitCount,
      Some(row.tier.GetOr("BRONZE")), Some(row.notes.GetOr("")),
      row.isActive == 1, row.createdAt, Some(row.lastVisit.GetOr("")))
  }

  /** A customer read from the table has the same full address whether a part was NULL or "". */
  lemma NullAndEmptyAddressAgree(row: CustomerRow)
    ensures ExtractCustomer(row).FullAddress() ==
              ExtractCustomer(row.(address := Some(row.address.GetOr("")), city := Some(row.city.GetOr("")),
                                   pincode := Some(row.pincode.GetOr("")))).FullAddress()
  {
  }

  /** `SELECT * FROM customers WHERE phone = ?`: the first matching row, as a record. */
  function FindByPhone(rows: seq<CustomerRow>, phone: string): (r: Option<Customer>)
    ensures r.Some? <==> exists i :: 0 <= i < |rows| && rows[i].phone == phone
    ensures r.Some? ==> r.value.phone == phone
    ensures r.Some? ==>
              exists i :: (0 <= i < |rows| && rows[i].phone == phone && r.value == ExtractCustomer(rows[i])
                           && forall j :: 0 <= j < i ==> rows[j].phone != phone)
  {
    match FirstIndex(rows, (row: CustomerRow) => row.phone == phone)
    case None => None
    case Some(i) => Some(ExtractCustomer(rows[i]))
  }

  /** `SELECT * FROM customers WHERE id = ?` */
  function FindById(rows: seq<CustomerRow>, id: string): (r: Option<Customer>)
    ensures r.Some? <==> exists i :: 0 <= i < |rows| && rows[i].id == id
    ensures r.Some? ==> r.value.id == id
    ensures UniqueCustomerIds(rows) ==>
              forall i :: 0 <= i < |rows| && rows[i].id == id ==> r == Some(ExtractCustomer(rows[i]))
  {
    match FirstIndex(rows, (row: CustomerRow) => row.id == id)
    case None => None
    case Some(i) => Some(ExtractCustomer(rows[i]))
  }

  /** The point balance of the customer with the given id, when there is one. */
  function PointsOf(rows: seq<CustomerRow>, id: string): (r: Option<int>)
    ensures r.Some? <==> exists i :: 0 <= i < |rows| && rows[i].id == id
    ensures UniqueCustomerIds(rows) ==> forall i :: 0 <= i < |rows| && rows[i].id == id ==> r == Some(rows[i].points)
  {
    match FirstIndex(rows, (row: CustomerRow) => row.id == id)
    case None => None
    case Some(i) => Some(rows[i].points)
  }

  /** `UPDATE customers SET points = points + ? WHERE id = ?`: an unknown id updates nothing. */
  function AddPointsRows(rows: seq<CustomerRow>, id: string, points: int): (r: seq<CustomerRow>)
    ensures |r| == |rows|
    ensures forall i :: 0 <= i < |rows| ==> r[i] == rows[i].(points := r[i].points)
    ensures forall i :: 0 <= i < |rows| ==> r[i].points == if rows[i].id == id then rows[i].points + points else rows[i].points
  {
    seq(|rows|, i requires 0 <= i < |rows| =>
      if rows[i].id == id then rows[i].(points := rows[i].points + points) else rows[i])
  }

  /** The WHERE clause of redeemPoints. */
  predicate CanRedeem(row: CustomerRow, id: string, points: int) {
    row.id == id && row.points >= points
  }

  /**
   * `UPDATE customers SET points = points - ? WHERE id = ? AND points >= ?`; None when no row is
   * updated, which redeemPoints turns into an exception.
   */
  function Redeem(rows: seq<CustomerRow>, id: string, points: int): (r: Option<seq<CustomerRow>>)
    ensures r.Some? <==> exists i :: 0 <= i < |rows| && rows[i].id == id && rows[i].points >= points
    ensures r.Some? ==> |r.value| == |rows| && forall i :: 0 <= i < |rows| ==> r.value[i] == rows[i].(points := r.value[i].points)
    ensures r.Some? && UniqueCustomerIds(rows) ==>
              forall i :: 0 <= i < |rows| ==>
                r.value[i].points == if rows[i].id == id then rows[i].points - points else rows[i].points
  {
    if exists i :: 0 <= i < |rows| && CanRedeem(rows[i], id, points) then
      Some(seq(|rows|, i requires 0 <= i < |rows| =>
        if CanRedeem(rows[i], id, points) then rows[i].(points := rows[i].points - points) else rows[i]))
    else None
  }

  /** redeemPoints succeeds exactly when the balance covers the request, and leaves it non-negative. */
  lemma RedeemSucceedsIff(rows: seq<CustomerRow>, id: string, points: int)
    requires UniqueCustomerIds(rows)
    ensures Redeem(rows, id, points).Some? <==> PointsOf(rows, id).Some? && PointsOf(rows, id).value >= points
    ensures Redeem(rows, id, points).Some? ==>
              var rows' := Redeem(rows, id, points).value;
              && UniqueCustomerIds(rows')
              && PointsOf(rows', id) == Some(PointsOf(rows, id).value - points)
              && PointsOf(rows', id).value >= 0
              && forall other :: other != id ==> PointsOf(rows', other) == PointsOf(rows, other)
  {
    var r := Redeem(rows, id, points);
    if r.Some? {
      var rows' := r.value;
      assert forall i :: 0 <= i < |rows| ==> rows'[i].id == rows[i].id;
      forall other ensures PointsOf(rows', other).Some? <==> PointsOf(rows, other).Some? {
      }
      forall other | PointsOf(rows, other).Some?
        ensures PointsOf(rows', other).value == (if other == id then PointsOf(rows, id).value - points else PointsOf(rows, other).value)
      {
        var i :| 0 <= i < |rows| && rows[i].id == other;
      }
    }
  }

  /** addPoints changes the named customer's balance by the amount and nothing else. */
  lemma AddPointsChangesOnlyThatBalance(rows: seq<CustomerRow>, id: string, points: int)
    requires UniqueCustomerIds(rows)
    ensures UniqueCustomerIds(AddPointsRows(rows, id, points))
    ensures PointsOf(rows, id).None? ==> AddPointsRows(rows, id, points) == rows
    ensures PointsOf(rows, id).Some? ==> PointsOf(AddPointsRows(rows, id, points), id) == Some(PointsOf(rows, id).value + points)
    ensures forall other :: other != id ==> PointsOf(AddPointsRows(rows, id, points), other) == PointsOf(rows, other)
  {
    var rows' := AddPointsRows(rows, id, points);
    assert forall i :: 0 <= i < |rows| ==> rows'[i].id == rows[i].id;
    forall other ensures PointsOf(rows', other).Some? <==> PointsOf(rows, other).Some? {
    }
    forall other | PointsOf(rows, other).Some?
      ensures PointsOf(rows', other).value == (if other == id then PointsOf(rows, id).value + points else PointsOf(rows, other).value)
    {
      var i :| 0 <= i < |rows| && rows[i].id == other;
    }
  }

  /** Adding points and then redeeming the same number gives back the original table (for a balance of zero or more). */
  lemma {:induction false} AddThenRedeemRestores(rows: seq<CustomerRow>, id: string, points: int)
    requires UniqueCustomerIds(rows)
    requires PointsOf(rows, id).Some? && PointsOf(rows, id).value >= 0
    ensures Redeem(AddPointsRows(rows, id, points), id, points) == Some(rows)
  {
    var added := AddPointsRows(rows, id, points);
    var i :| 0 <= i < |rows| && rows[i].id == id;
    assert CanRedeem(added[i], id, points);
    var r := Redeem(added, id, points);
    assert r.Some?;
    assert forall j :: 0 <= j < |rows| ==> added[j].id == rows[j].id;
    assert UniqueCustomerIds(added);
    assert forall j :: 0 <= j < |rows| ==> r.value[j] == rows[j];
    assert r.value == rows;
  }

  /** addPoints */
  method AddPoints(db: Store, customerId: string, points: int)
    requires db.Valid()
    modifies db
    ensures db.Valid()
    ensures db.customers == AddPointsRows(old(db.customers), customerId, points)
    ensures db.products == old(db.products) && db.sales == old(db.sales) && db.saleItems == old(db.saleItems)
  {
    AddPointsChangesOnlyThatBalance(db.customers, customerId, points);
    db.customers := AddPointsRows(db.customers, customerId, points);
  }

  /** redeemPoints: `ok` false is the "Insufficient points" exception. */
  method RedeemPoints(db: Store, customerId: string, points: int) returns (ok: bool)
    requires db.Valid()
    modifies db
    ensures db.Valid()
    ensures ok <==> Redeem(old(db.customers), customerId, points).Some?
    ensures ok ==> db.customers == Redeem(old(db.customers), customerId, points).value
    ensures !ok ==> db.customers == old(db.customers)
    ensures db.products == old(db.products) && db.sales == old(db.sales) && db.saleItems == old(db.saleItems)
  {
    var updated := Redeem(db.customers, customerId, points);
    if updated.Some? {
      assert forall i :: 0 <= i < |db.customers| ==> updated.value[i].id == db.customers[i].id;
      db.customers := updated.value;
      ok := true;
    } else {
      ok := false;
    }
  }

  /** The row createCustomer inserts: points 0; the columns it omits are NULL or 0, is_active is 1. */
  function NewCustomerRow(id: string, name: string, phone: string, email: Option<string>, createdAt: string): CustomerRow {
    CustomerRow(id, name, phone, email, None, None, None, None, None, 0, 0, 0, None, None, 1, Some(createdAt), None)
  }

  /**
   * The customer that findByPhone returns after the insert: the first row with that phone, which is
   * the new row unless an earlier row already had the phone.
   */
  lemma {:induction false} CreateThenFindByPhone(rows: seq<CustomerRow>, id: string, name: string, phone: string,
                                                 email: Option<string>, createdAt: string)
    ensures FindByPhone(rows + [NewCustomerRow(id, name, phone, email, createdAt)], phone).Some?
    ensures (forall i :: 0 <= i < |rows| ==> rows[i].phone != phone) ==>
              var c := FindByPhone(rows + [NewCustomerRow(id, name, phone, email, createdAt)], phone).value;
              c.id == id && c.name == name && c.points == 0 && c.tier == Some("BRONZE")
  {
    var row := NewCustomerRow(id, name, phone, email, createdAt);
    assert (rows + [row])[|rows|] == row;
  }

  /** createCustomer: inserts under a new id, then answers findByPhone(phone); a taken id fails. */
  method CreateCustomer(db: Store, id: string, name: string, phone: string, email: Option<string>, createdAt: string)
    returns (r: Option<Customer>)
    requires db.Valid()
    modifies db
    ensures db.Valid()
    ensures PointsOf(old(db.customers), id).Some? ==> r.None? && db.customers == old(db.customers)
    ensures PointsOf(old(db.customers), id).None? ==>
              && db.customers == old(db.customers) + [NewCustomerRow(id, name, phone, email, createdAt)]
              && r == FindByPhone(db.customers, phone)
              && r.Some? && r.value.phone == phone
    ensures db.products == old(db.products) && db.sales == old(db.sales) && db.saleItems == old(db.saleItems)
  {
    if PointsOf(db.customers, id).Some? {
      return None;
    }
    var row := NewCustomerRow(id, name, phone, email, createdAt);
    assert (db.customers + [row])[|db.customers|] == row;
    db.customers := db.customers + [row];
    CreateThenFindByPhone(old(db.customers), id, name, phone, email, createdAt);
    r := FindByPhone(db.customers, phone);
  }
}
