/** The address endpoints (src/controllers/user.address.Controller.ts): read
    the caller's address, add one (at most once), update the caller's
    address field by field. */
module AddressController {
  import opened Common
  import opened Schema
  import opened Store

  /** The JSON body of addAddress and updateAddress: each field is None when
      the key is absent or null. `keys` counts every key of the body,
      including ones the endpoint ignores. */
  datatype AddressBody = AddressBody(
    country: Option<string>, state: Option<string>, city: Option<string>,
    phone: Option<string>, postalCode: Option<string>, address: Option<string>,
    keys: nat)

  /** No user has two address rows. The table has no such constraint;
      addAddress keeps it by answering 409. */
  predicate OneAddressPerUser(rows: seq<Address>) {
    forall i, j :: 0 <= i < j < |rows| ==> rows[j].userId != rows[i].userId
  }

  predicate HasAddress(rows: seq<Address>, u: UserId) {
    exists a :: a in rows && a.userId == u
  }

  /** getAddress: the caller's first address, or 404. */
  function GetAddress(rows: seq<Address>, user: Option<UserId>): (r: Response<Address>)
    ensures r.status == 401 <==> user.None?
    ensures r.status == 404 <==> user.Some? && !HasAddress(rows, user.value)
    ensures r.status == 200 <==> user.Some? && HasAddress(rows, user.value)
    ensures r.status == 200 ==> r.data.Some? && r.data.value in rows && r.data.value.userId == user.value
    ensures r.status != 200 ==> r.data.None?
  {
    if user.None? then Response(401, None)
    else
      match First(rows, (a: Address) => a.userId == user.value)
      case None => Response(404, None)
      case Some(a) => Response(200, Some(a))
  }

  /** The fields addAddress requires: country, city and address are truthy. */
  predicate Complete(body: AddressBody) {
    Truthy(body.country) && Truthy(body.city) && Truthy(body.address)
  }

  /** The row addAddress inserts; created_at and updated_at take their
      default, the current time. */
  function NewAddress(u: UserId, body: AddressBody, now: Time): Address
    requires Complete(body)
  {
    Address(u, body.country.value, body.state, body.city.value, body.phone, body.postalCode,
            body.address.value, now, now)
  }

  /** The updateFields object applied to one row: each truthy field replaces
      the column, the others are kept, and updated_at is always refreshed. */
  function Patched(a: Address, body: AddressBody, now: Time): Address {
    a.(country := if Truthy(body.country) then body.country.value else a.country,
       state := if Truthy(body.state) then body.state else a.state,
       city := if Truthy(body.city) then body.city.value else a.city,
       phone := if Truthy(body.phone) then body.phone else a.phone,
       postalCode := if Truthy(body.postalCode) then body.postalCode else a.postalCode,
       address := if Truthy(body.address) then body.address.value else a.address,
       updatedAt := now)
  }

  /** The number of keys of updateFields: one per truthy field, plus
      updated_at. */
  function UpdateFieldCount(body: AddressBody): (r: nat)
    ensures r >= 1
  {
    (if Truthy(body.country) then 1 else 0) + (if Truthy(body.state) then 1 else 0)
    + (if Truthy(body.city) then 1 else 0) + (if Truthy(body.phone) then 1 else 0)
    + (if Truthy(body.postalCode) then 1 else 0) + (if Truthy(body.address) then 1 else 0)
    + 1
  }

  /** UPDATE addresses SET ... WHERE user_id = u */
  function PatchedRows(rows: seq<Address>, u: UserId, body: AddressBody, now: Time): seq<Address> {
    Update(rows, (a: Address) => a.userId == u, (a: Address) => Patched(a, body, now))
  }

  // ----------------------------------------------------------------------
  // Properties

  /** A patch sets exactly the truthy fields, keeps the owner and the
      creation time, and refreshes updated_at. */
  lemma PatchSetsTruthyFields(a: Address, body: AddressBody, now: Time)
    ensures var r := Patched(a, body, now);
      && r.userId == a.userId && r.createdAt == a.createdAt && r.updatedAt == now
      && (Truthy(body.country) ==> r.country == body.country.value)
      && (!Truthy(body.country) ==> r.country == a.country)
      && (Truthy(body.city) ==> r.city == body.city.value)
      && (!Truthy(body.city) ==> r.city == a.city)
      && (Truthy(body.address) ==> r.address == body.address.value)
      && (!Truthy(body.address) ==> r.address == a.address)
      && (Truthy(body.state) ==> r.state == body.state)
      && (!Truthy(body.state) ==> r.state == a.state)
      && (Truthy(body.phone) ==> r.phone == body.phone)
      && (!Truthy(body.phone) ==> r.phone == a.phone)
      && (Truthy(body.postalCode) ==> r.postalCode == body.postalCode)
      && (!Truthy(body.postalCode) ==> r.postalCode == a.postalCode)
  {
  }

  /** Sending the same update twice leaves the row as once. */
  lemma PatchIdempotent(a: Address, body: AddressBody, now: Time)
    ensures Patched(Patched(a, body, now), body, now) == Patched(a, body, now)
  {
  }

  /** A body with no truthy field still refreshes updated_at and changes
      nothing else. */
  lemma EmptyPatchTouchesOnlyTime(a: Address, body: AddressBody, now: Time)
    requires !Truthy(body.country) && !Truthy(body.state) && !Truthy(body.city)
    requires !Truthy(body.phone) && !Truthy(body.postalCode) && !Truthy(body.address)
    ensures Patched(a, body, now) == a.(updatedAt := now)
  {
  }

  /** The update touches only the caller's rows, and each of them is patched. */
  lemma PatchedRowsShape(rows: seq<Address>, u: UserId, body: AddressBody, now: Time)
    ensures |PatchedRows(rows, u, body, now)| == |rows|
    ensures forall i :: 0 <= i < |rows| && rows[i].userId != u ==> PatchedRows(rows, u, body, now)[i] == rows[i]
    ensures forall i :: 0 <= i < |rows| && rows[i].userId == u ==>
      PatchedRows(rows, u, body, now)[i] == Patched(rows[i], body, now)
    ensures OneAddressPerUser(rows) ==> OneAddressPerUser(PatchedRows(rows, u, body, now))
  {
  }

  /** Adding only when the caller has no address never gives a user two. */
  lemma AddKeepsOnePerUser(rows: seq<Address>, a: Address)
    requires OneAddressPerUser(rows) && !HasAddress(rows, a.userId)
    ensures OneAddressPerUser(rows + [a])
  {
    var r := rows + [a];
    forall i, j | 0 <= i < j < |r| ensures r[j].userId != r[i].userId {
      if j == |rows| {
        assert r[i] == rows[i] && rows[i] in rows;
      }
    }
  }

  // ----------------------------------------------------------------------
  // Endpoints

  method AddAddress(db: Db, user: Option<UserId>, body: AddressBody, now: Time) returns (status: int)
    requires db.Valid()
    modifies db`addresses
    ensures db.Valid()
    ensures user.None? ==> status == 401 && db.addresses == old(db.addresses)
    ensures user.Some? && !Complete(body) ==> status == 400 && db.addresses == old(db.addresses)
    ensures user.Some? && Complete(body) && HasAddress(old(db.addresses), user.value) ==>
      status == 409 && db.addresses == old(db.addresses)
    ensures user.Some? && Complete(body) && !HasAddress(old(db.addresses), user.value) ==>
      status == 201 && db.addresses == old(db.addresses) + [NewAddress(user.value, body, now)]
    ensures OneAddressPerUser(old(db.addresses)) ==> OneAddressPerUser(db.addresses)
  {
    if user.None? {
      return 401;
    }
    if !Truthy(body.country) || !Truthy(body.city) || !Truthy(body.address) {
      return 400;
    }
    var existing := Filter(db.addresses, (a: Address) => a.userId == user.value);
    if |existing| > 0 {
      assert existing[0] in existing;
      return 409;
    }
    var row := NewAddress(user.value, body, now);
    if OneAddressPerUser(db.addresses) {
      AddKeepsOnePerUser(db.addresses, row);
    }
    db.addresses := db.addresses + [row];
    return 201;
  }

  /** `body` is None when the request body is JSON null. */
  method UpdateAddress(db: Db, user: Option<UserId>, body: Option<AddressBody>, now: Time) returns (status: int)
    requires db.Valid()
    modifies db`addresses
    ensures db.Valid()
    ensures user.None? ==> status == 401 && db.addresses == old(db.addresses)
    ensures user.Some? && (body.None? || body.value.keys == 0) ==> status == 400 && db.addresses == old(db.addresses)
    ensures user.Some? && body.Some? && body.value.keys > 0 && !HasAddress(old(db.addresses), user.value) ==>
      status == 404 && db.addresses == old(db.addresses)
    ensures user.Some? && body.Some? && body.value.keys > 0 && HasAddress(old(db.addresses), user.value) ==>
      status == 200 && db.addresses == PatchedRows(old(db.addresses), user.value, body.value, now)
    ensures OneAddressPerUser(old(db.addresses)) ==> OneAddressPerUser(db.addresses)
  {
    if user.None? {
      return 401;
    }
    if body.None? || body.value.keys == 0 {
      return 400;
    }
    var fieldCount := UpdateFieldCount(body.value);
    var existing := Filter(db.addresses, (a: Address) => a.userId == user.value);
    if |existing| == 0 {
      return 404;
    }
    assert existing[0] in existing;
    if fieldCount > 0 {
      PatchedRowsShape(db.addresses, user.value, body.value, now);
      db.addresses := PatchedRows(db.addresses, user.value, body.value, now);
      return 200;
    }
    // Not reachable: updated_at is always among the fields, so
    // UpdateFieldCount is at least 1.
    return 400;
  }
}
