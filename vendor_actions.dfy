/**
 * The vendor server actions (`src/app/actions/vendor-actions.ts`). Each one reports
 * success even when the store fails: creation and update then echo the form
 * back, deletion claims to have happened, and the listing falls back to the mock
 * vendor list, which is a parameter here.
 */
module VendorActions {
  import opened Wrappers
  import opened Text
  import opened Facade
  import opened Store

  /** The form's `rating`: absent (`undefined`), `null`, or a number. */
  datatype RatingInput = Undefined | NullValue | Given(value: real)

  /** The vendor form; `details` holds the optional text fields as typed. The form is untyped:
      a company name or phone that is `None` was not sent. */
  datatype VendorInput = VendorInput(
    vendorId: Option<string>, companyName: Option<string>, phone: Option<string>, details: VendorDetails,
    rating: RatingInput, creditLimit: Option<real>, status: Option<string>)

  /** `{ success: true, vendor }` with a stored row (or `null`), `{ success: true, vendor: { ...data, id } }`,
      `{ success: true }` and `{ success: false, error }`. */
  datatype VendorResult = Saved(vendor: Js<Vendor>) | Echoed(input: VendorInput, id: nat) | Deleted | Failed(error: string)

  /** Every optional text field, with empty text stored as `null`. */
  function Normalised(d: VendorDetails): (n: VendorDetails)
    ensures n.contactPerson == OrNull(d.contactPerson) && n.email == OrNull(d.email)
    ensures n.address == OrNull(d.address) && n.city == OrNull(d.city) && n.state == OrNull(d.state)
    ensures n.pincode == OrNull(d.pincode) && n.gstin == OrNull(d.gstin) && n.pan == OrNull(d.pan)
    ensures n.category == OrNull(d.category) && n.paymentTerms == OrNull(d.paymentTerms) && n.notes == OrNull(d.notes)
  {
    VendorDetails(OrNull(d.contactPerson), OrNull(d.email), OrNull(d.address), OrNull(d.city), OrNull(d.state),
                  OrNull(d.pincode), OrNull(d.gstin), OrNull(d.pan), OrNull(d.category), OrNull(d.paymentTerms),
                  OrNull(d.notes))
  }

  /** `x || 3.0`: a missing, `null` or zero rating becomes 3. */
  function RatingOnCreate(x: RatingInput): (r: real)
    ensures x.Given? && x.value != 0.0 ==> r == x.value
    ensures !x.Given? || x.value == 0.0 ==> r == 3.0
  {
    if x.Given? && x.value != 0.0 then x.value else 3.0
  }

  /** `x !== undefined ? x : 3.0`: only a missing rating becomes 3; `null` is written as it is. */
  function RatingOnUpdate(x: RatingInput): (r: Option<real>)
    ensures x.Given? ==> r == Some(x.value)
    ensures x.NullValue? ==> r == None
    ensures x.Undefined? ==> r == Some(3.0)
  {
    match x
    case Undefined => Some(3.0)
    case NullValue => None
    case Given(v) => Some(v)
  }

  /** `x || null` on a number. */
  function LimitOrNull(x: Option<real>): (r: Option<real>)
    ensures r.Some? <==> x.Some? && x.value != 0.0
    ensures r.Some? ==> r == x
  {
    if x.Some? && x.value != 0.0 then x else None
  }

  /** `x || "ACTIVE"`. */
  function StatusOr(x: Option<string>): (s: string)
    ensures x.Some? && x.value != "" ==> s == x.value
    ensures x.None? || x.value == "" ==> s == "ACTIVE"
  {
    if x.Some? && x.value != "" then x.value else "ACTIVE"
  }

  /** The form carries both required columns; without one of them Prisma rejects the insert. */
  predicate Complete(data: VendorInput) {
    data.companyName.Some? && data.phone.Some?
  }

  /** The row `createVendor` inserts, once the store gives it an id. */
  function StoredVendor(data: VendorInput): (nat -> Vendor)
    requires Complete(data)
  {
    (id: nat) => Vendor(id, data.vendorId, data.companyName.value, data.phone.value, Normalised(data.details),
                        Some(RatingOnCreate(data.rating)), LimitOrNull(data.creditLimit), StatusOr(data.status))
  }

  /** The columns `updateVendor` writes: all but `vendorId`; a company name or phone that was not
      sent keeps the stored one. */
  function Revised(v: Vendor, data: VendorInput): (w: Vendor)
    ensures w.id == v.id && w.vendorId == v.vendorId
    ensures w.companyName == Written(data.companyName, v.companyName) && w.phone == Written(data.phone, v.phone)
    ensures w.details == Normalised(data.details)
    ensures w.rating == RatingOnUpdate(data.rating) && w.creditLimit == LimitOrNull(data.creditLimit)
    ensures w.status == StatusOr(data.status)
  {
    v.(companyName := Written(data.companyName, v.companyName), phone := Written(data.phone, v.phone), details := Normalised(data.details),
       rating := RatingOnUpdate(data.rating), creditLimit := LimitOrNull(data.creditLimit), status := StatusOr(data.status))
  }

  /** Creation and update store the same rating except for a zero or a `null` one, which creation
      replaces by 3 and update keeps. */
  lemma RatingRulesDisagree(data: VendorInput, v: Vendor, id: nat)
    requires Complete(data)
    ensures StoredVendor(data)(id).rating == Revised(v, data).rating
        <==> !(data.rating.NullValue? || data.rating == Given(0.0))
    ensures data.rating == Given(0.0) ==> Revised(v, data).rating == Some(0.0)
    ensures data.rating.NullValue? ==> Revised(v, data).rating == None
  {
  }

  /** The stored row carries the form's values with the documented defaults. */
  lemma StoredVendorFields(data: VendorInput, id: nat)
    requires Complete(data)
    ensures var v := StoredVendor(data)(id);
      v.id == id && v.vendorId == data.vendorId && Some(v.companyName) == data.companyName && Some(v.phone) == data.phone
      && v.details == Normalised(data.details) && v.status == StatusOr(data.status)
      && v.rating.Some? && (!data.rating.Given? ==> v.rating == Some(3.0))
      && (data.status.None? ==> v.status == "ACTIVE")
  {
  }

  /** `createVendor`: it always reports success, even when Prisma rejects a form without a company
      name or phone before it reaches the table. `randomId` is `Math.floor(Math.random() * 1000)`. */
  method CreateVendor(client: Client, db: Db, data: VendorInput, randomId: nat) returns (r: VendorResult)
    requires randomId < 1000
    requires db.Valid()
    modifies db
    ensures db.online == old(db.online) && db.Valid()
    ensures !r.Failed? && !r.Deleted?
    ensures old(db.online) ==> old(db.tables.nextId) !in old(db.tables.vendors)
    ensures old(db.online) && Complete(data) ==>
      r == Saved(One(StoredVendor(data)(old(db.tables.nextId))))
      && db.tables == old(db.tables).(vendors := old(db.tables.vendors)[old(db.tables.nextId) := StoredVendor(data)(old(db.tables.nextId))],
                                      nextId := old(db.tables.nextId) + 1)
    ensures !(old(db.online) && Complete(data)) ==>
      db.tables == old(db.tables)
      && r == (if client == SafeClient then Saved(Null) else Echoed(data, randomId))
  {
    var raw: Reply<Js<Vendor>>;
    if Complete(data) {
      raw := db.CreateVendor(StoredVendor(data));
    } else {
      raw := Threw(MissingArgument);
    }
    var seen := Call(client, Create, raw);
    if seen.Threw? {
      return Echoed(data, randomId);
    }
    r := Saved(seen.value);
  }

  /** `updateVendor`: it always reports success; a failed update echoes the form with the given id. */
  method UpdateVendor(client: Client, db: Db, id: nat, data: VendorInput) returns (r: VendorResult)
    requires db.Valid()
    modifies db
    ensures db.online == old(db.online) && db.Valid()
    ensures !r.Failed? && !r.Deleted?
    ensures old(db.online) && id in old(db.tables.vendors) ==>
      r == Saved(One(Revised(old(db.tables.vendors)[id], data)))
      && db.tables == old(db.tables).(vendors := old(db.tables.vendors)[id := Revised(old(db.tables.vendors)[id], data)])
    ensures !(old(db.online) && id in old(db.tables.vendors)) ==>
      db.tables == old(db.tables)
      && r == (if client == SafeClient then Saved(Null) else Echoed(data, id))
  {
    var raw := db.UpdateVendor(id, v => Revised(v, data));
    var seen := Call(client, Update, raw);
    if seen.Threw? {
      return Echoed(data, id);
    }
    r := Saved(seen.value);
  }

  /** The refusal for a vendor that still has purchase orders, around their number. */
  const OrdersRemainPrefix := "Cannot delete vendor with "
  const OrdersRemainSuffix := " " + "purchase order(s). Please reassign or remove orders first."

  function OrdersRemain(count: nat): string {
    OrdersRemainPrefix + Decimal(count) + OrdersRemainSuffix
  }

  /** The refusal states the number of purchase orders, and it can be read back from the text. */
  lemma OrdersRemainStatesCount(count: nat)
    ensures NumberAt(OrdersRemain(count), |OrdersRemainPrefix|) == count
  {
    assert OrdersRemainSuffix[0] == ' ';
    NumberAfterPrefix(OrdersRemainPrefix, count, OrdersRemainSuffix);
  }

  /** `deleteVendor`: it refuses only a vendor with purchase orders, and only when the count can be
      read; every other outcome, a failed deletion included, reports success. */
  method DeleteVendor(client: Client, db: Db, id: nat) returns (r: VendorResult)
    requires db.Valid()
    modifies db
    ensures db.online == old(db.online) && db.Valid()
    ensures r == Deleted || r == Failed(OrdersRemain(PurchaseOrderCount(old(db.tables), id)))
    ensures r.Failed? <==> old(db.online) && PurchaseOrderCount(old(db.tables), id) > 0
    ensures old(db.online) && PurchaseOrderCount(old(db.tables), id) == 0 && id in old(db.tables.vendors) ==>
      db.tables == old(db.tables).(vendors := old(db.tables.vendors) - {id})
    ensures !(old(db.online) && PurchaseOrderCount(old(db.tables), id) == 0 && id in old(db.tables.vendors)) ==>
      db.tables == old(db.tables)
  {
    var counted := Call(client, Count, db.CountPurchaseOrders(id));
    if counted.Threw? {
      return Deleted;
    }
    var count := CountOf(counted.value);
    if count > 0 {
      return Failed(OrdersRemain(count));
    }
    var raw := db.DeleteVendor(id);
    var seen := Call(client, Delete, raw);
    r := Deleted;
  }

  /** `getVendors`: the stored vendors, or `mock` when there are none or the store cannot be read. */
  method GetVendors(client: Client, db: Db, mock: seq<Vendor>) returns (rows: seq<Vendor>)
    ensures db.online && |db.tables.vendors| > 0 ==>
      (forall v :: v in rows <==> v in db.tables.vendors.Values) && |rows| == |db.tables.vendors|
      && (db.Valid() ==> Distinct(rows))
    ensures !(db.online && |db.tables.vendors| > 0) ==> rows == mock
  {
    var raw := db.FindVendors();
    var seen := Call(client, FindMany, raw);
    if seen.Threw? || !seen.value.Many? || |seen.value.rows| == 0 {
      return mock;
    }
    rows := seen.value.rows;
  }
}
