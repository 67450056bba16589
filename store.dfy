/**
 * The database the actions talk to, as far as they use it: the rows of each
 * table, an id counter, and whether the database server can be reached. Each
 * primitive answers with a `Reply`: `Threw` when the server is unreachable, when
 * the row to update or delete does not exist, or when a unique key would repeat.
 * Ids come from one counter, `nextId`.
 */
module Store {
  import opened Wrappers
  import opened Facade

  datatype User = User(id: nat, email: string, name: string, password: string, role: string)

  datatype Customer = Customer(
    id: nat, customerId: Option<string>, firstName: string, lastName: string, phone: string,
    email: Option<string>, address: Option<string>, gstin: Option<string>)

  /** `kind` is the vehicle's `type` column. */
  datatype Vehicle = Vehicle(
    id: nat, regNumber: string, model: string, kind: string, ownerName: string,
    chassisNumber: Option<string>, engineNumber: Option<string>,
    ownerPhone: string, ownerAddress: Option<string>, ownerGstin: Option<string>, customerId: nat)

  /** The optional text columns of a vendor. */
  datatype VendorDetails = VendorDetails(
    contactPerson: Option<string>, email: Option<string>, address: Option<string>, city: Option<string>,
    state: Option<string>, pincode: Option<string>, gstin: Option<string>, pan: Option<string>,
    category: Option<string>, paymentTerms: Option<string>, notes: Option<string>)

  /** A `null` rating is `None`. */
  datatype Vendor = Vendor(
    id: nat, vendorId: Option<string>, companyName: string, phone: string, details: VendorDetails,
    rating: Option<real>, creditLimit: Option<real>, status: string)

  /** The customer and vehicle summaries an appointment is listed with. */
  datatype Party = Party(firstName: string, lastName: string, phone: string)
  datatype Car = Car(regNumber: string, model: string)

  /** Dates are kept as opaque text. */
  datatype Appointment = Appointment(
    id: nat, customerId: Option<nat>, vehicleId: Option<nat>, serviceType: string, date: string,
    status: string, notes: Option<string>, createdAt: string, customer: Option<Party>, vehicle: Option<Car>)

  /** Users by email, vehicles by registration, purchase-order counts by vendor id. */
  datatype Tables = Tables(
    users: map<string, User>,
    customers: map<nat, Customer>,
    vehicles: map<string, Vehicle>,
    vendors: map<nat, Vendor>,
    purchaseOrders: map<nat, nat>,
    appointments: seq<Appointment>,
    nextId: nat)

  /** Every customer, vendor and appointment id was handed out by the counter, customers and
      vendors are filed under their own id, and no two appointments share an id: the next id is
      free everywhere, so an insert never replaces a row, no two keys hold the same row, and an
      appointment update addresses at most one row. */
  predicate WellFormed(t: Tables) {
    (forall id :: id in t.customers ==> id < t.nextId && t.customers[id].id == id)
    && (forall id :: id in t.vendors ==> id < t.nextId && t.vendors[id].id == id)
    && (forall i :: 0 <= i < |t.appointments| ==> t.appointments[i].id < t.nextId)
    && (forall i, j :: 0 <= i < j < |t.appointments| ==> t.appointments[i].id != t.appointments[j].id)
  }

  const Unreachable := "Can't reach database server"
  const NotFound := "Record to update or delete does not exist"
  const UniqueViolation := "Unique constraint failed"
  const MissingArgument := "Argument is missing"

  /** A value handed to a write for a required text column: `undefined` (`None`) leaves the
      column out of an update, so it keeps what it held. */
  function Written(x: Option<string>, column: string): (s: string)
    ensures x.Some? ==> s == x.value
    ensures x.None? ==> s == column
  {
    if x.Some? then x.value else column
  }

  /** The user row an insert creates: it takes the next id. */
  function NewUser(t: Tables, email: string, name: string, password: string, role: string): User {
    User(t.nextId, email, name, password, role)
  }

  /** The tables after a successful user insert. */
  function WithUser(t: Tables, email: string, name: string, password: string, role: string): (t': Tables)
    ensures t'.users == t.users[email := NewUser(t, email, name, password, role)]
    ensures t' == t.(users := t'.users, nextId := t.nextId + 1)
    ensures WellFormed(t) ==> WellFormed(t')
  {
    t.(users := t.users[email := NewUser(t, email, name, password, role)], nextId := t.nextId + 1)
  }

  /** The number of vehicles whose `customerId` is `owner`. */
  function VehicleCount(t: Tables, owner: nat): nat {
    |set reg | reg in t.vehicles && t.vehicles[reg].customerId == owner|
  }

  function PurchaseOrderCount(t: Tables, vendor: nat): nat {
    if vendor in t.purchaseOrders then t.purchaseOrders[vendor] else 0
  }

  /** The position of the first appointment with the given id, or -1 (`findIndex`). */
  function FindIndex(s: seq<Appointment>, id: nat): (i: int)
    ensures -1 <= i < |s|
    ensures i == -1 <==> forall k :: 0 <= k < |s| ==> s[k].id != id
    ensures i >= 0 ==> s[i].id == id && forall k :: 0 <= k < i ==> s[k].id != id
  {
    if s == [] then -1
    else if s[0].id == id then 0
    else
      var j := FindIndex(s[1..], id);
      if j == -1 then -1 else j + 1
  }

  /** The list with the status of the first appointment of that id replaced, if there is one. */
  function WithStatus(s: seq<Appointment>, id: nat, status: string): (r: seq<Appointment>)
    ensures |r| == |s|
    ensures FindIndex(s, id) == -1 ==> r == s
    ensures FindIndex(s, id) >= 0 ==> r[FindIndex(s, id)] == s[FindIndex(s, id)].(status := status)
    ensures forall k :: 0 <= k < |s| && k != FindIndex(s, id) ==> r[k] == s[k]
  {
    var i := FindIndex(s, id);
    if i == -1 then s else s[i := s[i].(status := status)]
  }

  /** No two keys hold the same value. */
  predicate Injective<K, V(==)>(m: map<K, V>) {
    forall k, k' :: k in m && k' in m && m[k] == m[k'] ==> k == k'
  }

  /** No value appears twice. */
  predicate Distinct<T(==)>(s: seq<T>) {
    forall i, j :: 0 <= i < j < |s| ==> s[i] != s[j]
  }

  /** Rows filed under their own id are never filed twice. */
  lemma WellFormedTablesAreInjective(t: Tables)
    requires WellFormed(t)
    ensures Injective(t.customers) && Injective(t.vendors)
  {
  }

  /** The values of a map, in some order (the order of a `findMany` is not modelled). */
  method Rows<K, V(==)>(m: map<K, V>) returns (rows: seq<V>)
    ensures forall v :: v in rows <==> v in m.Values
    ensures |rows| == |m|
    ensures Injective(m) ==> Distinct(rows)
  {
    rows := [];
    var keys := m.Keys;
    while keys != {}
      invariant keys <= m.Keys
      invariant |rows| + |keys| == |m.Keys|
      invariant forall v :: v in rows <==> exists k :: k in m.Keys - keys && m[k] == v
      invariant Injective(m) ==> Distinct(rows)
      decreases keys
    {
      var k :| k in keys;
      assert Injective(m) ==> m[k] !in rows;
      rows := rows + [m[k]];
      keys := keys - {k};
    }
  }

  class Db {
    var online: bool
    var tables: Tables

    /** The invariant every write keeps. */
    predicate Valid()
      reads this
    {
      WellFormed(tables)
    }

    constructor (online: bool, tables: Tables)
      requires WellFormed(tables)
      ensures this.online == online && this.tables == tables
      ensures Valid()
    {
      this.online := online;
      this.tables := tables;
    }

    // Reads.

    function FindUser(email: string): (r: Reply<Js<User>>)
      reads this
      ensures !online <==> r == Threw(Unreachable)
      ensures online && email in tables.users ==> r == Returned(One(tables.users[email]))
      ensures online && email !in tables.users ==> r == Returned(Null)
    {
      if !online then Threw(Unreachable)
      else if email in tables.users then Returned(One(tables.users[email]))
      else Returned(Null)
    }

    function FindVehicle(regNumber: string): (r: Reply<Js<Vehicle>>)
      reads this
      ensures !online <==> r == Threw(Unreachable)
      ensures online && regNumber in tables.vehicles ==> r == Returned(One(tables.vehicles[regNumber]))
      ensures online && regNumber !in tables.vehicles ==> r == Returned(Null)
    {
      if !online then Threw(Unreachable)
      else if regNumber in tables.vehicles then Returned(One(tables.vehicles[regNumber]))
      else Returned(Null)
    }

    function CountVehicles(owner: nat): (r: Reply<Js<Vehicle>>)
      reads this
      ensures online ==> r == Returned(Int(VehicleCount(tables, owner)))
      ensures !online ==> r == Threw(Unreachable)
    {
      if online then Returned(Int(VehicleCount(tables, owner))) else Threw(Unreachable)
    }

    function CountPurchaseOrders(vendor: nat): (r: Reply<Js<Vendor>>)
      reads this
      ensures online ==> r == Returned(Int(PurchaseOrderCount(tables, vendor)))
      ensures !online ==> r == Threw(Unreachable)
    {
      if online then Returned(Int(PurchaseOrderCount(tables, vendor))) else Threw(Unreachable)
    }

    function FindAppointments(): (r: Reply<Js<Appointment>>)
      reads this
      ensures online ==> r == Returned(Many(tables.appointments))
      ensures !online ==> r == Threw(Unreachable)
    {
      if online then Returned(Many(tables.appointments)) else Threw(Unreachable)
    }

    method FindCustomers() returns (r: Reply<Js<Customer>>)
      ensures !online ==> r == Threw(Unreachable)
      ensures online ==>
        (r.Returned? && r.value.Many? && (forall c :: c in r.value.rows <==> c in tables.customers.Values)
         && |r.value.rows| == |tables.customers| && (Valid() ==> Distinct(r.value.rows)))
    {
      if !online {
        r := Threw(Unreachable);
      } else {
        if Valid() {
          WellFormedTablesAreInjective(tables);
        }
        var rows := Rows(tables.customers);
        r := Returned(Many(rows));
      }
    }

    method FindVendors() returns (r: Reply<Js<Vendor>>)
      ensures !online ==> r == Threw(Unreachable)
      ensures online ==>
        (r.Returned? && r.value.Many? && (forall v :: v in r.value.rows <==> v in tables.vendors.Values)
         && |r.value.rows| == |tables.vendors| && (Valid() ==> Distinct(r.value.rows)))
    {
      if !online {
        r := Threw(Unreachable);
      } else {
        if Valid() {
          WellFormedTablesAreInjective(tables);
        }
        var rows := Rows(tables.vendors);
        r := Returned(Many(rows));
      }
    }

    // Writes. Each leaves the tables as they were when it throws.

    /** Inserts a row built from the next id, which is then used up. */
    method CreateAppointment(row: nat -> Appointment) returns (r: Reply<Js<Appointment>>)
      requires Valid() && row(tables.nextId).id == tables.nextId
      modifies this
      ensures online == old(online) && Valid()
      ensures old(online) ==>
        (r == Returned(One(row(old(tables.nextId))))
         && tables == old(tables).(appointments := old(tables.appointments) + [row(old(tables.nextId))],
                                   nextId := old(tables.nextId) + 1))
      ensures old(online) ==> forall i :: 0 <= i < |old(tables.appointments)| ==> old(tables.appointments)[i].id != old(tables.nextId)
      ensures !old(online) ==> r == Threw(Unreachable) && tables == old(tables)
    {
      if !online {
        r := Threw(Unreachable);
      } else {
        var a := row(tables.nextId);
        tables := tables.(appointments := tables.appointments + [a], nextId := tables.nextId + 1);
        r := Returned(One(a));
      }
    }

    method UpdateAppointmentStatus(id: nat, status: string) returns (r: Reply<Js<Appointment>>)
      requires Valid()
      modifies this
      ensures online == old(online) && Valid()
      ensures !old(online) ==> r == Threw(Unreachable) && tables == old(tables)
      ensures old(online) && FindIndex(old(tables.appointments), id) == -1 ==>
        r == Threw(NotFound) && tables == old(tables)
      ensures old(online) && FindIndex(old(tables.appointments), id) >= 0 ==>
        r.Returned? && tables == old(tables).(appointments := WithStatus(old(tables.appointments), id, status))
    {
      if !online {
        r := Threw(Unreachable);
      } else {
        var i := FindIndex(tables.appointments, id);
        if i == -1 {
          r := Threw(NotFound);
        } else {
          tables := tables.(appointments := WithStatus(tables.appointments, id, status));
          r := Returned(One(tables.appointments[i]));
        }
      }
    }

    /** `change` writes the columns of the update and keeps the row's id. */
    method UpdateCustomer(id: nat, change: Customer -> Customer) returns (r: Reply<Js<Customer>>)
      requires Valid() && (id in tables.customers ==> change(tables.customers[id]).id == id)
      modifies this
      ensures online == old(online) && Valid()
      ensures old(online) && id in old(tables.customers) ==>
        r == Returned(One(change(old(tables.customers)[id])))
        && tables == old(tables).(customers := old(tables.customers)[id := change(old(tables.customers)[id])])
      ensures !(old(online) && id in old(tables.customers)) ==> r.Threw? && tables == old(tables)
    {
      if !online {
        r := Threw(Unreachable);
      } else if id !in tables.customers {
        r := Threw(NotFound);
      } else {
        var c := change(tables.customers[id]);
        tables := tables.(customers := tables.customers[id := c]);
        r := Returned(One(c));
      }
    }

    method DeleteCustomer(id: nat) returns (r: Reply<Js<Customer>>)
      requires Valid()
      modifies this
      ensures online == old(online) && Valid()
      ensures old(online) && id in old(tables.customers) ==>
        r == Returned(One(old(tables.customers)[id]))
        && tables == old(tables).(customers := old(tables.customers) - {id})
      ensures !(old(online) && id in old(tables.customers)) ==> r.Threw? && tables == old(tables)
    {
      if !online {
        r := Threw(Unreachable);
      } else if id !in tables.customers {
        r := Threw(NotFound);
      } else {
        r := Returned(One(tables.customers[id]));
        tables := tables.(customers := tables.customers - {id});
      }
    }

    /** Inserts a row built from the next id, which is then used up. */
    method CreateVendor(row: nat -> Vendor) returns (r: Reply<Js<Vendor>>)
      requires Valid() && row(tables.nextId).id == tables.nextId
      modifies this
      ensures online == old(online) && Valid()
      ensures old(online) ==>
        (r == Returned(One(row(old(tables.nextId))))
         && tables == old(tables).(vendors := old(tables.vendors)[old(tables.nextId) := row(old(tables.nextId))],
                                   nextId := old(tables.nextId) + 1))
      ensures old(online) ==> old(tables.nextId) !in old(tables.vendors)
      ensures !old(online) ==> r == Threw(Unreachable) && tables == old(tables)
    {
      if !online {
        r := Threw(Unreachable);
      } else {
        var v := row(tables.nextId);
        tables := tables.(vendors := tables.vendors[tables.nextId := v], nextId := tables.nextId + 1);
        r := Returned(One(v));
      }
    }

    /** `change` writes the columns of the update and keeps the row's id. */
    method UpdateVendor(id: nat, change: Vendor -> Vendor) returns (r: Reply<Js<Vendor>>)
      requires Valid() && (id in tables.vendors ==> change(tables.vendors[id]).id == id)
      modifies this
      ensures online == old(online) && Valid()
      ensures old(online) && id in old(tables.vendors) ==>
        r == Returned(One(change(old(tables.vendors)[id])))
        && tables == old(tables).(vendors := old(tables.vendors)[id := change(old(tables.vendors)[id])])
      ensures !(old(online) && id in old(tables.vendors)) ==> r.Threw? && tables == old(tables)
    {
      if !online {
        r := Threw(Unreachable);
      } else if id !in tables.vendors {
        r := Threw(NotFound);
      } else {
        var v := change(tables.vendors[id]);
        tables := tables.(vendors := tables.vendors[id := v]);
        r := Returned(One(v));
      }
    }

    method DeleteVendor(id: nat) returns (r: Reply<Js<Vendor>>)
      requires Valid()
      modifies this
      ensures online == old(online) && Valid()
      ensures old(online) && id in old(tables.vendors) ==>
        r == Returned(One(old(tables.vendors)[id]))
        && tables == old(tables).(vendors := old(tables.vendors) - {id})
      ensures !(old(online) && id in old(tables.vendors)) ==> r.Threw? && tables == old(tables)
    {
      if !online {
        r := Threw(Unreachable);
      } else if id !in tables.vendors {
        r := Threw(NotFound);
      } else {
        r := Returned(One(tables.vendors[id]));
        tables := tables.(vendors := tables.vendors - {id});
      }
    }

    /** `email` is a unique key of the user table. */
    method CreateUser(email: string, name: string, password: string, role: string) returns (r: Reply<Js<User>>)
      requires Valid()
      modifies this
      ensures online == old(online) && Valid()
      ensures old(online) && email !in old(tables.users) ==>
        r == Returned(One(NewUser(old(tables), email, name, password, role)))
        && tables == WithUser(old(tables), email, name, password, role)
      ensures !old(online) ==> r == Threw(Unreachable) && tables == old(tables)
      ensures old(online) && email in old(tables.users) ==> r == Threw(UniqueViolation) && tables == old(tables)
    {
      if !online {
        r := Threw(Unreachable);
      } else if email in tables.users {
        r := Threw(UniqueViolation);
      } else {
        r := Returned(One(NewUser(tables, email, name, password, role)));
        tables := WithUser(tables, email, name, password, role);
      }
    }
  }
}
