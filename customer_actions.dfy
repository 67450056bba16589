/**
 * The customer server actions (`src/app/actions/customer-actions.ts`). Creating a
 * customer runs in `prisma.$transaction`, which the wrapped client hands out
 * unwrapped: the transaction's errors propagate and nothing it wrote is kept.
 * The other actions go through the client they were given.
 */
module CustomerActions {
  import opened Wrappers
  import opened Text
  import opened Facade
  import opened Store

  /** A vehicle of the creation form; `kind` is its `type`. */
  datatype VehicleInput = VehicleInput(
    regNumber: string, model: string, kind: string, chassisNumber: Option<string>, engineNumber: Option<string>)

  datatype CustomerInput = CustomerInput(
    customerId: Option<string>, firstName: string, lastName: string, phone: string,
    email: Option<string>, address: Option<string>, gstin: Option<string>,
    vehicles: Option<seq<VehicleInput>>)

  /** What an action returns: `{ success: true, customer }`, `{ success: true }`, `{ success: false, error }`. */
  datatype CustomerResult = Saved(customer: Js<Customer>) | Deleted | Failed(error: string)

  /** The customer row an insert with id `id` stores: empty optional texts become `null`. */
  function NewCustomer(id: nat, data: CustomerInput): (c: Customer)
    ensures c.id == id && c.customerId == data.customerId
    ensures c.firstName == data.firstName && c.lastName == data.lastName && c.phone == data.phone
    ensures c.email == OrNull(data.email) && c.address == OrNull(data.address) && c.gstin == OrNull(data.gstin)
  {
    Customer(id, data.customerId, data.firstName, data.lastName, data.phone,
             OrNull(data.email), OrNull(data.address), OrNull(data.gstin))
  }

  /** A vehicle row: copies of the owner's name, phone, address and GSTIN are stored with it. */
  function NewVehicle(id: nat, data: CustomerInput, v: VehicleInput, owner: nat): (w: Vehicle)
    ensures w.id == id && w.customerId == owner
    ensures w.regNumber == v.regNumber && w.model == v.model && w.kind == v.kind
    ensures w.chassisNumber == OrNull(v.chassisNumber) && w.engineNumber == OrNull(v.engineNumber)
    ensures w.ownerName == data.firstName + " " + data.lastName && w.ownerPhone == data.phone
    ensures w.ownerAddress == OrNull(data.address) && w.ownerGstin == OrNull(data.gstin)
  {
    Vehicle(id, v.regNumber, v.model, v.kind, data.firstName + " " + data.lastName,
            OrNull(v.chassisNumber), OrNull(v.engineNumber), data.phone,
            OrNull(data.address), OrNull(data.gstin), owner)
  }

  /** The error the transaction throws for a registration that is taken. */
  function Conflict(regNumber: string): string {
    "Vehicle with registration " + regNumber + " already exists."
  }

  /** `data.vehicles` when it is given, else none. */
  function VehiclesOf(data: CustomerInput): seq<VehicleInput> {
    if data.vehicles.Some? then data.vehicles.value else []
  }

  /** One vehicle insert inside the transaction: it takes the next id. */
  function WithVehicle(t: Tables, data: CustomerInput, v: VehicleInput, owner: nat): Tables {
    t.(vehicles := t.vehicles[v.regNumber := NewVehicle(t.nextId, data, v, owner)], nextId := t.nextId + 1)
  }

  /** The `for` loop of the transaction, as a reference: each vehicle in turn is looked up
      by registration and inserted, and the first registration already present aborts. */
  function AddVehicles(t: Tables, data: CustomerInput, owner: nat, vs: seq<VehicleInput>): (r: Reply<Tables>)
    ensures r.Threw? ==> exists k :: 0 <= k < |vs| && r.message == Conflict(vs[k].regNumber)
    decreases |vs|
  {
    if vs == [] then Returned(t)
    else if vs[0].regNumber in t.vehicles then Threw(Conflict(vs[0].regNumber))
    else
      var r := AddVehicles(WithVehicle(t, data, vs[0], owner), data, owner, vs[1..]);
      assert r.Threw? ==> exists k :: 0 < k < |vs| && r.message == Conflict(vs[k].regNumber) by {
        if r.Threw? {
          var k :| 0 <= k < |vs[1..]| && r.message == Conflict(vs[1..][k].regNumber);
          assert vs[1..][k] == vs[k + 1];
        }
      }
      r
  }

  /** The customer insert of the transaction. */
  function WithCustomer(t: Tables, data: CustomerInput): Tables {
    t.(customers := t.customers[t.nextId := NewCustomer(t.nextId, data)], nextId := t.nextId + 1)
  }

  /** The whole transaction: the new customer and the tables it commits, or the error it throws.
      It fails with the unreachable-store error or with the conflict error of one of its vehicles. */
  function Transaction(online: bool, t: Tables, data: CustomerInput): (r: Reply<(Customer, Tables)>)
    ensures !online ==> r == Threw(Unreachable)
    ensures r.Returned? ==> r.value.0 == NewCustomer(t.nextId, data)
    ensures online && r.Threw? ==>
      exists k :: 0 <= k < |VehiclesOf(data)| && r.message == Conflict(VehiclesOf(data)[k].regNumber)
  {
    if !online then Threw(Unreachable)
    else
      match AddVehicles(WithCustomer(t, data), data, t.nextId, VehiclesOf(data))
      case Threw(m) => Threw(m)
      case Returned(t') => Returned((NewCustomer(t.nextId, data), t'))
  }

  /** Vehicle `k` cannot be inserted: its registration is in `known` or repeats an earlier one. */
  predicate Clashes(known: map<string, Vehicle>, vs: seq<VehicleInput>, k: int)
    requires 0 <= k < |vs|
  {
    vs[k].regNumber in known || exists j :: 0 <= j < k && vs[j].regNumber == vs[k].regNumber
  }

  /** Every registration is new and none repeats. */
  predicate AllFresh(known: map<string, Vehicle>, vs: seq<VehicleInput>) {
    forall k :: 0 <= k < |vs| ==> !Clashes(known, vs, k)
  }

  /** A vehicle's clash against the tables after the first vehicle was inserted is its clash in the full list. */
  lemma ClashShift(t: Tables, data: CustomerInput, owner: nat, vs: seq<VehicleInput>, k: int)
    requires |vs| > 0 && 0 <= k < |vs| - 1
    ensures Clashes(WithVehicle(t, data, vs[0], owner).vehicles, vs[1..], k) <==> Clashes(t.vehicles, vs, k + 1)
  {
    var known := WithVehicle(t, data, vs[0], owner).vehicles;
    if Clashes(t.vehicles, vs, k + 1) && !(vs[k + 1].regNumber in t.vehicles) {
      var j :| 0 <= j < k + 1 && vs[j].regNumber == vs[k + 1].regNumber;
      if j > 0 {
        assert vs[1..][j - 1].regNumber == vs[1..][k].regNumber;
      }
    }
    if Clashes(known, vs[1..], k) && !(vs[1..][k].regNumber in known) {
      var j :| 0 <= j < k && vs[1..][j].regNumber == vs[1..][k].regNumber;
      assert vs[j + 1].regNumber == vs[k + 1].regNumber;
    }
  }

  /** Once the first vehicle is fresh and inserted, the rest are all fresh exactly when the whole list was. */
  lemma FreshShift(t: Tables, data: CustomerInput, owner: nat, vs: seq<VehicleInput>)
    requires |vs| > 0 && !Clashes(t.vehicles, vs, 0)
    ensures AllFresh(WithVehicle(t, data, vs[0], owner).vehicles, vs[1..]) <==> AllFresh(t.vehicles, vs)
  {
    var known := WithVehicle(t, data, vs[0], owner).vehicles;
    forall k | 0 <= k < |vs| - 1 {
      ClashShift(t, data, owner, vs, k);
    }
    if AllFresh(known, vs[1..]) {
      forall k | 0 < k < |vs|
        ensures !Clashes(t.vehicles, vs, k)
      {
        assert !Clashes(known, vs[1..], k - 1);
      }
    }
  }

  /** The vehicle loop commits exactly when every registration is fresh. */
  lemma {:induction false} CommitsIffFresh(t: Tables, data: CustomerInput, owner: nat, vs: seq<VehicleInput>)
    ensures AddVehicles(t, data, owner, vs).Returned? <==> AllFresh(t.vehicles, vs)
    decreases |vs|
  {
    if vs == [] {
    } else if vs[0].regNumber in t.vehicles {
      assert Clashes(t.vehicles, vs, 0);
    } else {
      CommitsIffFresh(WithVehicle(t, data, vs[0], owner), data, owner, vs[1..]);
      FreshShift(t, data, owner, vs);
    }
  }

  /** An aborted vehicle loop names the first vehicle that clashes. */
  lemma {:induction false} AbortNamesFirstClash(t: Tables, data: CustomerInput, owner: nat, vs: seq<VehicleInput>)
    requires AddVehicles(t, data, owner, vs).Threw?
    ensures exists k :: (0 <= k < |vs| && Clashes(t.vehicles, vs, k)
      && (forall j :: 0 <= j < k ==> !Clashes(t.vehicles, vs, j))
      && AddVehicles(t, data, owner, vs).message == Conflict(vs[k].regNumber))
    decreases |vs|
  {
    if vs[0].regNumber in t.vehicles {
      assert Clashes(t.vehicles, vs, 0);
    } else {
      var t1 := WithVehicle(t, data, vs[0], owner);
      AbortNamesFirstClash(t1, data, owner, vs[1..]);
      var k :| 0 <= k < |vs[1..]| && Clashes(t1.vehicles, vs[1..], k)
        && (forall j :: 0 <= j < k ==> !Clashes(t1.vehicles, vs[1..], j))
        && AddVehicles(t1, data, owner, vs[1..]).message == Conflict(vs[1..][k].regNumber);
      ClashShift(t, data, owner, vs, k);
      forall j | 0 < j < k + 1
        ensures !Clashes(t.vehicles, vs, j)
      {
        ClashShift(t, data, owner, vs, j - 1);
      }
      assert !Clashes(t.vehicles, vs, 0);
      assert Clashes(t.vehicles, vs, k + 1);
    }
  }

  /** A committed vehicle loop uses one id per vehicle, keeps every earlier row and touches no other table. */
  lemma {:induction false} CommitKeepsRows(t: Tables, data: CustomerInput, owner: nat, vs: seq<VehicleInput>)
    requires AddVehicles(t, data, owner, vs).Returned?
    ensures var t' := AddVehicles(t, data, owner, vs).value;
      t' == t.(vehicles := t'.vehicles, nextId := t.nextId + |vs|)
      && (forall reg :: reg in t.vehicles ==> reg in t'.vehicles && t'.vehicles[reg] == t.vehicles[reg])
    decreases |vs|
  {
    if vs != [] {
      CommitKeepsRows(WithVehicle(t, data, vs[0], owner), data, owner, vs[1..]);
    }
  }

  /** The registrations after a committed vehicle loop are the old ones and the new vehicles'. */
  lemma {:induction false} CommitAddsKeys(t: Tables, data: CustomerInput, owner: nat, vs: seq<VehicleInput>)
    requires AddVehicles(t, data, owner, vs).Returned?
    ensures var t' := AddVehicles(t, data, owner, vs).value;
      forall reg :: reg in t'.vehicles <==> reg in t.vehicles || exists i :: 0 <= i < |vs| && vs[i].regNumber == reg
    decreases |vs|
  {
    if vs != [] {
      var t1 := WithVehicle(t, data, vs[0], owner);
      CommitAddsKeys(t1, data, owner, vs[1..]);
      var t' := AddVehicles(t1, data, owner, vs[1..]).value;
      forall reg | reg in t'.vehicles && reg !in t1.vehicles
        ensures exists i :: 0 <= i < |vs| && vs[i].regNumber == reg
      {
        var i :| 0 <= i < |vs[1..]| && vs[1..][i].regNumber == reg;
        assert vs[i + 1].regNumber == reg;
      }
      forall reg | exists i :: 0 <= i < |vs| && vs[i].regNumber == reg
        ensures reg in t'.vehicles
      {
        var i :| 0 <= i < |vs| && vs[i].regNumber == reg;
        if i > 0 {
          assert vs[1..][i - 1].regNumber == reg;
        }
      }
    }
  }

  /** After a committed vehicle loop, vehicle `i` is stored under its registration with id
      `nextId + i` and the owner's id. */
  lemma {:induction false} CommitAddsRows(t: Tables, data: CustomerInput, owner: nat, vs: seq<VehicleInput>)
    requires AddVehicles(t, data, owner, vs).Returned?
    ensures var t' := AddVehicles(t, data, owner, vs).value;
      forall i :: 0 <= i < |vs| ==>
        (vs[i].regNumber in t'.vehicles && t'.vehicles[vs[i].regNumber] == NewVehicle(t.nextId + i, data, vs[i], owner))
    decreases |vs|
  {
    if vs != [] {
      var t1 := WithVehicle(t, data, vs[0], owner);
      CommitAddsRows(t1, data, owner, vs[1..]);
      CommitKeepsRows(t1, data, owner, vs[1..]);
      var t' := AddVehicles(t1, data, owner, vs[1..]).value;
      forall i | 0 < i < |vs|
        ensures vs[i].regNumber in t'.vehicles
          && t'.vehicles[vs[i].regNumber] == NewVehicle(t.nextId + i, data, vs[i], owner)
      {
        assert vs[i] == vs[1..][i - 1];
      }
    }
  }

  /** Creating a customer commits exactly when the store is reachable and every registration is
      new and distinct. It then adds the customer, with the next id, and one vehicle row per
      entry that belongs to it; every vehicle that existed before is kept. On well-formed tables
      the next id is free, so every customer that existed before is kept too. */
  lemma CreateCommitsIffFresh(online: bool, t: Tables, data: CustomerInput)
    ensures Transaction(online, t, data).Returned? <==> online && AllFresh(t.vehicles, VehiclesOf(data))
    ensures Transaction(online, t, data).Returned? ==>
      var (c, t') := Transaction(online, t, data).value;
      var vs := VehiclesOf(data);
      c == NewCustomer(t.nextId, data)
      && t'.customers == t.customers[t.nextId := c]
      && t'.users == t.users && t'.vendors == t.vendors && t'.appointments == t.appointments
      && t'.purchaseOrders == t.purchaseOrders && t'.nextId == t.nextId + 1 + |vs|
      && (forall reg :: reg in t'.vehicles <==> reg in t.vehicles || exists i :: 0 <= i < |vs| && vs[i].regNumber == reg)
      && (forall reg :: reg in t.vehicles ==> t'.vehicles[reg] == t.vehicles[reg])
      && (forall i :: 0 <= i < |vs| ==>
            t'.vehicles[vs[i].regNumber] == NewVehicle(t.nextId + 1 + i, data, vs[i], c.id))
    ensures WellFormed(t) && Transaction(online, t, data).Returned? ==>
      var t' := Transaction(online, t, data).value.1;
      t.nextId !in t.customers && t'.customers.Keys == t.customers.Keys + {t.nextId}
      && (forall id :: id in t.customers ==> t'.customers[id] == t.customers[id])
      && WellFormed(t')
  {
    CommitsIffFresh(WithCustomer(t, data), data, t.nextId, VehiclesOf(data));
    if Transaction(online, t, data).Returned? {
      CommitKeepsRows(WithCustomer(t, data), data, t.nextId, VehiclesOf(data));
      CommitAddsKeys(WithCustomer(t, data), data, t.nextId, VehiclesOf(data));
      CommitAddsRows(WithCustomer(t, data), data, t.nextId, VehiclesOf(data));
    }
  }

  /** A rejected creation reports the first registration that clashes. */
  lemma CreateNamesFirstConflict(t: Tables, data: CustomerInput)
    requires !AllFresh(t.vehicles, VehiclesOf(data))
    ensures var vs := VehiclesOf(data);
      exists k :: (0 <= k < |vs| && Clashes(t.vehicles, vs, k)
        && (forall j :: 0 <= j < k ==> !Clashes(t.vehicles, vs, j))
        && Transaction(true, t, data) == Threw(Conflict(vs[k].regNumber)))
  {
    CommitsIffFresh(WithCustomer(t, data), data, t.nextId, VehiclesOf(data));
    AbortNamesFirstClash(WithCustomer(t, data), data, t.nextId, VehiclesOf(data));
  }

  /** The transaction callback, run against the transaction's own view `t` of the tables. */
  method RunTransaction(online: bool, t: Tables, data: CustomerInput) returns (r: Reply<(Customer, Tables)>)
    ensures r == Transaction(online, t, data)
  {
    if !online {
      return Threw(Unreachable);
    }
    var customer := NewCustomer(t.nextId, data);
    var tx := WithCustomer(t, data);
    var vs := VehiclesOf(data);
    if |vs| > 0 {
      var i := 0;
      while i < |vs|
        invariant 0 <= i <= |vs|
        invariant AddVehicles(WithCustomer(t, data), data, customer.id, vs)
               == AddVehicles(tx, data, customer.id, vs[i..])
      {
        assert vs[i..][1..] == vs[i + 1..];
        if vs[i].regNumber in tx.vehicles {
          return Threw(Conflict(vs[i].regNumber));
        }
        tx := WithVehicle(tx, data, vs[i], customer.id);
        i := i + 1;
      }
    }
    r := Returned((customer, tx));
  }

  /** `error.message || fallback`. */
  function MessageOr(message: string, fallback: string): (m: string)
    ensures message != "" ==> m == message
    ensures message == "" ==> m == fallback
  {
    if message == "" then fallback else message
  }

  /** `createCustomer`: all or nothing. */
  method CreateCustomer(db: Db, data: CustomerInput) returns (r: CustomerResult)
    requires db.Valid()
    modifies db
    ensures db.online == old(db.online) && db.Valid()
    ensures Transaction(old(db.online), old(db.tables), data).Returned? ==>
      r == Saved(One(Transaction(old(db.online), old(db.tables), data).value.0))
      && db.tables == Transaction(old(db.online), old(db.tables), data).value.1
    ensures Transaction(old(db.online), old(db.tables), data).Threw? ==>
      r == Failed(MessageOr(Transaction(old(db.online), old(db.tables), data).message, "Failed to create customer"))
      && db.tables == old(db.tables)
  {
    var result := RunTransaction(db.online, db.tables, data);
    CreateCommitsIffFresh(db.online, db.tables, data);
    if result.Threw? {
      return Failed(MessageOr(result.message, "Failed to create customer"));
    }
    db.tables := result.value.1;
    r := Saved(One(result.value.0));
  }

  /** The fields `updateCustomer` writes; `customerId` is kept. The form is untyped: a name or
      phone that is `None` was not sent, and Prisma leaves that column as it was. */
  datatype CustomerChanges = CustomerChanges(
    firstName: Option<string>, lastName: Option<string>, phone: Option<string>,
    email: Option<string>, address: Option<string>, gstin: Option<string>)

  function Edited(c: Customer, data: CustomerChanges): (e: Customer)
    ensures e.id == c.id && e.customerId == c.customerId
    ensures e.firstName == Written(data.firstName, c.firstName) && e.lastName == Written(data.lastName, c.lastName)
    ensures e.phone == Written(data.phone, c.phone)
    ensures e.email == OrNull(data.email) && e.address == OrNull(data.address) && e.gstin == OrNull(data.gstin)
  {
    c.(firstName := Written(data.firstName, c.firstName), lastName := Written(data.lastName, c.lastName),
       phone := Written(data.phone, c.phone),
       email := OrNull(data.email), address := OrNull(data.address), gstin := OrNull(data.gstin))
  }

  /** An update that sends only a phone number keeps the name but clears every optional field,
      since `undefined || null` is `null`. */
  lemma PhoneOnlyEditClearsOptionals(c: Customer, phone: string)
    ensures var e := Edited(c, CustomerChanges(None, None, Some(phone), None, None, None));
      e.firstName == c.firstName && e.lastName == c.lastName && e.phone == phone
      && e.email.None? && e.address.None? && e.gstin.None?
  {
  }

  /** `updateCustomer`. The copies of the owner's details on the customer's vehicles are not touched.
      Through the wrapped client a missing customer or an unreachable store reads as success
      with a `null` customer. */
  method UpdateCustomer(client: Client, db: Db, id: nat, data: CustomerChanges) returns (r: CustomerResult)
    requires db.Valid()
    modifies db
    ensures db.online == old(db.online) && db.Valid()
    ensures db.tables.vehicles == old(db.tables.vehicles)
    ensures old(db.online) && id in old(db.tables.customers) ==>
      r == Saved(One(Edited(old(db.tables.customers)[id], data)))
      && db.tables == old(db.tables).(customers := old(db.tables.customers)[id := Edited(old(db.tables.customers)[id], data)])
    ensures !(old(db.online) && id in old(db.tables.customers)) ==>
      db.tables == old(db.tables)
      && r == (if client == SafeClient then Saved(Null) else Failed("Failed to update customer"))
  {
    var raw := db.UpdateCustomer(id, c => Edited(c, data));
    var seen := Call(client, Update, raw);
    if seen.Threw? {
      return Failed("Failed to update customer");
    }
    r := Saved(seen.value);
  }

  /** The refusal for a customer who still owns vehicles, around the number of vehicles. */
  const StillOwnsPrefix := "Cannot delete customer with "
  const StillOwnsSuffix := " " + "vehicle(s). Please reassign or remove vehicles first."

  function StillOwns(count: nat): string {
    StillOwnsPrefix + Decimal(count) + StillOwnsSuffix
  }

  /** The refusal states the number of vehicles, and it can be read back from the text. */
  lemma StillOwnsStatesCount(count: nat)
    ensures NumberAt(StillOwns(count), |StillOwnsPrefix|) == count
  {
    assert StillOwnsSuffix[0] == ' ';
    NumberAfterPrefix(StillOwnsPrefix, count, StillOwnsSuffix);
  }

  /** `deleteCustomer`: a customer who owns vehicles is never deleted. Through the wrapped client an
      unreachable store or a missing customer reads as a successful deletion. */
  method DeleteCustomer(client: Client, db: Db, id: nat) returns (r: CustomerResult)
    requires db.Valid()
    modifies db
    ensures db.online == old(db.online) && db.Valid()
    ensures db.tables == old(db.tables) || (r == Deleted && VehicleCount(old(db.tables), id) == 0)
    ensures old(db.online) && VehicleCount(old(db.tables), id) > 0 ==>
      r == Failed(StillOwns(VehicleCount(old(db.tables), id))) && db.tables == old(db.tables)
    ensures old(db.online) && VehicleCount(old(db.tables), id) == 0 && id in old(db.tables.customers) ==>
      r == Deleted && db.tables == old(db.tables).(customers := old(db.tables.customers) - {id})
    ensures !(old(db.online) && id in old(db.tables.customers)) && !(old(db.online) && VehicleCount(old(db.tables), id) > 0) ==>
      db.tables == old(db.tables)
      && r == (if client == SafeClient then Deleted else Failed("Failed to delete customer"))
  {
    var counted := Call(client, Count, db.CountVehicles(id));
    if counted.Threw? {
      return Failed("Failed to delete customer");
    }
    var count := CountOf(counted.value);
    if count > 0 {
      return Failed(StillOwns(count));
    }
    var raw := db.DeleteCustomer(id);
    var seen := Call(client, Delete, raw);
    if seen.Threw? {
      return Failed("Failed to delete customer");
    }
    r := Deleted;
  }

  /** `getCustomers`: every stored customer, or none when the store cannot be read. */
  method GetCustomers(client: Client, db: Db) returns (rows: seq<Customer>)
    ensures db.online ==> (forall c :: c in rows <==> c in db.tables.customers.Values) && |rows| == |db.tables.customers|
    ensures db.Valid() ==> Distinct(rows)
    ensures !db.online ==> rows == []
  {
    var raw := db.FindCustomers();
    var seen := Call(client, FindMany, raw);
    if seen.Threw? || !seen.value.Many? {
      return [];
    }
    rows := seen.value.rows;
  }
}
