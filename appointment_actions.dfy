/**
 * The appointment server actions of `src/app/actions/appointment-actions.ts`.
 * Each action first asks the database client; when that call throws it falls
 * back to `MOCK_APPOINTMENTS`, a module-level list that lives as long as the
 * process, and it reports success either way. The client is a parameter: the
 * file itself imports the wrapped client of `src/lib/prisma.ts`, under which
 * (as the contracts below show) the fallback is never reached.
 */
module AppointmentActions {
  import opened Wrappers
  import opened Facade
  import opened Store

  const Pending := "PENDING"

  /** The payload of `createAppointment`. */
  datatype NewAppointment = NewAppointment(
    customerId: Option<nat>, vehicleId: Option<nat>, serviceType: string, date: string, notes: Option<string>)

  /** The row `prisma.appointment.create` stores, once the database gives it an id. */
  function StoredRow(data: NewAppointment, createdAt: string): (row: nat -> Appointment)
    ensures forall id: nat :: row(id).id == id && row(id).status == Pending
  {
    (id: nat) => Appointment(id, data.customerId, data.vehicleId, data.serviceType, data.date, Pending,
                      data.notes, createdAt, None, None)
  }

  /** The entry the fallback path puts in front of the list. */
  function FallbackEntry(id: nat, data: NewAppointment, createdAt: string): (a: Appointment)
    ensures a.id == id && a.status == Pending
    ensures a.customerId == data.customerId && a.vehicleId == data.vehicleId
    ensures a.serviceType == data.serviceType && a.date == data.date && a.notes == data.notes
  {
    Appointment(id, data.customerId, data.vehicleId, data.serviceType, data.date, Pending, data.notes,
                createdAt, Some(Party("Demo", "User", "0000000000")), Some(Car("DEMO-001", "Generic Car")))
  }

  /** The two entries `MOCK_APPOINTMENTS` starts with; the dates are passed in. */
  function InitialEntries(tomorrow: string, dayAfter: string, now: string): seq<Appointment> {
    [ Appointment(1, Some(1), Some(1), "General Service", tomorrow, "CONFIRMED", Some("Regular checkup"), now,
                  Some(Party("Rajesh", "Kumar", "9876543210")), Some(Car("KA-01-AB-1234", "Swift Dzire"))),
      Appointment(2, Some(2), Some(2), "Oil Change", dayAfter, Pending, Some("Synthetic oil preferred"), now,
                  Some(Party("Priya", "Sharma", "9123456780")), Some(Car("MH-02-XY-9876", "Honda City"))) ]
  }

  /** Some entry of the list has this id. */
  ghost predicate HasId(s: seq<Appointment>, id: nat) {
    exists i :: 0 <= i < |s| && s[i].id == id
  }

  /** The ids in the list are exactly 1 .. its length. */
  ghost predicate IdsExactly(s: seq<Appointment>) {
    forall id: nat :: HasId(s, id) <==> 1 <= id <= |s|
  }

  lemma InitialIds(tomorrow: string, dayAfter: string, now: string)
    ensures IdsExactly(InitialEntries(tomorrow, dayAfter, now))
  {
    var s := InitialEntries(tomorrow, dayAfter, now);
    forall id: nat ensures HasId(s, id) <==> 1 <= id <= |s| {
      if id == 1 { assert s[0].id == id; }
      if id == 2 { assert s[1].id == id; }
    }
  }

  /** The fallback create keeps the invariant: it adds the next id and removes nothing. */
  lemma PrependKeepsIds(s: seq<Appointment>, e: Appointment)
    requires IdsExactly(s) && e.id == |s| + 1
    ensures IdsExactly([e] + s)
  {
    var t := [e] + s;
    forall id: nat ensures HasId(t, id) <==> 1 <= id <= |t| {
      if HasId(t, id) {
        var i :| 0 <= i < |t| && t[i].id == id;
        if i > 0 {
          assert t[i] == s[i - 1];
          assert HasId(s, id);
        }
      }
      if 1 <= id <= |t| {
        if id == |t| {
          assert t[0].id == id;
        } else {
          assert HasId(s, id);
          var j :| 0 <= j < |s| && s[j].id == id;
          assert t[j + 1] == s[j];
        }
      }
    }
  }

  /** Rewriting a status keeps every id. */
  lemma StatusKeepsIds(s: seq<Appointment>, id: nat, status: string)
    requires IdsExactly(s)
    ensures IdsExactly(WithStatus(s, id, status))
  {
    var t := WithStatus(s, id, status);
    assert forall i :: 0 <= i < |s| ==> t[i].id == s[i].id;
    forall x: nat ensures HasId(t, x) <==> HasId(s, x) {
      if HasId(t, x) {
        var i :| 0 <= i < |t| && t[i].id == x;
        assert s[i].id == x;
      }
      if HasId(s, x) {
        var i :| 0 <= i < |s| && s[i].id == x;
        assert t[i].id == x;
      }
    }
  }

  /** Under the invariant, an update finds an entry exactly for the ids 1 .. length. */
  lemma FoundIffInRange(s: seq<Appointment>, id: nat)
    requires IdsExactly(s)
    ensures FindIndex(s, id) >= 0 <==> 1 <= id <= |s|
  {
    assert HasId(s, id) <==> 1 <= id <= |s|;
    if HasId(s, id) {
      var j :| 0 <= j < |s| && s[j].id == id;
    }
  }

  /** `MOCK_APPOINTMENTS`. */
  class MockAppointments {
    var entries: seq<Appointment>

    ghost predicate Valid()
      reads this
    {
      IdsExactly(entries)
    }

    constructor (tomorrow: string, dayAfter: string, now: string)
      ensures Valid() && entries == InitialEntries(tomorrow, dayAfter, now)
    {
      entries := InitialEntries(tomorrow, dayAfter, now);
      InitialIds(tomorrow, dayAfter, now);
    }

    /** `MOCK_APPOINTMENTS.unshift({ id: MOCK_APPOINTMENTS.length + 1, ...data, status: "PENDING", ... })` */
    method Unshift(data: NewAppointment, createdAt: string)
      requires Valid()
      modifies this
      ensures Valid()
      ensures entries == [FallbackEntry(|old(entries)| + 1, data, createdAt)] + old(entries)
    {
      var e := FallbackEntry(|entries| + 1, data, createdAt);
      PrependKeepsIds(entries, e);
      entries := [e] + entries;
    }

    /** `findIndex` and, when something is found, the status assignment. */
    method SetStatus(id: nat, status: string)
      requires Valid()
      modifies this
      ensures Valid()
      ensures entries == WithStatus(old(entries), id, status)
    {
      StatusKeepsIds(entries, id, status);
      var index := FindIndex(entries, id);
      if index != -1 {
        entries := entries[index := entries[index].(status := status)];
      }
    }
  }

  datatype AppointmentList = AppointmentList(success: bool, data: seq<Appointment>)

  /** `getAppointments(role, userId)`: both arguments are ignored. */
  method GetAppointments(client: Client, db: Db, mock: MockAppointments, role: Option<string>, userId: Option<string>)
    returns (res: AppointmentList)
    ensures res.success
    ensures db.online ==> res.data == db.tables.appointments
    ensures !db.online && client == SafeClient ==> res.data == []
    ensures !db.online && client == PlainClient ==> res.data == mock.entries
  {
    var seen := Call(client, FindMany, db.FindAppointments());
    match seen
    case Returned(v) =>
      res := AppointmentList(true, if v.Many? then v.rows else []);
    case Threw(_) =>
      res := AppointmentList(true, mock.entries);
  }

  /** `createAppointment(data)`; `now` is the creation time. */
  method CreateAppointment(client: Client, db: Db, mock: MockAppointments, data: NewAppointment, now: string)
    returns (success: bool)
    requires mock.Valid() && db.Valid()
    modifies db, mock
    ensures success && mock.Valid() && db.Valid()
    ensures db.online == old(db.online)
    ensures old(db.online) ==>
      db.tables == old(db.tables).(appointments := old(db.tables.appointments) + [StoredRow(data, now)(old(db.tables.nextId))],
                                   nextId := old(db.tables.nextId) + 1)
      && mock.entries == old(mock.entries)
    ensures !old(db.online) ==> db.tables == old(db.tables)
    ensures !old(db.online) && client == SafeClient ==> mock.entries == old(mock.entries)
    ensures !old(db.online) && client == PlainClient ==>
      mock.entries == [FallbackEntry(|old(mock.entries)| + 1, data, now)] + old(mock.entries)
  {
    var raw := db.CreateAppointment(StoredRow(data, now));
    var seen := Call(client, Create, raw);
    if seen.Threw? {
      mock.Unshift(data, now);
    }
    success := true;
  }

  /** `updateAppointmentStatus(id, status)`: any status text is written; no transition is checked. */
  method UpdateAppointmentStatus(client: Client, db: Db, mock: MockAppointments, id: nat, status: string)
    returns (success: bool)
    requires mock.Valid() && db.Valid()
    modifies db, mock
    ensures success && mock.Valid() && db.Valid()
    ensures db.online == old(db.online)
    ensures old(db.online) && FindIndex(old(db.tables.appointments), id) >= 0 ==>
      db.tables == old(db.tables).(appointments := WithStatus(old(db.tables.appointments), id, status))
      && mock.entries == old(mock.entries)
    ensures !old(db.online) || FindIndex(old(db.tables.appointments), id) == -1 ==>
      db.tables == old(db.tables)
      && (client == SafeClient ==> mock.entries == old(mock.entries))
      && (client == PlainClient ==> mock.entries == WithStatus(old(mock.entries), id, status))
  {
    var raw := db.UpdateAppointmentStatus(id, status);
    var seen := Call(client, Update, raw);
    if seen.Threw? {
      mock.SetStatus(id, status);
    }
    success := true;
  }
}
