/**
 * The appointments page (`src/app/appointments/page.tsx`): its state, the search
 * and status filter over the loaded list, the booking form, and the status
 * buttons an administrator is offered. Each handler calls the server actions of
 * `AppointmentActions` and then reloads the page's data.
 */
module AppointmentsPage {
  import opened Wrappers
  import opened Text
  import opened Seqs
  import opened Facade
  import opened Store
  import opened AppointmentActions
  import Auth

  const Confirmed := "CONFIRMED"
  const Cancelled := "CANCELLED"
  const Completed := "COMPLETED"

  predicate IsAdmin(user: Option<Auth.SessionData>) {
    user.Some? && user.value.role == "ADMIN"
  }

  // The status lifecycle.

  /** The statuses a row's buttons move an appointment to. */
  function Offered(isAdmin: bool, status: string): (targets: set<string>)
    ensures !isAdmin ==> targets == {}
    ensures isAdmin && status == Pending ==> targets == {Confirmed, Cancelled}
    ensures isAdmin && status == Confirmed ==> targets == {Completed}
    ensures status != Pending && status != Confirmed ==> targets == {}
  {
    if isAdmin && status == Pending then {Confirmed, Cancelled}
    else if isAdmin && status == Confirmed then {Completed}
    else {}
  }

  /** The lifecycle the buttons implement, as a relation on statuses. */
  predicate Step(from: string, to: string) {
    (from == Pending && (to == Confirmed || to == Cancelled)) || (from == Confirmed && to == Completed)
  }

  /** An administrator is offered exactly the lifecycle's steps; in particular a pending
      appointment cannot be completed directly, and cancelled or completed ones offer nothing. */
  lemma OfferedIsLifecycle(from: string, to: string)
    ensures to in Offered(true, from) <==> Step(from, to)
    ensures !(Completed in Offered(true, Pending))
    ensures Offered(true, Cancelled) == {} && Offered(true, Completed) == {}
  {
  }

  /** A sequence of statuses an administrator can walk through with the buttons. */
  ghost predicate IsWalk(p: seq<string>) {
    forall i :: 0 <= i < |p| - 1 ==> p[i + 1] in Offered(true, p[i])
  }

  /** How far a status is along the lifecycle. */
  function Rank(s: string): nat {
    if s == Pending then 0 else if s == Confirmed then 1 else 2
  }

  /** Every walk visits at most three statuses, so at most two button presses change a row. */
  lemma {:induction false} WalksAreShort(p: seq<string>)
    requires |p| > 0 && IsWalk(p)
    ensures |p| <= 3 - Rank(p[0])
    decreases |p|
  {
    if |p| > 1 {
      assert p[1] in Offered(true, p[0]);
      assert IsWalk(p[1..]) by {
        forall i | 0 <= i < |p[1..]| - 1
          ensures p[1..][i + 1] in Offered(true, p[1..][i])
        {
          assert p[i + 2] in Offered(true, p[i + 1]);
        }
      }
      WalksAreShort(p[1..]);
    }
  }

  /** The one walk of length three goes from pending through confirmed to completed. */
  lemma LongestWalk(p: seq<string>)
    requires |p| == 3 && IsWalk(p)
    ensures p == [Pending, Confirmed, Completed]
  {
    assert p[1] in Offered(true, p[0]);
    assert p[2] in Offered(true, p[1]);
  }

  // Search and status filter.

  /** The search box: the customer's first name, the registration or the service type contains
      the query, all lowered by `lower` (`toLowerCase`). */
  predicate MatchesSearch(app: Appointment, query: string, lower: string -> string) {
    (app.customer.Some? && Includes(lower(app.customer.value.firstName), lower(query)))
    || (app.vehicle.Some? && Includes(lower(app.vehicle.value.regNumber), lower(query)))
    || Includes(lower(app.serviceType), lower(query))
  }

  predicate MatchesStatus(app: Appointment, filter: string) {
    filter == "ALL" || app.status == filter
  }

  /** The rows the table shows. */
  function Visible(apps: seq<Appointment>, query: string, filter: string, lower: string -> string): (shown: seq<Appointment>)
    ensures |shown| <= |apps|
  {
    Filter(apps, (app: Appointment) => MatchesSearch(app, query, lower) && MatchesStatus(app, filter))
  }

  /** The table shows, in their loaded order, exactly the loaded rows that match both controls. */
  lemma VisibleRows(apps: seq<Appointment>, query: string, filter: string, lower: string -> string)
    ensures IsSubsequence(Visible(apps, query, filter, lower), apps)
    ensures forall app :: app in Visible(apps, query, filter, lower) <==>
      app in apps && MatchesSearch(app, query, lower) && MatchesStatus(app, filter)
  {
    var keep := (app: Appointment) => MatchesSearch(app, query, lower) && MatchesStatus(app, filter);
    FilterIsSubsequence(apps, keep);
    FilterMembers(apps, keep);
  }

  /** With the initial controls (empty query, "ALL") every loaded row is shown. */
  lemma InitialControlsShowAll(apps: seq<Appointment>, lower: string -> string)
    requires lower("") == ""
    ensures Visible(apps, "", "ALL", lower) == apps
  {
    var keep := (app: Appointment) => MatchesSearch(app, "", lower) && MatchesStatus(app, "ALL");
    forall i | 0 <= i < |apps|
      ensures keep(apps[i])
    {
      assert StartsWith(lower(apps[i].serviceType), "");
    }
    FilterKeepsAll(apps, keep);
  }

  /** A status other than "ALL" shows only rows with exactly that status. */
  lemma StatusFilterIsExact(apps: seq<Appointment>, query: string, filter: string, lower: string -> string)
    requires filter != "ALL"
    ensures forall app :: app in Visible(apps, query, filter, lower) ==> app.status == filter
  {
    VisibleRows(apps, query, filter, lower);
  }

  // The booking form.

  datatype BookingForm = BookingForm(serviceType: string, date: string, time: string, vehicleId: string, notes: string)

  const EmptyForm := BookingForm("", "", "09:00", "", "")

  /** `vehicles.find(v => v.id === id)?.customerId`. */
  function OwnerOf(vehicles: seq<Vehicle>, id: Option<nat>): (owner: Option<nat>)
    ensures owner.Some? <==> id.Some? && exists i :: 0 <= i < |vehicles| && vehicles[i].id == id.value
    ensures owner.Some? ==> exists i :: (0 <= i < |vehicles| && vehicles[i].id == id.value
      && owner.value == vehicles[i].customerId && forall j :: 0 <= j < i ==> vehicles[j].id != id.value)
  {
    if id.None? || vehicles == [] then None
    else if vehicles[0].id == id.value then Some(vehicles[0].customerId)
    else
      var rest := OwnerOf(vehicles[1..], id);
      if rest.Some? then
        assert exists i :: (0 <= i < |vehicles| - 1 && vehicles[1..][i].id == id.value
          && rest.value == vehicles[1..][i].customerId && forall j :: 0 <= j < i ==> vehicles[1..][j].id != id.value);
        var i :| 0 <= i < |vehicles| - 1 && vehicles[1..][i].id == id.value
          && rest.value == vehicles[1..][i].customerId && forall j :: 0 <= j < i ==> vehicles[1..][j].id != id.value;
        assert vehicles[i + 1].id == id.value;
        assert forall j :: 1 <= j < i + 1 ==> vehicles[j].id == vehicles[1..][j - 1].id;
        rest
      else
        assert forall i :: 1 <= i < |vehicles| ==> vehicles[i] == vehicles[1..][i - 1];
        rest
  }

  /** The payload `handleSubmit` sends; `iso` is the booked date and time in ISO form. */
  function Booking(form: BookingForm, vehicles: seq<Vehicle>, iso: string): (data: NewAppointment)
    ensures data.vehicleId == ParseInt(form.vehicleId)
    ensures data.customerId == OwnerOf(vehicles, ParseInt(form.vehicleId))
    ensures data.serviceType == form.serviceType && data.date == iso && data.notes == Some(form.notes)
  {
    var id := ParseInt(form.vehicleId);
    NewAppointment(OwnerOf(vehicles, id), id, form.serviceType, iso, Some(form.notes))
  }

  /** Picking a vehicle from the list (whose options are the vehicle ids as text) books that
      vehicle and links its owner. */
  lemma PickedVehicleIsBooked(form: BookingForm, vehicles: seq<Vehicle>, iso: string, k: int)
    requires 0 <= k < |vehicles| && form.vehicleId == Decimal(vehicles[k].id)
    requires forall j :: 0 <= j < |vehicles| && vehicles[j].id == vehicles[k].id ==> j == k
    ensures Booking(form, vehicles, iso).vehicleId == Some(vehicles[k].id)
    ensures Booking(form, vehicles, iso).customerId == Some(vehicles[k].customerId)
  {
    ParseIntOfDecimal(vehicles[k].id);
  }

  /** How `getVehicles()` settled: `{ success: true, data }`, a reply without success, or a
      rejected promise (what a call of a missing export does). */
  datatype VehicleFetch = Delivered(rows: seq<Vehicle>) | Unsuccessful | Rejected

  /** The page's state. `user` is the signed-in user the auth context supplies. */
  class Page {
    const user: Option<Auth.SessionData>
    var appointments: seq<Appointment>
    var vehicles: seq<Vehicle>
    var loading: bool
    var dialogOpen: bool
    var searchQuery: string
    var statusFilter: string
    var form: BookingForm

    constructor (user: Option<Auth.SessionData>)
      ensures this.user == user
      ensures appointments == [] && vehicles == [] && loading && !dialogOpen
      ensures searchQuery == "" && statusFilter == "ALL" && form == EmptyForm
    {
      this.user := user;
      appointments := [];
      vehicles := [];
      loading := true;
      dialogOpen := false;
      searchQuery := "";
      statusFilter := "ALL";
      form := EmptyForm;
    }

    /** The rows on screen. */
    function Shown(lower: string -> string): seq<Appointment>
      reads this
    {
      Visible(appointments, searchQuery, statusFilter, lower)
    }

    /** `loadData`. `fetched` is how `getVehicles()` settled. On a rejection the rest of the
        function is skipped: the vehicles are kept and the page stays on its loading state. */
    method LoadData(client: Client, db: Db, mock: MockAppointments, fetched: VehicleFetch)
      modifies this
      ensures db.online ==> appointments == db.tables.appointments
      ensures !db.online ==> appointments == (if client == SafeClient then [] else mock.entries)
      ensures vehicles == (if fetched.Delivered? then fetched.rows else old(vehicles))
      ensures loading <==> fetched.Rejected?
      ensures dialogOpen == old(dialogOpen) && form == old(form)
      ensures searchQuery == old(searchQuery) && statusFilter == old(statusFilter)
    {
      loading := true;
      var apps := GetAppointments(client, db, mock, None, None);
      if apps.success {
        appointments := apps.data;
      }
      if fetched.Rejected? {
        return;
      }
      if fetched.Delivered? {
        vehicles := fetched.rows;
      }
      loading := false;
    }

    /** `handleSubmit`, then the reload. `iso` is `new Date(...).toISOString()` of the combined date
        and time: `None` for text that is no date, where the conversion throws and nothing is sent. */
    method HandleSubmit(client: Client, db: Db, mock: MockAppointments, now: string,
                        iso: string -> Option<string>, fetched: VehicleFetch)
      requires mock.Valid() && db.Valid()
      modifies this, db, mock
      ensures mock.Valid() && db.Valid() && db.online == old(db.online)
      ensures searchQuery == old(searchQuery) && statusFilter == old(statusFilter)
      ensures iso(old(form).date + "T" + old(form).time).None? ==>
        db.tables == old(db.tables) && mock.entries == old(mock.entries)
        && appointments == old(appointments) && vehicles == old(vehicles) && loading == old(loading)
        && form == old(form) && dialogOpen == old(dialogOpen)
      ensures iso(old(form).date + "T" + old(form).time).Some? ==>
        var data := Booking(old(form), old(vehicles), iso(old(form).date + "T" + old(form).time).value);
        form == EmptyForm && !dialogOpen && (loading <==> fetched.Rejected?)
        && vehicles == (if fetched.Delivered? then fetched.rows else old(vehicles))
        && (old(db.online) ==>
              db.tables == old(db.tables).(appointments := old(db.tables.appointments) + [StoredRow(data, now)(old(db.tables.nextId))],
                                           nextId := old(db.tables.nextId) + 1)
              && mock.entries == old(mock.entries) && appointments == db.tables.appointments)
        && (!old(db.online) ==> db.tables == old(db.tables))
        && (!old(db.online) && client == SafeClient ==> mock.entries == old(mock.entries) && appointments == [])
        && (!old(db.online) && client == PlainClient ==>
              mock.entries == [FallbackEntry(|old(mock.entries)| + 1, data, now)] + old(mock.entries)
              && appointments == mock.entries)
    {
      var dateTime := iso(form.date + "T" + form.time);
      if dateTime.None? {
        return;
      }
      var data := Booking(form, vehicles, dateTime.value);
      var _ := CreateAppointment(client, db, mock, data, now);
      dialogOpen := false;
      form := EmptyForm;
      LoadData(client, db, mock, fetched);
    }

    /** `handleStatusChange`, then the reload. */
    method HandleStatusChange(client: Client, db: Db, mock: MockAppointments, id: nat, status: string,
                              fetched: VehicleFetch)
      requires mock.Valid() && db.Valid()
      modifies this, db, mock
      ensures mock.Valid() && db.Valid() && db.online == old(db.online) && (loading <==> fetched.Rejected?)
      ensures form == old(form) && dialogOpen == old(dialogOpen)
      ensures searchQuery == old(searchQuery) && statusFilter == old(statusFilter)
      ensures vehicles == (if fetched.Delivered? then fetched.rows else old(vehicles))
      ensures old(db.online) && FindIndex(old(db.tables.appointments), id) >= 0 ==>
        db.tables == old(db.tables).(appointments := WithStatus(old(db.tables.appointments), id, status))
        && mock.entries == old(mock.entries)
      ensures !old(db.online) || FindIndex(old(db.tables.appointments), id) == -1 ==>
        db.tables == old(db.tables)
        && (client == SafeClient ==> mock.entries == old(mock.entries))
        && (client == PlainClient ==> mock.entries == WithStatus(old(mock.entries), id, status))
      ensures old(db.online) ==> appointments == db.tables.appointments
      ensures !old(db.online) ==> appointments == (if client == SafeClient then [] else mock.entries)
    {
      var _ := UpdateAppointmentStatus(client, db, mock, id, status);
      LoadData(client, db, mock, fetched);
    }
  }
}
