/**
 * The service-history list (`src/app/service-history/components/ServiceHistoryList.tsx`):
 * which of the given records the signed-in user sees, and what the empty state says.
 */
module ServiceHistory {
  import opened Wrappers
  import opened Seqs
  import Auth

  /** A service record as the list reads it; `customerId` is `None` when the record has no such field. */
  datatype ServiceRecord = ServiceRecord(
    id: nat, customerId: Option<nat>, regNumber: Option<string>, model: Option<string>, status: string,
    date: string, serviceType: Option<string>, complaint: Option<string>, totalCost: real)

  /** What the component renders: a spinner, or the cards with the empty-state panel and its hint. */
  datatype View = Spinner | Grid(cards: seq<ServiceRecord>, emptyState: bool, bookHint: bool)

  /** `record.customerId === user?.id`: without a user, only records that have no owner field match. */
  predicate Owns(user: Option<Auth.SessionData>, record: ServiceRecord) {
    record.customerId == (if user.Some? then Some(user.value.id) else None)
  }

  function Role(user: Option<Auth.SessionData>): Option<string> {
    if user.Some? then Some(user.value.role) else None
  }

  function Render(loading: bool, user: Option<Auth.SessionData>, records: seq<ServiceRecord>): (v: View)
    ensures loading <==> v == Spinner
    ensures !loading && Role(user) == Some("ADMIN") ==> v.cards == records
    ensures v.Grid? ==> (v.emptyState <==> v.cards == [])
    ensures v.Grid? ==> (v.bookHint <==> v.cards == [] && Role(user) == Some("USER"))
  {
    if loading then Spinner
    else
      var cards := if Role(user) == Some("ADMIN") then records else Filter(records, (r: ServiceRecord) => Owns(user, r));
      Grid(cards, |cards| == 0, |cards| == 0 && Role(user) == Some("USER"))
  }

  /** Anyone but an administrator sees exactly their own records, in the given order. */
  lemma OthersSeeOwnRecords(user: Option<Auth.SessionData>, records: seq<ServiceRecord>)
    requires Role(user) != Some("ADMIN")
    ensures IsSubsequence(Render(false, user, records).cards, records)
    ensures forall r :: r in Render(false, user, records).cards <==> r in records && Owns(user, r)
  {
    var keep := (r: ServiceRecord) => Owns(user, r);
    FilterIsSubsequence(records, keep);
    FilterMembers(records, keep);
  }

  /** A signed-in user with no records of their own gets the empty state, with the booking hint
      exactly when their role is `USER`. */
  lemma NoOwnRecordsShowsEmptyState(user: Auth.SessionData, records: seq<ServiceRecord>)
    requires user.role != "ADMIN"
    requires forall i :: 0 <= i < |records| ==> records[i].customerId != Some(user.id)
    ensures Render(false, Some(user), records) == Grid([], true, user.role == "USER")
  {
    FilterDropsAll(records, (r: ServiceRecord) => Owns(Some(user), r));
  }
}
