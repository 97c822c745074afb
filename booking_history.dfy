/** The booking history page's grouping
    (apps/web-app/src/features/golfCourseBookings/pages/BookingHistoryPage.tsx):
    the user's bookings split into scheduled rounds and cancelled rounds. */
module BookingHistory {
  import opened JsText
  import opened Seqs
  import opened BookingDomain

  const ScheduledStatus: int := 1
  const CancelledStatus: int := 2

  datatype Groups = Groups(scheduled: seq<Booking>, cancelled: seq<Booking>)

  function HasStatus(status: int): Booking -> bool {
    (b: Booking) => b.status == status
  }

  /** The query's `select`: the status-1 bookings and the status-2 bookings, each
      in the order the server sent them. */
  function Select(data: seq<Booking>): (r: Groups)
    ensures IsSubseq(r.scheduled, data) && IsSubseq(r.cancelled, data)
    ensures forall b :: b in r.scheduled <==> b in data && b.status == ScheduledStatus
    ensures forall b :: b in r.cancelled <==> b in data && b.status == CancelledStatus
    ensures forall b :: multiset(r.scheduled)[b] ==
              if b.status == ScheduledStatus then multiset(data)[b] else 0
    ensures forall b :: multiset(r.cancelled)[b] ==
              if b.status == CancelledStatus then multiset(data)[b] else 0
  {
    FilterIsSubseq(data, HasStatus(ScheduledStatus));
    FilterIsSubseq(data, HasStatus(CancelledStatus));
    FilterMultiplicity(data, HasStatus(ScheduledStatus));
    FilterMultiplicity(data, HasStatus(CancelledStatus));
    Groups(Filter(data, HasStatus(ScheduledStatus)), Filter(data, HasStatus(CancelledStatus)))
  }

  /** The groups the page shows: empty until the data has arrived. */
  function Shown(data: Option<seq<Booking>>): (r: Groups)
    ensures data.None? ==> r == Groups([], [])
    ensures data.Some? ==> r == Select(data.value)
  {
    match data
    case None => Groups([], [])
    case Some(bookings) => Select(bookings)
  }

  /** No booking is in both groups, and a booking of any other status (such as
      3) is in neither. */
  lemma GroupsDisjoint(data: seq<Booking>)
    ensures forall b :: !(b in Select(data).scheduled && b in Select(data).cancelled)
    ensures forall b :: b in data && b.status != ScheduledStatus && b.status != CancelledStatus ==>
              b !in Select(data).scheduled && b !in Select(data).cancelled
  {
  }

  /** Together the groups hold each booking at most as often as the data does;
      exactly as often when every booking is scheduled or cancelled. */
  lemma GroupsCount(data: seq<Booking>)
    ensures multiset(Select(data).scheduled) + multiset(Select(data).cancelled) <= multiset(data)
    ensures (forall i :: 0 <= i < |data| ==>
               data[i].status == ScheduledStatus || data[i].status == CancelledStatus)
            ==> multiset(Select(data).scheduled) + multiset(Select(data).cancelled) == multiset(data)
  {
    var p, q := HasStatus(ScheduledStatus), HasStatus(CancelledStatus);
    FilterPairBounded(data, p, q);
    if forall i :: 0 <= i < |data| ==> data[i].status == ScheduledStatus || data[i].status == CancelledStatus {
      FilterPairCovers(data, p, q);
    }
  }
}
