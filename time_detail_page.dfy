/** The course detail page's logic
    (apps/web-app/src/features/golfCourses/pages/GolfCourseTimeDetailPage.tsx):
    the time-of-day filter over a course's slots, the nearby-course
    recommendations, and the two booking handlers. */
module TimeDetailPage {
  import opened JsText
  import opened Seqs
  import opened DateUtil
  import opened CourseDomain
  import opened Catalog
  import opened GolfStoreState
  import opened UserStoreState

  /** The time-of-day tabs of the page. */
  const AllTimesTab := "전체"
  const DawnTab := "새벽"
  const MorningTab := "오전"
  const AfternoonTab := "오후"
  const NightTab := "야간"

  /** The body of the `filteredTeeTimes` callback: the slot's hour is read as the
      store reads it, and a NaN hour fails every comparison. */
  predicate ShownUnderTab(tab: string, tt: TeeTime) {
    var hour := SlotHour(tt.BOOK_TM);
    || (tab == DawnTab && hour.Some? && hour.value < 7)
    || (tab == MorningTab && hour.Some? && hour.value >= 7 && hour.value < 12)
    || (tab == AfternoonTab && hour.Some? && hour.value >= 12 && hour.value < 16)
    || (tab == NightTab && hour.Some? && hour.value >= 16)
    || tab == AllTimesTab
  }

  function TabTest(tab: string): TeeTime -> bool {
    tt => ShownUnderTab(tab, tt)
  }

  /** `filteredTeeTimes`. */
  function FilteredTeeTimes(teeTimes: seq<TeeTime>, tab: string): (r: seq<TeeTime>)
    ensures IsSubseq(r, teeTimes)
    ensures forall tt :: tt in r <==> tt in teeTimes && ShownUnderTab(tab, tt)
    ensures forall tt :: multiset(r)[tt] == if ShownUnderTab(tab, tt) then multiset(teeTimes)[tt] else 0
  {
    FilterIsSubseq(teeTimes, TabTest(tab));
    FilterMultiplicity(teeTimes, TabTest(tab));
    Filter(teeTimes, TabTest(tab))
  }

  /** The 전체 tab shows every slot, in order. */
  lemma AllTimesTabShowsAll(teeTimes: seq<TeeTime>)
    ensures FilteredTeeTimes(teeTimes, AllTimesTab) == teeTimes
  {
    FilterKeepsAll(teeTimes, TabTest(AllTimesTab));
  }

  /** A tab that is none of the five shows nothing. */
  lemma UnknownTabShowsNothing(teeTimes: seq<TeeTime>, tab: string)
    requires tab !in {AllTimesTab, DawnTab, MorningTab, AfternoonTab, NightTab}
    ensures FilteredTeeTimes(teeTimes, tab) == []
  {
    FilterKeepsNone(teeTimes, TabTest(tab));
  }

  /** Each of the four time tabs keeps a slot exactly when the list filter's band
      of the same time of day would count that slot. */
  lemma TabsAgreeWithBands(tt: TeeTime)
    ensures ShownUnderTab(DawnTab, tt) <==> InTeeTimeBand(DawnBand, SlotHour(tt.BOOK_TM))
    ensures ShownUnderTab(MorningTab, tt) <==> InTeeTimeBand(MorningBand, SlotHour(tt.BOOK_TM))
    ensures ShownUnderTab(AfternoonTab, tt) <==> InTeeTimeBand(AfternoonBand, SlotHour(tt.BOOK_TM))
    ensures ShownUnderTab(NightTab, tt) <==> InTeeTimeBand(NightBand, SlotHour(tt.BOOK_TM))
  {
  }

  const MaxRecommendations: nat := 5

  /** A course near the one on the page: same region, another course number. With
      no course on the page the region comparison is against `undefined` and
      fails. */
  predicate Nearby(course: Option<GolfCourse>, c: GolfCourse) {
    course.Some? && c.GOLF_PLC_NO != course.value.GOLF_PLC_NO && c.REGN_NM == course.value.REGN_NM
  }

  function NearbyTest(course: Option<GolfCourse>): GolfCourse -> bool {
    c => Nearby(course, c)
  }

  /** `recommendations`: the first five nearby courses of the loaded list. */
  function Recommendations(all: seq<GolfCourse>, course: Option<GolfCourse>): (r: seq<GolfCourse>)
    ensures |r| <= MaxRecommendations && |r| <= |Filter(all, NearbyTest(course))|
    ensures forall c :: c in r ==> c in all && Nearby(course, c)
    ensures r == Filter(all, NearbyTest(course))[..|r|]
    ensures |r| < MaxRecommendations ==> r == Filter(all, NearbyTest(course))
  {
    var nearby := Filter(all, NearbyTest(course));
    var r := Slice(nearby, 0, MaxRecommendations);
    assert forall c :: c in r ==> c in nearby;
    r
  }

  /** The recommendations keep the order of the loaded list. */
  lemma RecommendationsInOrder(all: seq<GolfCourse>, course: Option<GolfCourse>)
    ensures IsSubseq(Recommendations(all, course), all)
  {
    var nearby := Filter(all, NearbyTest(course));
    FilterIsSubseq(all, NearbyTest(course));
    SubseqPrefix(nearby, all, |Recommendations(all, course)|);
  }

  /** Without a course on the page there are no recommendations. */
  lemma NoCourseNoRecommendations(all: seq<GolfCourse>)
    ensures Recommendations(all, None) == []
  {
    FilterKeepsNone(all, NearbyTest(None));
  }

  lemma {:induction false} SubseqPrefix<T>(a: seq<T>, b: seq<T>, n: nat)
    requires IsSubseq(a, b) && n <= |a|
    ensures IsSubseq(a[..n], b)
    decreases |b|
  {
    if n > 0 {
      if a[0] == b[0] {
        SubseqPrefix(a[1..], b[1..], n - 1);
        assert a[..n][1..] == a[1..][..n - 1];
      } else {
        SubseqPrefix(a, b[1..], n);
      }
    }
  }

  /** The page's own state: the slot whose booking sheet is open, over the
      store it reads the course and the date from. */
  class DetailPage {
    var bookingTeeTime: Option<TeeTime>
    const store: GolfStore

    constructor (store: GolfStore)
      ensures bookingTeeTime == None && this.store == store
    {
      bookingTeeTime := None;
      this.store := store;
    }

    /** `handleBookClick`: a signed-in user opens the booking sheet for a copy of
        the slot dated with the store's selected date; anyone else only gets the
        sign-in notice, which is not modelled. */
    method HandleBookClick(teeTime: TeeTime, users: UserStore)
      modifies this`bookingTeeTime
      ensures users.isAuthenticated ==>
                bookingTeeTime == Some(teeTime.(BOOK_DT := Some(FormatYmd(store.selectedDate))))
      ensures !users.isAuthenticated ==> bookingTeeTime == old(bookingTeeTime)
    {
      if users.isAuthenticated {
        bookingTeeTime := Some(teeTime.(BOOK_DT := Some(FormatYmd(store.selectedDate))));
      }
    }

    /** `handleConfirmBooking`: with an open sheet, start the reservation when a
        course is selected, and close the sheet either way. */
    method HandleConfirmBooking()
      modifies this`bookingTeeTime, store`reservationDetails
      ensures bookingTeeTime == None
      ensures old(bookingTeeTime).Some? && store.selectedCourse.Some? ==>
                store.reservationDetails == Some(ReservationDetails(
                  store.selectedCourse.value.(BOOK_DT := FormatYmd(store.selectedDate)),
                  old(bookingTeeTime).value))
      ensures old(bookingTeeTime).None? || store.selectedCourse.None? ==>
                store.reservationDetails == old(store.reservationDetails)
    {
      if bookingTeeTime.Some? {
        if store.selectedCourse.Some? {
          store.StartReservation(bookingTeeTime.value);
        }
        bookingTeeTime := None;
      }
    }
  }
}
