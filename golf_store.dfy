/** The golf store's state and actions (apps/web-app/src/shared/store/createStore.ts).
    Each action of the store is a method that updates the fields it names. */
module GolfStoreState {
  import opened JsText
  import opened DateUtil
  import opened CourseDomain
  import opened BookingDomain
  import opened Seqs
  import opened Catalog

  datatype View =
    | ListView | DetailView | ReservationView | TermsView | HistoryView
    | BookingDetailView | CancellationCompleteView | SearchView

  /** `'cancellation' | 'privacy'`. */
  datatype TermsKind = CancellationTerms | PrivacyTerms

  /** `'rounds' | 'cancelled'`. */
  datatype HistoryTab = RoundsTab | CancelledTab

  datatype ReservationDetails = ReservationDetails(course: GolfCourse, teeTime: TeeTime)

  datatype ConfirmedBooking = ConfirmedBooking(course: GolfCourse, teeTime: TeeTime, bookingId: string)

  /** What the load-more timer captured when it was scheduled: the length of the
      visible list and the processed list of that moment. */
  datatype PendingLoad = PendingLoad(visibleLength: nat, processed: seq<GolfCourse>)

  /** The index of the first booking with the given id (`bookings.find`). */
  function FirstWithId(bookings: seq<Booking>, id: string): (r: Option<nat>)
    ensures r.Some? ==> r.value < |bookings| && bookings[r.value].id == id
                        && forall j :: 0 <= j < r.value ==> bookings[j].id != id
    ensures r.None? ==> forall j :: 0 <= j < |bookings| ==> bookings[j].id != id
    decreases |bookings|
  {
    if bookings == [] then None
    else if bookings[0].id == id then Some(0)
    else
      match FirstWithId(bookings[1..], id)
      case None => None
      case Some(k) => Some(k + 1)
  }

  /** The bookings after the first one with the given id is marked cancelled
      (status 2); all others stay as they are. */
  function CancelFirstWithId(bookings: seq<Booking>, id: string): (r: seq<Booking>)
    ensures |r| == |bookings|
    ensures forall j :: 0 <= j < |r| && FirstWithId(bookings, id) != Some(j) ==> r[j] == bookings[j]
    ensures FirstWithId(bookings, id).Some? ==>
              var k := FirstWithId(bookings, id).value; r[k] == bookings[k].(status := 2)
  {
    match FirstWithId(bookings, id)
    case None => bookings
    case Some(k) => bookings[k := bookings[k].(status := 2)]
  }

  class GolfStore {
    var selectedDate: CivilDate
    var availableMonths: seq<CivilDate>
    var allGolfCourses: seq<GolfCourse>
    var processedCourses: seq<GolfCourse>
    var golfCourses: seq<GolfCourse>
    var bookings: seq<Booking>
    var currentView: View
    var loadingMore: bool
    var hasMore: bool
    var expandedCourseId: Option<int>
    var isFilterModalOpen: bool
    var isSortModalOpen: bool
    var isCancelReasonModalOpen: bool
    var bookingConfirmedDetails: Option<ConfirmedBooking>
    var selectedCourse: Option<GolfCourse>
    var reservationDetails: Option<ReservationDetails>
    var viewingTerms: Option<TermsKind>
    var selectedBooking: Option<Booking>
    var initialHistoryTab: HistoryTab
    var filters: Filters
    var sortOption: SortOption
    var searchQuery: string
    var searchResults: seq<GolfCourse>
    var recentSearches: seq<string>
    /** The pending load-more completion, if one is scheduled. */
    var scheduledLoad: Option<PendingLoad>

    /** Korean collation of course names (`localeCompare(_, 'ko')`) and
        `toLowerCase`, both left abstract. */
    const collate: (string, string) -> bool
    const lowerCase: string -> string

    /** The processed list reflects the raw list, the filters and the sort. */
    ghost predicate Processed()
      reads this`processedCourses, this`allGolfCourses, this`filters, this`sortOption
    {
      processedCourses == ApplyAllFiltersAndSorts(allGolfCourses, filters, sortOption, collate)
    }

    /** A completion is pending exactly while `loadingMore` is set. */
    ghost predicate LoadPending()
      reads this`loadingMore, this`scheduledLoad
    {
      loadingMore <==> scheduledLoad.Some?
    }

    ghost predicate Valid()
      reads this`processedCourses, this`allGolfCourses, this`filters, this`sortOption,
            this`loadingMore, this`scheduledLoad
    {
      Processed() && LoadPending()
    }

    /** The visible list is the first page of the processed list. */
    ghost predicate ShowsFirstPage()
      reads this`golfCourses, this`processedCourses, this`hasMore
    {
      golfCourses == FirstPage(processedCourses) && hasMore == (|processedCourses| > PageSize)
    }

    /** The visible list is a prefix of the processed list. */
    ghost predicate ShowsPrefix()
      reads this`golfCourses, this`processedCourses
    {
      |golfCourses| <= |processedCourses| && golfCourses == processedCourses[..|golfCourses|]
    }

    /** The initial state; `today` stands for `new Date()`, and `persistedRegions`
        for the region filter restored from storage, merged into the initial
        filters. */
    constructor (today: CivilDate, persistedRegions: Option<seq<string>>,
                 collate: (string, string) -> bool, lowerCase: string -> string)
      ensures Valid() && ShowsFirstPage()
      ensures selectedDate == today && |availableMonths| == 3
      ensures forall i :: 0 <= i < 3 ==>
                (availableMonths[i].day == 1
                 && MonthIndex(availableMonths[i]) == 12 * ConstructorYear(today.year) + today.month - 1 + i)
      ensures allGolfCourses == [] && processedCourses == [] && golfCourses == [] && bookings == []
      ensures currentView == ListView && !loadingMore && !hasMore && expandedCourseId == None
      ensures !isFilterModalOpen && !isSortModalOpen && !isCancelReasonModalOpen
      ensures bookingConfirmedDetails == None && selectedCourse == None
              && reservationDetails == None && viewingTerms == None && selectedBooking == None
      ensures initialHistoryTab == RoundsTab && sortOption == DefaultSort
      ensures filters == MergePersisted(persistedRegions, InitialFilters)
      ensures searchQuery == "" && searchResults == [] && recentSearches == InitialRecentSearches
      ensures scheduledLoad == None
      ensures this.collate == collate && this.lowerCase == lowerCase
    {
      var months := GetMonthsRange(today, 3);
      selectedDate := today;
      availableMonths := months;
      allGolfCourses := [];
      processedCourses := [];
      golfCourses := [];
      bookings := [];
      currentView := ListView;
      loadingMore := false;
      hasMore := false;
      expandedCourseId := None;
      isFilterModalOpen := false;
      isSortModalOpen := false;
      isCancelReasonModalOpen := false;
      bookingConfirmedDetails := None;
      selectedCourse := None;
      reservationDetails := None;
      viewingTerms := None;
      selectedBooking := None;
      initialHistoryTab := RoundsTab;
      filters := MergePersisted(persistedRegions, InitialFilters);
      sortOption := DefaultSort;
      searchQuery := "";
      searchResults := [];
      recentSearches := InitialRecentSearches;
      scheduledLoad := None;
      this.collate := collate;
      this.lowerCase := lowerCase;
    }

    /** `updateProcessedCourses`: recompute the processed list and show its first
        page. */
    method UpdateProcessedCourses()
      requires LoadPending()
      modifies this`processedCourses, this`golfCourses, this`hasMore
      ensures Valid() && ShowsFirstPage() && ShowsPrefix()
    {
      var processed := ApplyAllFiltersAndSorts(allGolfCourses, filters, sortOption, collate);
      processedCourses := processed;
      golfCourses := FirstPage(processed);
      hasMore := |processed| > PageSize;
      assert allGolfCourses == old(allGolfCourses) && filters == old(filters) && sortOption == old(sortOption);
    }

    /** `setAllGolfCourses`: new raw data, recomputed and shown from the top. */
    method SetAllGolfCourses(courses: seq<GolfCourse>)
      requires LoadPending()
      modifies this`allGolfCourses, this`processedCourses, this`golfCourses, this`hasMore
      ensures Valid() && ShowsFirstPage() && ShowsPrefix()
      ensures allGolfCourses == courses
    {
      allGolfCourses := courses;
      UpdateProcessedCourses();
    }

    method SetSelectedDate(date: CivilDate)
      modifies this`selectedDate
      ensures selectedDate == date
    {
      selectedDate := date;
    }

    /** The synchronous half of `loadMoreCourses`: nothing while a load is running
        or when there is nothing more; otherwise mark the store busy and schedule
        the completion with the current visible length and processed list. */
    method BeginLoadMore()
      requires Valid()
      modifies this`loadingMore, this`scheduledLoad
      ensures Valid()
      ensures old(loadingMore) || !hasMore ==>
                loadingMore == old(loadingMore) && scheduledLoad == old(scheduledLoad)
      ensures !old(loadingMore) && hasMore ==>
                loadingMore && scheduledLoad == Some(PendingLoad(|golfCourses|, processedCourses))
    {
      if loadingMore || !hasMore {
        return;
      }
      loadingMore := true;
      scheduledLoad := Some(PendingLoad(|golfCourses|, processedCourses));
    }

    /** The timer half of `loadMoreCourses`: append the captured list's next page
        to the current visible list, and decide `hasMore` from the current
        processed list against the captured length. */
    method CompleteLoadMore()
      requires Valid() && scheduledLoad.Some?
      modifies this`golfCourses, this`hasMore, this`loadingMore, this`scheduledLoad
      ensures Valid()
      ensures var p := old(scheduledLoad.value);
              golfCourses == AppendNextPage(old(golfCourses), p.processed, p.visibleLength)
              && hasMore == (|processedCourses| > p.visibleLength + PageSize)
      ensures !loadingMore && scheduledLoad == None
      ensures var p := old(scheduledLoad.value);
              (old(ShowsPrefix()) && p.processed == processedCourses
               && p.visibleLength == old(|golfCourses|)) ==> ShowsPrefix()
    {
      ghost var processed := processedCourses;
      AppendLoadedPage(scheduledLoad.value);
      loadingMore := false;
      scheduledLoad := None;
      assert processedCourses == processed && allGolfCourses == old(allGolfCourses)
             && filters == old(filters) && sortOption == old(sortOption);
    }

    /** The list half of a completion: append the page after the position the
        load started from, to the processed list the load saw. */
    method AppendLoadedPage(p: PendingLoad)
      modifies this`golfCourses, this`hasMore
      ensures golfCourses == AppendNextPage(old(golfCourses), p.processed, p.visibleLength)
      ensures hasMore == (|processedCourses| > p.visibleLength + PageSize)
      ensures (old(ShowsPrefix()) && p.processed == processedCourses
               && p.visibleLength == old(|golfCourses|)) ==> ShowsPrefix()
    {
      if ShowsPrefix() && p.processed == processedCourses && p.visibleLength == |golfCourses| {
        AppendNextPageStaysPrefix(golfCourses, processedCourses);
      }
      golfCourses := AppendNextPage(golfCourses, p.processed, p.visibleLength);
      hasMore := |processedCourses| > p.visibleLength + PageSize;
    }

    /** `applyFilters`: take the new filters, close the filter sheet, recompute. */
    method ApplyFilters(newFilters: Filters)
      requires LoadPending()
      modifies this`filters, this`isFilterModalOpen, this`processedCourses, this`golfCourses,
               this`hasMore
      ensures Valid() && ShowsFirstPage() && ShowsPrefix()
      ensures filters == newFilters && !isFilterModalOpen
    {
      filters := newFilters;
      isFilterModalOpen := false;
      UpdateProcessedCourses();
    }

    /** `resetFilters`: back to the empty filters, every course shown. */
    method ResetFilters()
      requires LoadPending()
      modifies this`filters, this`processedCourses, this`golfCourses, this`hasMore
      ensures Valid() && ShowsFirstPage() && ShowsPrefix()
      ensures filters == InitialFilters && !IsFilterActive(filters)
      ensures multiset(processedCourses) == multiset(allGolfCourses)
    {
      filters := InitialFilters;
      UpdateProcessedCourses();
      NoFiltersKeepsAll(allGolfCourses, filters, sortOption, collate);
    }

    /** `applySort`: take the new order, close the sort sheet, recompute. */
    method ApplySort(newSortOption: SortOption)
      requires LoadPending()
      modifies this`sortOption, this`isSortModalOpen, this`processedCourses, this`golfCourses,
               this`hasMore
      ensures Valid() && ShowsFirstPage() && ShowsPrefix()
      ensures sortOption == newSortOption && !isSortModalOpen
    {
      sortOption := newSortOption;
      isSortModalOpen := false;
      UpdateProcessedCourses();
    }

    /** `resetSort`: back to the default order. */
    method ResetSort()
      requires LoadPending()
      modifies this`sortOption, this`processedCourses, this`golfCourses, this`hasMore
      ensures Valid() && ShowsFirstPage() && ShowsPrefix()
      ensures sortOption == DefaultSort && !IsSortActive(sortOption)
    {
      sortOption := DefaultSort;
      UpdateProcessedCourses();
    }

    /** `toggleCourse`: at most one row is expanded. */
    method ToggleCourse(id: int)
      modifies this`expandedCourseId
      ensures expandedCourseId == ToggleExpanded(old(expandedCourseId), id)
    {
      expandedCourseId := if expandedCourseId == Some(id) then None else Some(id);
    }

    method SetView(view: View)
      modifies this`currentView
      ensures currentView == view
    {
      currentView := view;
    }

    method SelectCourse(course: GolfCourse)
      modifies this`selectedCourse
      ensures selectedCourse == Some(course)
    {
      selectedCourse := Some(course);
    }

    method BackToList()
      modifies this`selectedCourse, this`currentView
      ensures selectedCourse == None && currentView == ListView
    {
      selectedCourse := None;
      currentView := ListView;
    }

    /** `startReservation`: with a selected course, draft a reservation for it,
        dated with the selected date as `YYYYMMDD`; without one, nothing. */
    method StartReservation(teeTime: TeeTime)
      modifies this`reservationDetails
      ensures selectedCourse.Some? ==>
                reservationDetails == Some(ReservationDetails(
                  selectedCourse.value.(BOOK_DT := FormatYmd(selectedDate)), teeTime))
      ensures selectedCourse.None? ==> reservationDetails == old(reservationDetails)
    {
      if selectedCourse.Some? {
        reservationDetails := Some(ReservationDetails(
          selectedCourse.value.(BOOK_DT := FormatYmd(selectedDate)), teeTime));
      }
    }

    method ViewTerms(kind: TermsKind)
      modifies this`viewingTerms, this`currentView
      ensures viewingTerms == Some(kind) && currentView == TermsView
    {
      viewingTerms := Some(kind);
      currentView := TermsView;
    }

    method BackToReservation()
      modifies this`viewingTerms, this`currentView
      ensures viewingTerms == None && currentView == ReservationView
    {
      viewingTerms := None;
      currentView := ReservationView;
    }

    /** `confirmBooking`: the draft becomes the confirmed receipt with the booking
        id, and the draft is cleared; without a draft, nothing. */
    method ConfirmBooking(bookingId: string)
      modifies this`bookingConfirmedDetails, this`reservationDetails
      ensures old(reservationDetails).Some? ==>
                bookingConfirmedDetails == Some(ConfirmedBooking(old(reservationDetails).value.course,
                                                                 old(reservationDetails).value.teeTime,
                                                                 bookingId))
                && reservationDetails == None
      ensures old(reservationDetails).None? ==>
                bookingConfirmedDetails == old(bookingConfirmedDetails) && reservationDetails == None
    {
      if reservationDetails.Some? {
        var details := reservationDetails.value;
        bookingConfirmedDetails := Some(ConfirmedBooking(details.course, details.teeTime, bookingId));
        reservationDetails := None;
      }
    }

    method SetBookings(newBookings: seq<Booking>)
      modifies this`bookings, this`currentView
      ensures bookings == newBookings && currentView == HistoryView
    {
      bookings := newBookings;
      currentView := HistoryView;
    }

    method ViewHistory()
      modifies this`bookingConfirmedDetails, this`initialHistoryTab, this`currentView
      ensures bookingConfirmedDetails == None && initialHistoryTab == RoundsTab
              && currentView == HistoryView
    {
      bookingConfirmedDetails := None;
      initialHistoryTab := RoundsTab;
      currentView := HistoryView;
    }

    method CloseBookingConfirmation()
      modifies this`bookingConfirmedDetails, this`initialHistoryTab
      ensures bookingConfirmedDetails == None && initialHistoryTab == RoundsTab
    {
      bookingConfirmedDetails := None;
      initialHistoryTab := RoundsTab;
    }

    method ViewBookingDetail(booking: Booking)
      modifies this`selectedBooking, this`currentView
      ensures selectedBooking == Some(booking) && currentView == BookingDetailView
    {
      selectedBooking := Some(booking);
      currentView := BookingDetailView;
    }

    method BackToHistory()
      modifies this`selectedBooking, this`currentView
      ensures selectedBooking == None && currentView == HistoryView
    {
      selectedBooking := None;
      currentView := HistoryView;
    }

    method CloseCancelReasonModal()
      modifies this`isCancelReasonModalOpen
      ensures !isCancelReasonModalOpen
    {
      isCancelReasonModalOpen := false;
    }

    /** `selectCancellationReason`: with a selected booking, mark the first booking
        with its id cancelled (status 2), close the reason sheet and show the
        completion page; without one, nothing. */
    method SelectCancellationReason()
      modifies this`bookings, this`isCancelReasonModalOpen, this`currentView
      ensures selectedBooking.None? ==>
                bookings == old(bookings) && isCancelReasonModalOpen == old(isCancelReasonModalOpen)
                && currentView == old(currentView)
      ensures selectedBooking.Some? ==>
                bookings == CancelFirstWithId(old(bookings), selectedBooking.value.id)
                && !isCancelReasonModalOpen && currentView == CancellationCompleteView
    {
      if selectedBooking.None? {
        return;
      }
      var id := selectedBooking.value.id;
      var i := 0;
      while i < |bookings| && bookings[i].id != id
        invariant 0 <= i <= |bookings|
        invariant forall j :: 0 <= j < i ==> bookings[j].id != id
      {
        i := i + 1;
      }
      if i < |bookings| {
        bookings := bookings[i := bookings[i].(status := 2)];
      }
      isCancelReasonModalOpen := false;
      currentView := CancellationCompleteView;
    }

    method ViewCancellationHistory()
      modifies this`selectedBooking, this`initialHistoryTab, this`currentView
      ensures selectedBooking == None && initialHistoryTab == CancelledTab
              && currentView == HistoryView
    {
      selectedBooking := None;
      initialHistoryTab := CancelledTab;
      currentView := HistoryView;
    }

    method GoToSearch()
      modifies this`currentView
      ensures currentView == SearchView
    {
      currentView := SearchView;
    }

    method BackFromSearch()
      modifies this`searchQuery, this`searchResults, this`currentView
      ensures searchQuery == "" && searchResults == [] && currentView == ListView
    {
      searchQuery := "";
      searchResults := [];
      currentView := ListView;
    }

    /** `setSearchQuery`: keep the query; the results are the courses whose name
        or address contains it, or none for a blank query. */
    method SetSearchQuery(query: string)
      modifies this`searchQuery, this`searchResults
      ensures searchQuery == query
      ensures searchResults == SearchResults(allGolfCourses, query, lowerCase)
    {
      searchQuery := query;
      if Trim(query) == "" {
        searchResults := [];
      } else {
        searchResults := Filter(allGolfCourses, (c: GolfCourse) => QueryMatches(c, query, lowerCase));
      }
    }

    /** `selectSearchResult`: a non-blank query goes to the front of the recent
        searches, without duplicates and at most ten; then the course is opened
        and the search is cleared. */
    method SelectSearchResult(course: GolfCourse)
      modifies this`recentSearches, this`selectedCourse, this`currentView, this`searchQuery,
               this`searchResults
      ensures Trim(old(searchQuery)) != "" ==>
                recentSearches == PushRecentSearch(old(searchQuery), old(recentSearches))
      ensures Trim(old(searchQuery)) == "" ==> recentSearches == old(recentSearches)
      ensures selectedCourse == Some(course) && currentView == DetailView
              && searchQuery == "" && searchResults == []
    {
      if Trim(searchQuery) != "" {
        recentSearches := PushRecentSearch(searchQuery, recentSearches);
      }
      selectedCourse := Some(course);
      currentView := DetailView;
      searchQuery := "";
      searchResults := [];
    }

    /** `selectRecentSearch`: search for the term again. */
    method SelectRecentSearch(term: string)
      modifies this`searchQuery, this`searchResults
      ensures searchQuery == term
      ensures searchResults == SearchResults(allGolfCourses, term, lowerCase)
    {
      SetSearchQuery(term);
    }

    /** `removeRecentSearch`: drop the entry at the index, if there is one. */
    method RemoveRecentSearch(indexToRemove: int)
      modifies this`recentSearches
      ensures recentSearches ==
                if 0 <= indexToRemove < |old(recentSearches)|
                then old(recentSearches)[..indexToRemove] + old(recentSearches)[indexToRemove + 1..]
                else old(recentSearches)
    {
      DropIndexRemoves(recentSearches, indexToRemove, 0);
      recentSearches := DropIndex(recentSearches, indexToRemove, 0);
    }

    method ClearRecentSearches()
      modifies this`recentSearches
      ensures recentSearches == []
    {
      recentSearches := [];
    }

    method ToggleFilterModal(isOpen: bool)
      modifies this`isFilterModalOpen
      ensures isFilterModalOpen == isOpen
    {
      isFilterModalOpen := isOpen;
    }

    method ToggleSortModal(isOpen: bool)
      modifies this`isSortModalOpen
      ensures isSortModalOpen == isOpen
    {
      isSortModalOpen := isOpen;
    }
  }
}
