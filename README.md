# Golf booking web app: catalog and booking core in Dafny

This project models the client-side core of the golf-course booking web app
(`apps/web-app`). It covers five parts:

- **The catalog engine of the golf store.** The raw course list is filtered by
  region, tee-time band and green-fee band, then sorted by fee, first tee time
  or name. The store shows it 20 courses at a time, with a "load more" step.
- **The store's actions.** These are the golf store, the alert store and the
  user store. Each is a Dafny class whose methods update its fields:
  - the recent-search list;
  - the expanded row;
  - the reservation draft and the confirmed receipt;
  - the in-place cancellation of a booking;
  - the alert dialog;
  - sign-in and sign-out.
- **The string and date utilities.** These are `toNumber`, `phoneFormat`,
  `formatTime`, `formatYmd`, `dateStringToDate`, `getDayOfWeek`, `isSameDay`,
  `getMonthsRange`, `getDaysRange`, `formatFullDateTimeWithDay` and
  `calculateCancellationDeadline`. Dates are proleptic-Gregorian civil dates
  (year, month, day). A day number makes day arithmetic exact.
- **The mappers.** These build tee times, courses and bookings from the
  server's records.
- **The page logic.**
  - the filter sheet's chip toggles;
  - the detail page's time tabs and nearby-course recommendations;
  - the detail page's booking handlers;
  - the reservation page's agreement boxes, confirmation guard, fees and
    booking request;
  - the booking history's split into scheduled and cancelled rounds.

JavaScript built-ins get small definitions of their own in module `JsText`:
`parseInt`, `trim`, `split`, `includes`, `slice`, `padStart`,
`replace(':', '')`, and `replace` with a global character class. Module `Seqs`
holds the generic `filter`, the stable sort and subsequences.

| file | module | models |
|---|---|---|
| js_text.dfy | JsText | the string and number built-ins the source calls |
| seqs.dfy | Seqs | `Array.prototype.filter`, stable `sort`, subsequences |
| common.dfy | Common | `shared/utils/common.ts` |
| date_util.dfy | DateUtil | `shared/utils/date.ts` |
| course_domain.dfy | CourseDomain | `features/golfCourses/domain/mappers.ts` |
| booking_domain.dfy | BookingDomain | `features/golfCourseBookings/domain/mappers.ts` |
| catalog.dfy | Catalog | the pure part of `shared/store/createStore.ts` |
| golf_store.dfy | GolfStoreState | the golf store's state and actions (`createStore.ts`) |
| alert_store.dfy | AlertStoreState | `shared/store/alertStore.ts` |
| user_store.dfy | UserStoreState | `shared/store/userStore.ts` |
| filter_modal.dfy | FilterModalLogic | `FilterModal.tsx` chip logic |
| time_detail_page.dfy | TimeDetailPage | `GolfCourseTimeDetailPage.tsx` logic |
| reservation.dfy | ReservationLogic | `ReservationPage.tsx` logic |
| booking_history.dfy | BookingHistory | `BookingHistoryPage.tsx` grouping |

Numbers are unbounded integers. The source's fees, course numbers and booking
numbers are whole numbers well inside the range where JavaScript numbers are
exact. JavaScript's `NaN` is `None` where it can arise: `parseInt` of a
non-numeral, an `Invalid Date`, and a date field of an invalid date.

## Model

| member | source | states |
|---|---|---|
| Common.ToNumber | apps/web-app/src/shared/utils/common.ts:1-5 | A number argument passes through; `null`, `undefined` and `''` give 0 |
| Common.ToNumberDigitsAndCommas | apps/web-app/src/shared/utils/common.ts:4 | A string of digits and thousands separators, such as "120,000", gives the number its digits spell |
| Common.ToNumberOfIntToString | apps/web-app/src/shared/utils/common.ts:4 | `toNumber` reads back the decimal text of any integer, negative ones included |
| Common.ToNumberRejects | apps/web-app/src/shared/utils/common.ts:4 | A string with a character `Number` cannot accept gives 0, never NaN |
| Common.PhoneFormat | apps/web-app/src/shared/utils/common.ts:7-9 | All-digit input: 11 digits become 3-4-4, 10 digits 3-3-4, 9 digits 2-3-4. Any other input is returned unchanged |
| Common.PhoneFormatIsRegexReplace | apps/web-app/src/shared/utils/common.ts:8 | The length rule agrees on every input with a backtracking matcher of `/^(\d{2,3})(\d{3,4})(\d{4})$/` |
| Common.PhoneFormatUnhyphenates | apps/web-app/src/shared/utils/common.ts:7-9 | Removing the hyphens from the output gives the input without its hyphens. An input without hyphens comes back exactly |
| DateUtil.AddDaysNumber | apps/web-app/src/shared/utils/date.ts:15 | Moving a date by n days moves its day number by exactly n |
| DateUtil.DayNumberInjective | apps/web-app/src/shared/utils/date.ts:21-24 | Two valid dates with the same day number are equal |
| DateUtil.MakeDay | apps/web-app/src/shared/utils/date.ts:4 | `new Date(y, mi, dt)` rolls a month index and a day outside their ranges into neighbouring months and years, always giving a valid calendar date |
| DateUtil.MakeDayNumber | apps/web-app/src/shared/utils/date.ts:4 | The day number of the date `new Date(y, mi, dt)` builds is that of the 1st of month `mi`, plus `dt - 1` |
| DateUtil.MakeDayShift | apps/web-app/src/shared/utils/date.ts:14-15 | `setDate(getDate() + n)` lands on the date n days away |
| DateUtil.GetMonthsRange | apps/web-app/src/shared/utils/date.ts:1-7 | `count` first-of-month dates. Entry i is i months after the start's month, with `new Date`'s treatment of years 0-99. No entries for a negative count |
| DateUtil.GetDaysRange | apps/web-app/src/shared/utils/date.ts:9-19 | `count` dates. Entry i is i days after the start, entry 0 is the start, and no two entries are the same day |
| DateUtil.IsSameDayByNumber | apps/web-app/src/shared/utils/date.ts:21-24 | Same year, month and day holds exactly when the day numbers are equal |
| DateUtil.FormatTime | apps/web-app/src/shared/utils/date.ts:30-37 | A string whose length is not 4 comes back unchanged. A 4-character one becomes 5 characters with ':' in the middle, and dropping the ':' gives the input |
| DateUtil.FormatTimeRemoveColons | apps/web-app/src/shared/utils/date.ts:30-37 | Removing every ':' from the output gives the input with its own colons removed |
| DateUtil.FormatTimeUndo | apps/web-app/src/shared/utils/date.ts:30-37 | For a colon-free input, removing the first ':' of the output gives the input back |
| DateUtil.FormatYmdShape | apps/web-app/src/shared/utils/date.ts:44-49 | For years 1000-9999 the text is 8 digits: the year, then the month and the day, each zero-padded to two digits |
| DateUtil.DateStringToDate | apps/web-app/src/shared/utils/date.ts:51-58 | A date that parses is a valid calendar date, fields out of range having been rolled over |
| DateUtil.DateStringIgnoresSeparators | apps/web-app/src/shared/utils/date.ts:52 | '-' and '.' anywhere in the input make no difference |
| DateUtil.DateStringFormatsAgree | apps/web-app/src/shared/utils/date.ts:51-58 | `YYYYMMDD`, `YYYY-MM-DD` and `YYYY.MM.DD` give the same date |
| DateUtil.DateStringOfFormatYmd | apps/web-app/src/shared/utils/date.ts:44-58 | `dateStringToDate(formatYmd(d))` is `d` for years 1000-9999 |
| DateUtil.GetDayOfWeekOfNextDay | apps/web-app/src/shared/utils/date.ts:39-42 | The weekday name is one letter. The names advance 일, 월, …, 토 and back to 일 from one day to the next |
| DateUtil.GetDayOfWeekExample | apps/web-app/src/shared/utils/date.ts:39-42 | 2025-07-07 is named 월 (Monday) |
| DateUtil.FormatFullDateTimeWithDay | apps/web-app/src/shared/utils/date.ts:67-94 | An empty argument gives ''. An unparsable date, or a colon-stripped time not 4 long, gives `dateStr + " " + timeStr`. Otherwise the result is `YYYY.MM.DD (요일) HH:mm` |
| DateUtil.FormatFullOfValid | apps/web-app/src/shared/utils/date.ts:83-93 | A parsing date and a 4-character colon-stripped time give the long format of that date, hour and minute |
| DateUtil.FormatFullTimeFormatsAgree | apps/web-app/src/shared/utils/date.ts:78 | `HHmm` and `HH:mm` give the same text |
| DateUtil.DateStringOfDottedYmd | apps/web-app/src/shared/utils/date.ts:51-93 | For years 1000-9999, the `YYYY.MM.DD` part of the long format reads back as the same date |
| DateUtil.FormatFullOfYmd | apps/web-app/src/shared/utils/date.ts:44-94 | For years 1000-9999, a date written by `formatYmd` and a padded `HHmm` give the long format of that date and time |
| DateUtil.SetDate | apps/web-app/src/shared/utils/date.ts:130 | `setDate` keeps the time of day. The result is NaN exactly when the date or the argument is NaN |
| DateUtil.SetHours | apps/web-app/src/shared/utils/date.ts:131 | `setHours(h, m, 0, 0)` gives a valid moment within its day. The result is NaN exactly when something is NaN |
| DateUtil.DeadlineIsDaysBefore | apps/web-app/src/shared/utils/date.ts:129-131 | With hour < 24 and minute < 60, the deadline is exactly `days` days before the base, at hour:minute |
| DateUtil.SetDateSetHoursIsDeadline | apps/web-app/src/shared/utils/date.ts:129-131 | The source's `setDate`/`setHours` sequence lands on that deadline |
| DateUtil.DeadlineFieldTexts | apps/web-app/src/shared/utils/date.ts:135-136 | The texts handed to the formatter are the padded date and time of the deadline, or "NaNNaNNaN" and "NaNNaN" for an invalid one |
| DateUtil.DeadlineOfFields | apps/web-app/src/shared/utils/date.ts:119-137 | A NaN field gives "NaNNaNNaN NaNNaN". Valid fields of a deadline in years 1000-9999 give the long format of the deadline |
| DateUtil.FormatDeadlineFields | apps/web-app/src/shared/utils/date.ts:134-137 | The formatter turns the field texts of a valid deadline in years 1000-9999 into its long format |
| DateUtil.CalculateCancellationDeadline | apps/web-app/src/shared/utils/date.ts:102-142 | After trimming: wrong lengths give ''. Right lengths give a non-empty result, the deadline text when everything parses and the deadline year is 1000-9999, else "NaNNaNNaN NaNNaN" when something does not parse |
| DateUtil.UnparsableBaseExample | apps/web-app/src/shared/utils/date.ts:100-126 | ("2025AB07", "031700") passes the length guard but does not parse |
| DateUtil.CancellationDeadlineOrEmpty | apps/web-app/src/shared/utils/date.ts:96-142 | The result is '' exactly when the lengths are wrong or something does not parse. Otherwise, for a deadline year of 1000-9999, it is the deadline text |
| CourseDomain.PlcNoField | apps/web-app/src/features/golfCourses/domain/mappers.ts:10 | A record has a `GOLF_PLC_NO` property exactly when it is a listing slot |
| CourseDomain.MapTeeTime | apps/web-app/src/features/golfCourses/domain/mappers.ts:19-42 | The record is kept. `BOOK_TM`, `BOOK_COURS_NM` and `TIME_SEQ` are copied. A course number is present exactly for a listing slot. A listing slot's two fees and course number are `toNumber` of its texts. A detail slot keeps its sale fee and reads its normal fee with `toNumber` |
| CourseDomain.MapTeeTimeOfListing | apps/web-app/src/features/golfCourses/domain/mappers.ts:22-30 | A listing slot's grouped-digit fees and decimal course number come out as the numbers they spell |
| CourseDomain.MapTeeTimeOfDetail | apps/web-app/src/features/golfCourses/domain/mappers.ts:32-40 | A detail slot keeps its sale fee and has no course number. A normal fee that is not a number becomes 0 |
| CourseDomain.MapTeeTimes | apps/web-app/src/features/golfCourses/domain/mappers.ts:16 | The slot list is mapped element by element, keeping length and order |
| CourseDomain.SourceDtosOfMapTeeTimes | apps/web-app/src/features/golfCourses/domain/mappers.ts:16-39 | The source records can be read back from the mapped slots, in order |
| CourseDomain.MapCourse | apps/web-app/src/features/golfCourses/domain/mappers.ts:13-17 | The course number is `toNumber` of the text. The slots are mapped one by one, and every other field is copied |
| CourseDomain.MapCourseReadsBack | apps/web-app/src/features/golfCourses/domain/mappers.ts:13-17 | A course numbered with the decimal text of n gets n, and its slot records can be read back |
| BookingDomain.MapBooking | apps/web-app/src/features/golfCourseBookings/domain/mappers.ts:5-18 | The record is kept. `status` and `conditions` come from `book_stat_cd` and `rsrv_psnn`. The texts are copied, the id is the decimal text of `book_no`, and the green fee is `toNumber(sale_fee)` |
| BookingDomain.BookingIdReadsBack | apps/web-app/src/features/golfCourseBookings/domain/mappers.ts:7 | Reading the id, the decimal text of the booking number, as a number gives the booking number back |
| BookingDomain.BookingIdsDistinct | apps/web-app/src/features/golfCourseBookings/domain/mappers.ts:7 | Different booking numbers give different ids |
| BookingDomain.GreenFeeOfGroupedDigits | apps/web-app/src/features/golfCourseBookings/domain/mappers.ts:14 | A sale fee such as "120,000" gives the green fee it spells |
| Catalog.ExpandRegions | apps/web-app/src/shared/store/createStore.ts:43 | The tokens are exactly the pieces of the labels split at " / " |
| Catalog.RegionMatchesIff | apps/web-app/src/shared/store/createStore.ts:42-47 | A course passes exactly when some label has a " / "-piece contained in its address |
| Catalog.SplitWithoutSeparator | apps/web-app/src/shared/store/createStore.ts:43 | A label without " / " is searched for as it stands |
| Catalog.TeeTimeBandsPartition | apps/web-app/src/shared/store/createStore.ts:53-57 | Only the four labels name bands. Each hour lies in exactly one band, and a NaN hour in none |
| Catalog.SlotHourOfColonTime | apps/web-app/src/shared/store/createStore.ts:52 | The hour of an `HH:mm` slot is `HH` |
| Catalog.SlotHourOfColonlessTime | apps/web-app/src/shared/store/createStore.ts:52-56 | A colon-less `HHmm` slot from "0016" on, such as "0730", reads as the whole number. It then falls in the night band only |
| Catalog.FeeBandsPartition | apps/web-app/src/shared/store/createStore.ts:64-71 | The fee bands are half-open at 50,000, 100,000 and 150,000. Each price lies in exactly one, so 50,000 lies in "5~10만원" |
| Catalog.ThreeStages | apps/web-app/src/shared/store/createStore.ts:42-73 | Three guarded filter stages keep, in order, exactly what passes every active stage |
| Catalog.FilterCoursesIsOneFilter | apps/web-app/src/shared/store/createStore.ts:39-73 | Filtering by the three categories in turn is one filter by "meets every non-empty category" |
| Catalog.CharOrderLeTotal | apps/web-app/src/shared/store/createStore.ts:88-90 | The tee-time comparison is total |
| Catalog.CharOrderLeTrans | apps/web-app/src/shared/store/createStore.ts:88-90 | The tee-time comparison is transitive |
| Catalog.SortRelationIsPreorder | apps/web-app/src/shared/store/createStore.ts:86-99 | Each of the three orders is a total preorder, the name order as far as its collation is one |
| Catalog.ApplyAllFiltersAndSorts | apps/web-app/src/shared/store/createStore.ts:34-102 | The output holds each course exactly as often as the filtered input does |
| Catalog.ApplyAllMembers | apps/web-app/src/shared/store/createStore.ts:34-102 | The output is a permutation of the courses meeting the filters. It is a sub-multiset of the input, and a course is in it exactly when it is in the input and meets them |
| Catalog.ApplyAllSorted | apps/web-app/src/shared/store/createStore.ts:86-99 | The output is sorted by lowest fee, by first tee time ("23:59" for none) or by name, as chosen |
| Catalog.UnusedFiltersIgnored | apps/web-app/src/shared/store/createStore.ts:74-83 | `players` and `paymentMethods` never change the output |
| Catalog.NoFiltersKeepsAll | apps/web-app/src/shared/store/createStore.ts:42-73 | With the three categories empty, the output is a permutation of the input |
| Catalog.FirstPage | apps/web-app/src/shared/store/createStore.ts:198 | The first min(20, n) courses of the processed list |
| Catalog.AppendNextPage | apps/web-app/src/shared/store/createStore.ts:260-263 | The visible list is kept as a prefix, followed by the snapshot's slice of up to 20 courses from the captured length |
| Catalog.AppendNextPageKeepsPrefix | apps/web-app/src/shared/store/createStore.ts:253-268 | When nothing changed during the load, the list grows to the next prefix of the processed list |
| Catalog.AppendNextPageAfterReset | apps/web-app/src/shared/store/createStore.ts:254-263 | When the list was reset to page one during the load, it becomes courses 0-19 then 40-59, no longer a prefix |
| Catalog.SearchResults | apps/web-app/src/shared/store/createStore.ts:370-378 | A blank query gives nothing. Otherwise the results are exactly the courses whose lower-cased name or address contains the lower-cased query, each as often as in the catalog |
| Catalog.SearchResultsInOrder | apps/web-app/src/shared/store/createStore.ts:373 | The results keep the catalog's order |
| Catalog.PushRecentSearch | apps/web-app/src/shared/store/createStore.ts:386-390 | The query comes first and is not repeated. Every entry is the query or an old entry. The rest are the first old entries other than the query, in their old order. The length is that of the de-duplicated list, capped at 10 |
| Catalog.PushRecentSearchIdempotent | apps/web-app/src/shared/store/createStore.ts:386-390 | Searching again for the latest term changes nothing |
| Catalog.PushRecentSearchNoDuplicates | apps/web-app/src/shared/store/createStore.ts:386-390 | A duplicate-free list stays duplicate-free |
| Catalog.DropIndexRemoves | apps/web-app/src/shared/store/createStore.ts:407-409 | Filtering out index k removes exactly that entry, or nothing when k is not an index |
| Catalog.ToggleExpanded | apps/web-app/src/shared/store/createStore.ts:289 | The row is expanded afterwards exactly when it was not before. At most that row is expanded |
| Catalog.ToggleExpandedTwice | apps/web-app/src/shared/store/createStore.ts:289 | Toggling the same row twice restores the state, when that row or no row was expanded |
| Catalog.MergePersisted | apps/web-app/src/shared/store/createStore.ts:427-440 | Stored regions replace the current ones and the other categories stay. With nothing stored, nothing changes |
| Catalog.MergeOfPartialize | apps/web-app/src/shared/store/createStore.ts:422-440 | Storing and restoring gives back exactly the regions. Restoring a state's own stored part changes nothing |
| Catalog.InactiveFiltersKeepAll | apps/web-app/src/shared/store/createStore.ts:446-447 | No active filter means the initial filters, and every course shown, only reordered |
| GolfStoreState.FirstWithId | apps/web-app/src/shared/store/createStore.ts:341 | The index of the first booking with the id, or none when no booking has it |
| GolfStoreState.CancelFirstWithId | apps/web-app/src/shared/store/createStore.ts:341-344 | Only the first booking with the id gets status 2. Every other booking, and the length, stay |
| GolfStoreState.GolfStore.constructor | apps/web-app/src/shared/store/createStore.ts:207-232 | The initial state: three months from today, empty lists, the list view, default sort, five recent searches, persisted regions merged in. The catalog invariants hold |
| GolfStoreState.GolfStore.UpdateProcessedCourses | apps/web-app/src/shared/store/createStore.ts:195-204 | The processed list is the filtered, sorted raw list. The first page is shown, and `hasMore` is set exactly when more than 20 courses remain |
| GolfStoreState.GolfStore.SetAllGolfCourses | apps/web-app/src/shared/store/createStore.ts:235-245 | New raw list, recomputed and shown from the first page |
| GolfStoreState.GolfStore.SetSelectedDate | apps/web-app/src/shared/store/createStore.ts:247-251 | The date is replaced |
| GolfStoreState.GolfStore.BeginLoadMore | apps/web-app/src/shared/store/createStore.ts:253-259 | Nothing happens while loading or without more. Otherwise `loadingMore` is set and the visible length and processed list are captured |
| GolfStoreState.GolfStore.CompleteLoadMore | apps/web-app/src/shared/store/createStore.ts:259-267 | Appends the captured list's next slice. `hasMore` is checked against the current processed list, and the load is cleared |
| GolfStoreState.GolfStore.ApplyFilters | apps/web-app/src/shared/store/createStore.ts:270-273 | New filters, filter sheet closed, recomputed, first page shown |
| GolfStoreState.GolfStore.ResetFilters | apps/web-app/src/shared/store/createStore.ts:274-277 | Empty filters, no filter active, every course processed, first page shown |
| GolfStoreState.GolfStore.ApplySort | apps/web-app/src/shared/store/createStore.ts:278-281 | New order, sort sheet closed, recomputed, first page shown |
| GolfStoreState.GolfStore.ResetSort | apps/web-app/src/shared/store/createStore.ts:282-285 | Default order, no sort active, recomputed, first page shown |
| GolfStoreState.GolfStore.ToggleCourse | apps/web-app/src/shared/store/createStore.ts:287-290 | The expanded row follows `ToggleExpanded` |
| GolfStoreState.GolfStore.SetView | apps/web-app/src/shared/store/createStore.ts:292 | The view is replaced |
| GolfStoreState.GolfStore.SelectCourse | apps/web-app/src/shared/store/createStore.ts:294 | The course becomes the selected one |
| GolfStoreState.GolfStore.BackToList | apps/web-app/src/shared/store/createStore.ts:295 | No selected course, list view |
| GolfStoreState.GolfStore.StartReservation | apps/web-app/src/shared/store/createStore.ts:297-305 | With a selected course, the draft is that course dated `formatYmd(selectedDate)`, with the slot. Without one, the draft is unchanged |
| GolfStoreState.GolfStore.ViewTerms | apps/web-app/src/shared/store/createStore.ts:307 | The terms shown, terms view |
| GolfStoreState.GolfStore.BackToReservation | apps/web-app/src/shared/store/createStore.ts:308 | No terms, reservation view |
| GolfStoreState.GolfStore.ConfirmBooking | apps/web-app/src/shared/store/createStore.ts:309-321 | A draft becomes the receipt with the booking id, and the draft is cleared. Without a draft, nothing changes |
| GolfStoreState.GolfStore.SetBookings | apps/web-app/src/shared/store/createStore.ts:322 | The bookings are replaced, history view |
| GolfStoreState.GolfStore.ViewHistory | apps/web-app/src/shared/store/createStore.ts:323-328 | No receipt, rounds tab, history view |
| GolfStoreState.GolfStore.CloseBookingConfirmation | apps/web-app/src/shared/store/createStore.ts:329-330 | No receipt, rounds tab |
| GolfStoreState.GolfStore.ViewBookingDetail | apps/web-app/src/shared/store/createStore.ts:332-333 | The booking becomes the selected one, booking-detail view |
| GolfStoreState.GolfStore.BackToHistory | apps/web-app/src/shared/store/createStore.ts:334 | No selected booking, history view |
| GolfStoreState.GolfStore.CloseCancelReasonModal | apps/web-app/src/shared/store/createStore.ts:336 | The reason sheet closes |
| GolfStoreState.GolfStore.SelectCancellationReason | apps/web-app/src/shared/store/createStore.ts:337-349 | With a selected booking, only the first booking with its id is cancelled, the sheet closes and the completion view shows. Without one, nothing changes |
| GolfStoreState.GolfStore.ViewCancellationHistory | apps/web-app/src/shared/store/createStore.ts:350-351 | No selected booking, cancelled tab, history view |
| GolfStoreState.GolfStore.GoToSearch | apps/web-app/src/shared/store/createStore.ts:365 | Search view |
| GolfStoreState.GolfStore.BackFromSearch | apps/web-app/src/shared/store/createStore.ts:366 | Empty query and results, list view |
| GolfStoreState.GolfStore.SetSearchQuery | apps/web-app/src/shared/store/createStore.ts:368-380 | The query is kept, and the results are `SearchResults` of the raw list |
| GolfStoreState.GolfStore.SelectSearchResult | apps/web-app/src/shared/store/createStore.ts:382-399 | A non-blank query is pushed onto the recent searches; a blank one leaves them. The course is selected, the detail view shows, and the search is cleared |
| GolfStoreState.GolfStore.SelectRecentSearch | apps/web-app/src/shared/store/createStore.ts:401-403 | The same as searching for the term |
| GolfStoreState.GolfStore.RemoveRecentSearch | apps/web-app/src/shared/store/createStore.ts:405-410 | The entry at the index is dropped, if there is one |
| GolfStoreState.GolfStore.ClearRecentSearches | apps/web-app/src/shared/store/createStore.ts:412 | No recent searches |
| GolfStoreState.GolfStore.ToggleFilterModal | apps/web-app/src/shared/store/createStore.ts:415 | The filter sheet's flag is set |
| GolfStoreState.GolfStore.ToggleSortModal | apps/web-app/src/shared/store/createStore.ts:416 | The sort sheet's flag is set |
| AlertStoreState.Show | apps/web-app/src/shared/store/alertStore.ts:27 | The dialog is open with exactly the given options |
| AlertStoreState.Hide | apps/web-app/src/shared/store/alertStore.ts:28 | The dialog is closed and its options are kept |
| AlertStoreState.ShowThenHide | apps/web-app/src/shared/store/alertStore.ts:27-28 | Show then hide leaves a closed dialog with exactly the shown options, whatever came before |
| AlertStoreState.HideIdempotent | apps/web-app/src/shared/store/alertStore.ts:28 | Hiding twice is hiding once |
| AlertStoreState.ShowDropsDefaults | apps/web-app/src/shared/store/alertStore.ts:24-27 | Options without button labels replace the default labels, which are gone |
| AlertStoreState.AlertStore.constructor | apps/web-app/src/shared/store/alertStore.ts:19-26 | Closed, empty title and message, labels 취소 and 확인 |
| AlertStoreState.AlertStore.ShowAlert | apps/web-app/src/shared/store/alertStore.ts:27 | The new state is `Show` of the old |
| AlertStoreState.AlertStore.HideAlert | apps/web-app/src/shared/store/alertStore.ts:28 | The new state is `Hide` of the old |
| AlertStoreState.ShowAlertOn | apps/web-app/src/shared/store/alertStore.ts:31-33 | The exported helper has the store action's effect |
| UserStoreState.SetUser | apps/web-app/src/shared/store/userStore.ts:16 | The user is set and signed in |
| UserStoreState.ClearUser | apps/web-app/src/shared/store/userStore.ts:17 | No user, signed out |
| UserStoreState.ActionsKeepConsistent | apps/web-app/src/shared/store/userStore.ts:14-17 | Signed in exactly when a user is present, initially and after either action |
| UserStoreState.ClearUserIsInitial | apps/web-app/src/shared/store/userStore.ts:14-17 | Signing out returns to the initial state |
| UserStoreState.UserStore.constructor | apps/web-app/src/shared/store/userStore.ts:14-15 | No user, signed out |
| UserStoreState.UserStore.SetUserAction | apps/web-app/src/shared/store/userStore.ts:16 | The new state is `SetUser` of the old, and consistent |
| UserStoreState.UserStore.ClearUserAction | apps/web-app/src/shared/store/userStore.ts:17 | The new state is `ClearUser` of the old, and consistent |
| FilterModalLogic.ToggleValue | apps/web-app/src/features/golfCourses/components/FilterModal.tsx:55-57 | An absent value is appended. A present value is removed everywhere, and every other value keeps its number of copies |
| FilterModalLogic.ToggleValueTwice | apps/web-app/src/features/golfCourses/components/FilterModal.tsx:52-60 | Toggling an absent value twice restores the list exactly |
| FilterModalLogic.ToggleValueRemovesAll | apps/web-app/src/features/golfCourses/components/FilterModal.tsx:55-56 | Removing keeps the order and leaves no copy of the value |
| FilterModalLogic.HandleToggle | apps/web-app/src/features/golfCourses/components/FilterModal.tsx:52-60 | The named list becomes its toggled copy, the other four are kept, and the value's selection flips |
| FilterModalLogic.HandleToggleTwice | apps/web-app/src/features/golfCourses/components/FilterModal.tsx:52-60 | Selecting and then deselecting a chip restores the draft |
| FilterModalLogic.HandleReset | apps/web-app/src/features/golfCourses/components/FilterModal.tsx:66-80 | All five lists are empty and no chip is selected |
| TimeDetailPage.FilteredTeeTimes | apps/web-app/src/features/golfCourses/pages/GolfCourseTimeDetailPage.tsx:200-210 | An order-preserving subsequence holding exactly the slots the tab shows, each as often as in the course's list |
| TimeDetailPage.AllTimesTabShowsAll | apps/web-app/src/features/golfCourses/pages/GolfCourseTimeDetailPage.tsx:207 | The 전체 tab shows every slot, in order |
| TimeDetailPage.UnknownTabShowsNothing | apps/web-app/src/features/golfCourses/pages/GolfCourseTimeDetailPage.tsx:208 | Any other tab shows nothing |
| TimeDetailPage.TabsAgreeWithBands | apps/web-app/src/features/golfCourses/pages/GolfCourseTimeDetailPage.tsx:202-206 | Each time tab keeps a slot exactly when the list filter's band of the same time of day does |
| TimeDetailPage.Recommendations | apps/web-app/src/features/golfCourses/pages/GolfCourseTimeDetailPage.tsx:288-294 | At most 5 courses of the same region with another number, the first of all such courses. All of them when there are fewer than 5 |
| TimeDetailPage.RecommendationsInOrder | apps/web-app/src/features/golfCourses/pages/GolfCourseTimeDetailPage.tsx:290-292 | The recommendations keep the loaded list's order |
| TimeDetailPage.NoCourseNoRecommendations | apps/web-app/src/features/golfCourses/pages/GolfCourseTimeDetailPage.tsx:291 | Without a course on the page there are none |
| TimeDetailPage.DetailPage.constructor | apps/web-app/src/features/golfCourses/pages/GolfCourseTimeDetailPage.tsx:270 | No booking sheet is open |
| TimeDetailPage.DetailPage.HandleBookClick | apps/web-app/src/features/golfCourses/pages/GolfCourseTimeDetailPage.tsx:302-306 | A signed-in user opens the sheet for the slot dated `formatYmd(selectedDate)`. Anyone else changes nothing |
| TimeDetailPage.DetailPage.HandleConfirmBooking | apps/web-app/src/features/golfCourses/pages/GolfCourseTimeDetailPage.tsx:308-318 | With an open sheet and a course, the reservation starts. An open sheet is closed either way, and nothing else changes |
| ReservationLogic.HandleAgreementChange | apps/web-app/src/features/golfCourseBookings/pages/ReservationPage.tsx:141-152 | "All" sets all three to the negation of the old "all". A single box flips alone and "all" follows the pair. The result is consistent |
| ReservationLogic.ClicksKeepConsistent | apps/web-app/src/features/golfCourseBookings/pages/ReservationPage.tsx:70-152 | "All" is ticked exactly when both boxes are, initially and after any clicks |
| ReservationLogic.ClickTwice | apps/web-app/src/features/golfCourseBookings/pages/ReservationPage.tsx:141-152 | A double click restores the boxes, except "all" with one box ticked, which clears every box |
| ReservationLogic.ConfirmAlert | apps/web-app/src/features/golfCourseBookings/pages/ReservationPage.tsx:172-189 | The dialog submits the booking exactly when both required boxes are ticked. Otherwise it is a notice with no callbacks |
| ReservationLogic.HandleConfirm | apps/web-app/src/features/golfCourseBookings/pages/ReservationPage.tsx:172-189 | The alert store shows `ConfirmAlert`, and a submitting dialog implies both boxes are ticked |
| ReservationLogic.Fees | apps/web-app/src/features/golfCourseBookings/pages/ReservationPage.tsx:134-137 | The green-fee total is 4 times the sale fee, and the amount adds the zero caddy fee, so the amount is 4 times the sale fee |
| ReservationLogic.BookingRequest | apps/web-app/src/features/golfCourseBookings/pages/ReservationPage.tsx:154-170 | A request exists exactly when user, course and slot do. Its fields come from them with 4 players, and `book_tm` is the slot time with its first colon removed, unchanged when it has none |
| ReservationLogic.RequestTimeUndoesFormat | apps/web-app/src/features/golfCourseBookings/pages/ReservationPage.tsx:162 | A slot time shown by `formatTime` goes back to the server as the server's own `HHmm` |
| ReservationLogic.RequestTimeDropsFirstColon | apps/web-app/src/features/golfCourseBookings/pages/ReservationPage.tsx:162 | Only the first ':' is removed |
| BookingHistory.Select | apps/web-app/src/features/golfCourseBookings/pages/BookingHistoryPage.tsx:26-31 | Scheduled holds exactly the status-1 bookings and cancelled exactly the status-2 ones, each as often as in the data, both in order |
| BookingHistory.Shown | apps/web-app/src/features/golfCourseBookings/pages/BookingHistoryPage.tsx:34 | Before the data arrives both groups are empty |
| BookingHistory.GroupsDisjoint | apps/web-app/src/features/golfCourseBookings/pages/BookingHistoryPage.tsx:26-31 | No booking is in both groups, and any other status is in neither |
| BookingHistory.GroupsCount | apps/web-app/src/features/golfCourseBookings/pages/BookingHistoryPage.tsx:26-31 | Together the groups hold each booking at most as often as the data does, and exactly as often when every status is 1 or 2 |

## Left out

- Network and I/O. The server queries, the booking mutation (`bookTeeTimeAsync`) and its callbacks, `copyToClipboard` (`navigator.clipboard`) and toasts are not part of this model. So are navigation and routing, React rendering and the `GlobalAlertModal` confirmation.
- `persist` and `immer` mechanics. Storage and drafts are library code. Only the `partialize` and `merge` rules are modelled (`Catalog.Partialize`, `Catalog.MergePersisted`).
- Time. `new Date()` is the constructor's `today` parameter, and the 500 ms timer of `loadMoreCourses` is the separate `CompleteLoadMore` step. The timer may fire at any later point, and a pending load's captured list is the field `scheduledLoad`.
- JavaScript `Date` below the day. Time zones, `toISOString`, milliseconds and the clock time of `new Date()` are not modelled. A moment is a valid civil date plus a minute of the day.
- Korean collation and `toLowerCase` are abstract: the golf store's constants `collate` and `lowerCase`.
- `Catalog.ApplyAllSorted`: the name order holds only as far as `collate` is a total preorder, which `localeCompare(_, 'ko')` is assumed to be.
- `Catalog.CharOrderLeTotal`: the tee-time order compares characters, which are Unicode scalar values. On text of the Basic Multilingual Plane that is UTF-16 code-unit order; a supplementary character against U+E000-U+FFFF is ordered differently. For slot times of one shape (all `HH:mm`, or all `HHmm`) `localeCompare` orders them the same way. Mixed shapes and other strings may be ordered differently.
- `Array.prototype.sort` is modelled as a stable insertion sort (`Seqs.InsertionSort`). Engines are required to sort stably, but their algorithm is not modelled.
- `Common.ToNumber`: the argument and the result are integers. Decimal fractions, exponents, hexadecimal and `Infinity` texts that `Number` accepts are read as 0. `Common.ToNumberRejects` covers only characters outside `Number`'s syntax.
- `DateUtil.GetDaysRange`: requires a valid start date. An `Invalid Date` start, which the source would turn into NaN entries, is not modelled.
- `DateUtil.FormatYmdShape`, `DateUtil.DateStringOfFormatYmd`: stated for years 1000-9999 only. `formatYmd` of other years is not 8 characters.
- `DateUtil.CalculateCancellationDeadline`, `DateUtil.DeadlineOfFields`, `DateUtil.CancellationDeadlineOrEmpty`, `DateUtil.FormatDeadlineFields`, `DateUtil.FormatFullOfYmd`, `DateUtil.DateStringOfDottedYmd`: the deadline or date text is stated only for years 1000-9999. For other years the source's field texts are not 8 characters and are re-read as a different date. For example, base "10000105" with rule "100000" gives a deadline in year 999, which is printed as "9991226". The result for such years is not stated.
- Strings are sequences of Unicode scalar values, not UTF-16 code units. Lengths, substrings and character order match JavaScript only on text of the Basic Multilingual Plane. The app's dates and times are ASCII.
- `DateUtil.SetHours`: hours and minutes beyond their ranges carry into neighbouring days as in JavaScript. `DateUtil.DeadlineIsDaysBefore` states the deadline's date only for hours below 24 and minutes below 60.
- `UserStoreState.User`: only the fields the booking pages read (`id`, `realname`, `phone`). The users API's full record type is not part of this model.
- `FilterModalLogic.HandleToggle`: requires the value's kind to match the category (a number for `players`, text otherwise). The typed model cannot put a number into a text list; a chip of the wrong kind never exists on the sheet.
- `FilterModalLogic.HandleReset`: models the draft only. Its call to the store's `resetFilters` is `GolfStoreState.GolfStore.ResetFilters`.
- `GolfStoreState.GolfStore.SetAllGolfCourses`, `ApplyFilters`, `ResetFilters`, `ApplySort`, `ResetSort`: require only that `loadingMore` and the pending load agree. They restore the processed-list invariant whatever it was before.
- `GolfStoreState.GolfStore.CompleteLoadMore`: requires a pending load. A timer never fires without one.
- `requireAuth` (apps/web-app/src/shared/hooks/useRequireAuth.ts:9-25) is inlined into `TimeDetailPage.DetailPage.HandleBookClick` as a test of the user store's `isAuthenticated`. Its sign-in toast is left out.
- Callbacks handed to the alert dialog are named values (`AlertStoreState.Callback`). Running them is the page's business and is not modelled.
- Money formatting (`toLocaleString`) and the other presentation code are not modelled.

## Findings

| source | as written | input that shows it | evidently intended | confidence | as-written member | corrected member |
|---|---|---|---|---|---|---|
| apps/web-app/src/shared/utils/date.ts:96-142 | `calculateCancellationDeadline` promises '' on failure. But a base date of the right length that does not parse makes an `Invalid Date`, which throws nothing. Its fields print as "NaN", and the formatter returns its inputs joined: "NaNNaNNaN NaNNaN" | base "2025AB07", rule "031700" | '' whenever the base date or a rule field does not parse | high (derived from the code; not executed) | DateUtil.CalculateCancellationDeadline, DateUtil.UnparsableBaseExample | DateUtil.CancellationDeadlineOrEmpty |
