/** The pure part of the golf store (apps/web-app/src/shared/store/createStore.ts):
    filtering and sorting of the course catalog, paging constants, the
    recent-search list, the expanded-row toggle, the persisted-filter merge and
    the two selectors. */
module Catalog {
  import opened JsText
  import opened Seqs
  import opened CourseDomain

  /** Courses shown per page. */
  const PageSize: nat := 20

  /** The five filter categories; `players` and `paymentMethods` are kept but
      never consulted. */
  datatype Filters = Filters(regions: seq<string>, teeTimes: seq<string>,
                             greenFees: seq<string>, players: seq<int>,
                             paymentMethods: seq<string>)

  const InitialFilters: Filters := Filters([], [], [], [], [])

  /** `'default' | 'teeTime' | 'name'`. */
  datatype SortOption = DefaultSort | TeeTimeSort | NameSort

  // ---------------------------------------------------------------------------
  // Region filter

  const RegionSeparator: string := " / "

  /** `regions.flatMap(f => f.split(' / '))`. */
  function ExpandRegions(regions: seq<string>): (r: seq<string>)
    ensures forall t :: t in r <==>
              exists i :: 0 <= i < |regions| && t in Split(regions[i], RegionSeparator)
    decreases |regions|
  {
    if regions == [] then []
    else
      var rest := ExpandRegions(regions[1..]);
      assert forall t :: t in rest <==>
               exists i :: 1 <= i < |regions| && t in Split(regions[i], RegionSeparator) by {
        forall t | t in rest
          ensures exists i :: 1 <= i < |regions| && t in Split(regions[i], RegionSeparator)
        {
          var i :| 0 <= i < |regions[1..]| && t in Split(regions[1..][i], RegionSeparator);
          assert regions[1..][i] == regions[i + 1];
        }
        forall t, i | 1 <= i < |regions| && t in Split(regions[i], RegionSeparator)
          ensures t in rest
        {
          assert regions[i] == regions[1..][i - 1];
        }
      }
      Split(regions[0], RegionSeparator) + rest
  }

  /** Some token of the expanded region labels occurs in the address. */
  predicate RegionMatches(regions: seq<string>, c: GolfCourse) {
    exists t :: t in ExpandRegions(regions) && Includes(c.ADDR_TRANS, t)
  }

  /** A course passes the region filter iff one of the labels, split at " / ",
      has a piece that occurs in the course's address. */
  lemma RegionMatchesIff(regions: seq<string>, c: GolfCourse)
    ensures RegionMatches(regions, c) <==>
              exists i, t :: 0 <= i < |regions| && t in Split(regions[i], RegionSeparator)
                             && Includes(c.ADDR_TRANS, t)
  {
    var tokens := ExpandRegions(regions);
    if RegionMatches(regions, c) {
      var t :| t in tokens && Includes(c.ADDR_TRANS, t);
      var i :| 0 <= i < |regions| && t in Split(regions[i], RegionSeparator);
      assert exists i', t' :: 0 <= i' < |regions| && t' in Split(regions[i'], RegionSeparator)
                              && Includes(c.ADDR_TRANS, t') by {
        assert 0 <= i < |regions| && t in Split(regions[i], RegionSeparator) && Includes(c.ADDR_TRANS, t);
      }
    } else {
      forall i, t | 0 <= i < |regions| && t in Split(regions[i], RegionSeparator)
        ensures !Includes(c.ADDR_TRANS, t)
      {
        assert t in tokens;
      }
    }
  }

  /** A region label without the separator is searched for as it stands. */
  lemma {:induction false} SplitWithoutSeparator(s: string, sep: string)
    requires |sep| > 0 && !Includes(s, sep)
    ensures Split(s, sep) == [s]
    decreases |s|
  {
    if |s| >= |sep| {
      assert !StartsWith(s, sep);
      SplitWithoutSeparator(s[1..], sep);
      assert [s[0]] + s[1..] == s;
    }
  }

  // ---------------------------------------------------------------------------
  // Tee-time filter

  const DawnBand: string := "새벽 ~7시"
  const MorningBand: string := "오전 7-12시"
  const AfternoonBand: string := "오후 12-16시"
  const NightBand: string := "야간 16~"

  /** `parseInt(BOOK_TM.split(':')[0], 10)`; `None` is NaN. */
  function SlotHour(bookTm: string): Option<int> {
    ParseInt(BeforeFirst(bookTm, ':'))
  }

  /** The hour lies in the band the label names. NaN compares false with
      everything, so it lies in no band, and an unknown label names no band. */
  predicate InTeeTimeBand(band: string, hour: Option<int>) {
    match hour
    case None => false
    case Some(h) =>
      (band == DawnBand && h < 7)
      || (band == MorningBand && h >= 7 && h < 12)
      || (band == AfternoonBand && h >= 12 && h < 16)
      || (band == NightBand && h >= 16)
  }

  predicate TeeTimeMatches(bands: seq<string>, c: GolfCourse) {
    exists b, t :: b in bands && t in c.TIME_LIST && InTeeTimeBand(b, SlotHour(t.BOOK_TM))
  }

  /** The bands are `< 7`, `[7, 12)`, `[12, 16)` and `>= 16`: every number lies in
      exactly one, and unknown labels and NaN hours match nothing. */
  lemma TeeTimeBandsPartition(band: string, hour: Option<int>)
    ensures InTeeTimeBand(band, hour) ==>
              hour.Some? && band in {DawnBand, MorningBand, AfternoonBand, NightBand}
    ensures hour.Some? ==>
              |set b | b in {DawnBand, MorningBand, AfternoonBand, NightBand}
                         && InTeeTimeBand(b, hour)| == 1
  {
    if hour.Some? {
      var h := hour.value;
      var s := set b | b in {DawnBand, MorningBand, AfternoonBand, NightBand} && InTeeTimeBand(b, hour);
      var only := if h < 7 then DawnBand else if h < 12 then MorningBand
                  else if h < 16 then AfternoonBand else NightBand;
      assert s == {only};
    }
  }

  /** A slot time written `HH:mm` is read as its hour `HH`. */
  lemma SlotHourOfColonTime(h: nat, m: nat)
    requires h < 100 && m < 100
    ensures SlotHour(Pad2(h) + ":" + Pad2(m)) == Some(h)
  {
    ParseIntOfPad2(h);
    var hh := Pad2(h);
    assert ':' !in hh by {
      assert forall i :: 0 <= i < |hh| ==> IsDigit(hh[i]);
    }
    BeforeFirstAfter(hh, ':', Pad2(m));
  }

  /** A colon-less `HHmm` slot time is read as the whole four-digit number, so any
      time from 00:16 on, such as "0730", falls in the night band and in no other. */
  lemma SlotHourOfColonlessTime(tm: string)
    requires |tm| == 4 && AllDigits(tm) && DigitsValue(tm) >= 16
    ensures SlotHour(tm) == Some(DigitsValue(tm))
    ensures InTeeTimeBand(NightBand, SlotHour(tm))
    ensures !InTeeTimeBand(DawnBand, SlotHour(tm)) && !InTeeTimeBand(MorningBand, SlotHour(tm))
            && !InTeeTimeBand(AfternoonBand, SlotHour(tm))
  {
    assert forall i :: 0 <= i < |tm| ==> IsDigit(tm[i]);
    BeforeFirstAbsent(tm, ':');
    ParseIntOfDigits(tm);
  }

  lemma BeforeFirstAbsent(s: string, c: char)
    requires c !in s
    ensures BeforeFirst(s, c) == s
  {
  }

  lemma {:induction false} BeforeFirstAfter(a: string, c: char, b: string)
    requires c !in a
    ensures BeforeFirst(a + [c] + b, c) == a
    decreases |a|
  {
    if a != [] {
      assert (a + [c] + b)[1..] == a[1..] + [c] + b;
      BeforeFirstAfter(a[1..], c, b);
      assert [a[0]] + a[1..] == a;
    }
  }

  // ---------------------------------------------------------------------------
  // Green-fee filter

  const UpTo5Band: string := "~5만원"
  const From5To10Band: string := "5~10만원"
  const From10To15Band: string := "10~15만원"
  const From15Band: string := "15만원~"

  predicate InFeeBand(band: string, price: int) {
    (band == UpTo5Band && price < 50000)
    || (band == From5To10Band && price >= 50000 && price < 100000)
    || (band == From10To15Band && price >= 100000 && price < 150000)
    || (band == From15Band && price >= 150000)
  }

  predicate FeeMatches(bands: seq<string>, c: GolfCourse) {
    exists b :: b in bands && InFeeBand(b, c.MIN_SALE_FEE)
  }

  /** The fee bands are half-open at 50,000, 100,000 and 150,000: each price lies in
      exactly one, so 50,000 is in "5~10만원" and not in "~5만원". */
  lemma FeeBandsPartition(band: string, price: int)
    ensures InFeeBand(band, price) ==> band in {UpTo5Band, From5To10Band, From10To15Band, From15Band}
    ensures |set b | b in {UpTo5Band, From5To10Band, From10To15Band, From15Band}
                      && InFeeBand(b, price)| == 1
    ensures price == 50000 ==> InFeeBand(From5To10Band, price) && !InFeeBand(UpTo5Band, price)
  {
    var s := set b | b in {UpTo5Band, From5To10Band, From10To15Band, From15Band} && InFeeBand(b, price);
    var only := if price < 50000 then UpTo5Band else if price < 100000 then From5To10Band
                else if price < 150000 then From10To15Band else From15Band;
    assert s == {only};
  }

  // ---------------------------------------------------------------------------
  // The whole filter

  function RegionTest(regions: seq<string>): GolfCourse -> bool {
    c => RegionMatches(regions, c)
  }

  function TeeTimeTest(bands: seq<string>): GolfCourse -> bool {
    c => TeeTimeMatches(bands, c)
  }

  function FeeTest(bands: seq<string>): GolfCourse -> bool {
    c => FeeMatches(bands, c)
  }

  /** A course survives the filters: each non-empty category must be met, an empty
      category keeps everything. */
  predicate MatchesFilters(f: Filters, c: GolfCourse) {
    && (|f.regions| == 0 || RegionMatches(f.regions, c))
    && (|f.teeTimes| == 0 || TeeTimeMatches(f.teeTimes, c))
    && (|f.greenFees| == 0 || FeeMatches(f.greenFees, c))
  }

  function MatchTest(f: Filters): GolfCourse -> bool {
    c => MatchesFilters(f, c)
  }

  /** One filtering step that only runs when its category is non-empty. */
  function Stage<T(!new)>(xs: seq<T>, active: bool, p: T -> bool): seq<T> {
    if active then Filter(xs, p) else xs
  }

  /** The three filters applied one after the other, as the store applies them. */
  function FilterCourses(courses: seq<GolfCourse>, f: Filters): seq<GolfCourse> {
    var byRegion := Stage(courses, |f.regions| > 0, RegionTest(f.regions));
    var byTime := Stage(byRegion, |f.teeTimes| > 0, TeeTimeTest(f.teeTimes));
    Stage(byTime, |f.greenFees| > 0, FeeTest(f.greenFees))
  }

  lemma StageCons<T(!new)>(xs: seq<T>, active: bool, p: T -> bool)
    requires xs != []
    ensures Stage(xs, active, p) ==
              (if !active || p(xs[0]) then [xs[0]] else []) + Stage(xs[1..], active, p)
  {
    if !active {
      assert xs == [xs[0]] + xs[1..];
    }
  }

  /** Three guarded stages keep exactly what passes every active stage, in order. */
  lemma {:induction false} ThreeStages<T(!new)>(xs: seq<T>, a1: bool, p1: T -> bool,
                                                a2: bool, p2: T -> bool, a3: bool, p3: T -> bool,
                                                all: T -> bool)
    requires forall x :: all(x) == ((!a1 || p1(x)) && (!a2 || p2(x)) && (!a3 || p3(x)))
    ensures Stage(Stage(Stage(xs, a1, p1), a2, p2), a3, p3) == Filter(xs, all)
    decreases |xs|
  {
    if xs != [] {
      var x := xs[0];
      ThreeStages(xs[1..], a1, p1, a2, p2, a3, p3, all);
      var s1 := Stage(xs[1..], a1, p1);
      var s2 := Stage(s1, a2, p2);
      StageCons(xs, a1, p1);
      if !a1 || p1(x) {
        assert ([x] + s1)[0] == x && ([x] + s1)[1..] == s1;
        StageCons([x] + s1, a2, p2);
        if !a2 || p2(x) {
          assert ([x] + s2)[0] == x && ([x] + s2)[1..] == s2;
          StageCons([x] + s2, a3, p3);
        }
      }
    }
  }

  /** Filtering stage by stage keeps, in their order, exactly the courses that meet
      every selected category. */
  lemma FilterCoursesIsOneFilter(courses: seq<GolfCourse>, f: Filters)
    ensures FilterCourses(courses, f) == Filter(courses, MatchTest(f))
  {
    ThreeStages(courses, |f.regions| > 0, RegionTest(f.regions), |f.teeTimes| > 0,
                TeeTimeTest(f.teeTimes), |f.greenFees| > 0, FeeTest(f.greenFees), MatchTest(f));
  }

  // ---------------------------------------------------------------------------
  // Sorting

  /** The tee-time sort key: the first slot's time, or "23:59" when there is no slot
      or its time is empty. */
  function TeeTimeKey(c: GolfCourse): string {
    if |c.TIME_LIST| == 0 || c.TIME_LIST[0].BOOK_TM == "" then "23:59" else c.TIME_LIST[0].BOOK_TM
  }

  /** `a` sorts at or before `b` character by character. Characters are Unicode
      scalar values, whose order is UTF-16 code-unit order on text of the Basic
      Multilingual Plane, such as the ASCII slot times. */
  predicate CharOrderLe(a: string, b: string)
    decreases |a|
  {
    a == [] || (b != [] && (a[0] < b[0] || (a[0] == b[0] && CharOrderLe(a[1..], b[1..]))))
  }

  lemma {:induction false} CharOrderLeTotal(a: string, b: string)
    ensures CharOrderLe(a, b) || CharOrderLe(b, a)
    decreases |a|
  {
    if a != [] && b != [] && a[0] == b[0] {
      CharOrderLeTotal(a[1..], b[1..]);
    }
  }

  lemma {:induction false} CharOrderLeTrans(a: string, b: string, c: string)
    requires CharOrderLe(a, b) && CharOrderLe(b, c)
    ensures CharOrderLe(a, c)
    decreases |a|
  {
    if a != [] && a[0] == b[0] && b[0] == c[0] {
      CharOrderLeTrans(a[1..], b[1..], c[1..]);
    }
  }

  /** "May stand before" for each sort option: by lowest green fee, by first tee
      time, or by course name under the given collation. */
  function SortRelation(option: SortOption, collate: (string, string) -> bool)
    : (GolfCourse, GolfCourse) -> bool
  {
    match option
    case DefaultSort => (a: GolfCourse, b: GolfCourse) => a.MIN_SALE_FEE <= b.MIN_SALE_FEE
    case TeeTimeSort => (a: GolfCourse, b: GolfCourse) => CharOrderLe(TeeTimeKey(a), TeeTimeKey(b))
    case NameSort => (a: GolfCourse, b: GolfCourse) => collate(a.GOLF_PLC_NM, b.GOLF_PLC_NM)
  }

  /** Each sort orders courses totally, the name sort as far as its collation does. */
  lemma SortRelationIsPreorder(option: SortOption, collate: (string, string) -> bool)
    requires option == NameSort ==> TotalPreorder(collate)
    ensures TotalPreorder(SortRelation(option, collate))
  {
    var le := SortRelation(option, collate);
    if option == TeeTimeSort {
      forall a, b ensures le(a, b) || le(b, a) {
        CharOrderLeTotal(TeeTimeKey(a), TeeTimeKey(b));
      }
      forall a, b, c | le(a, b) && le(b, c) ensures le(a, c) {
        CharOrderLeTrans(TeeTimeKey(a), TeeTimeKey(b), TeeTimeKey(c));
      }
    } else if option == NameSort {
      forall a, b ensures le(a, b) || le(b, a) {
        assert collate(a.GOLF_PLC_NM, b.GOLF_PLC_NM) || collate(b.GOLF_PLC_NM, a.GOLF_PLC_NM);
      }
      forall a, b, c | le(a, b) && le(b, c) ensures le(a, c) {
        assert collate(a.GOLF_PLC_NM, b.GOLF_PLC_NM) && collate(b.GOLF_PLC_NM, c.GOLF_PLC_NM);
      }
    }
  }

  /** `applyAllFiltersAndSorts`: filter by region, tee time and green fee, then sort
      stably by the chosen option. */
  function ApplyAllFiltersAndSorts(courses: seq<GolfCourse>, f: Filters, option: SortOption,
                                   collate: (string, string) -> bool): (r: seq<GolfCourse>)
    ensures multiset(r) == multiset(Filter(courses, MatchTest(f)))
  {
    FilterCoursesIsOneFilter(courses, f);
    InsertionSort(FilterCourses(courses, f), SortRelation(option, collate))
  }

  /** The output holds exactly the courses that meet the filters, each as often as
      in the input: a permutation of a sub-multiset of the input. */
  lemma ApplyAllMembers(courses: seq<GolfCourse>, f: Filters, option: SortOption,
                        collate: (string, string) -> bool)
    ensures var r := ApplyAllFiltersAndSorts(courses, f, option, collate);
            (forall c :: c in r <==> c in courses && MatchesFilters(f, c))
            && multiset(r) <= multiset(courses) && |r| <= |courses|
  {
    var r := ApplyAllFiltersAndSorts(courses, f, option, collate);
    var kept := Filter(courses, MatchTest(f));
    FilterMultiset(courses, MatchTest(f));
    assert |r| == |multiset(r)| == |kept|;
    forall c ensures c in r <==> c in courses && MatchesFilters(f, c) {
      assert c in r <==> c in multiset(r);
      assert c in kept <==> c in multiset(kept);
      assert c in kept <==> c in courses && MatchTest(f)(c);
    }
  }

  /** The output is ordered by the chosen sort: non-decreasing lowest fee, first tee
      time (with "23:59" for a course without one), or name. */
  lemma ApplyAllSorted(courses: seq<GolfCourse>, f: Filters, option: SortOption,
                       collate: (string, string) -> bool)
    requires option == NameSort ==> TotalPreorder(collate)
    ensures SortedBy(SortRelation(option, collate), ApplyAllFiltersAndSorts(courses, f, option, collate))
  {
    SortRelationIsPreorder(option, collate);
    InsertionSortSorted(FilterCourses(courses, f), SortRelation(option, collate));
  }

  /** `players` and `paymentMethods` never change the result. */
  lemma UnusedFiltersIgnored(courses: seq<GolfCourse>, f: Filters, players: seq<int>,
                             paymentMethods: seq<string>, option: SortOption,
                             collate: (string, string) -> bool)
    ensures ApplyAllFiltersAndSorts(courses, f.(players := players, paymentMethods := paymentMethods),
                                    option, collate)
            == ApplyAllFiltersAndSorts(courses, f, option, collate)
  {
  }

  /** With no active category the catalog keeps every course, only reordered. */
  lemma NoFiltersKeepsAll(courses: seq<GolfCourse>, f: Filters, option: SortOption,
                          collate: (string, string) -> bool)
    requires f.regions == [] && f.teeTimes == [] && f.greenFees == []
    ensures multiset(ApplyAllFiltersAndSorts(courses, f, option, collate)) == multiset(courses)
  {
    FilterKeepsAll(courses, MatchTest(f));
  }

  // ---------------------------------------------------------------------------
  // Paging

  /** `processed.slice(0, PAGE_SIZE)`: the first page. */
  function FirstPage(processed: seq<GolfCourse>): (r: seq<GolfCourse>)
    ensures |r| == if |processed| < PageSize then |processed| else PageSize
    ensures r == processed[..|r|]
  {
    Slice(processed, 0, PageSize)
  }

  /** The list a load-more completion shows: the visible list followed by the
      snapshot's next page after position `from`. */
  function AppendNextPage(visible: seq<GolfCourse>, snapshot: seq<GolfCourse>, from: nat)
    : (r: seq<GolfCourse>)
    ensures |r| - |visible| == if from + PageSize <= |snapshot| then PageSize
                               else if from <= |snapshot| then |snapshot| - from else 0
    ensures r[..|visible|] == visible
    ensures from <= |snapshot| ==>
              r[|visible|..] == snapshot[from..if from + PageSize <= |snapshot| then from + PageSize
                                                else |snapshot|]
  {
    visible + Slice(snapshot, from, from + PageSize)
  }

  /** When nothing changed during the load, the list grows by the next page and
      stays a prefix of the processed list. */
  lemma AppendNextPageKeepsPrefix(processed: seq<GolfCourse>, n: nat)
    requires n <= |processed|
    ensures AppendNextPage(processed[..n], processed, n) ==
              processed[..if n + PageSize <= |processed| then n + PageSize else |processed|]
  {
    var m := if n + PageSize <= |processed| then n + PageSize else |processed|;
    assert processed[..m] == processed[..n] + processed[n..m];
  }

  /** A list that is a prefix of the processed list stays one when the page after
      it is appended. */
  lemma AppendNextPageStaysPrefix(visible: seq<GolfCourse>, processed: seq<GolfCourse>)
    requires |visible| <= |processed| && visible == processed[..|visible|]
    ensures var r := AppendNextPage(visible, processed, |visible|);
            |r| <= |processed| && r == processed[..|r|]
  {
    AppendNextPageKeepsPrefix(processed, |visible|);
  }

  /** When the list was reset to the first page during the load (a new filter or
      sort on the same data), the completion appends the page after the old
      position: with 60 distinct courses and a load started at 40, the list
      becomes courses 0-19 followed by 40-59, no longer a prefix. */
  lemma AppendNextPageAfterReset(processed: seq<GolfCourse>)
    requires |processed| >= 60 && NoDuplicates(processed)
    ensures var r := AppendNextPage(FirstPage(processed), processed, 40);
            |r| == 40 && r[20] == processed[40] && r != processed[..40]
  {
    var r := AppendNextPage(FirstPage(processed), processed, 40);
    assert r[20] == processed[40];
    assert processed[..40][20] == processed[20] != processed[40];
  }

  // ---------------------------------------------------------------------------
  // Search

  /** The lower-cased name or address contains the lower-cased query. */
  predicate QueryMatches(c: GolfCourse, query: string, lowerCase: string -> string) {
    Includes(lowerCase(c.GOLF_PLC_NM), lowerCase(query)) || Includes(lowerCase(c.ADDR_TRANS), lowerCase(query))
  }

  /** `setSearchQuery`'s results under a given lower-casing: courses whose name or
      address contains the query; none for a blank query. */
  function SearchResults(all: seq<GolfCourse>, query: string, lowerCase: string -> string)
    : (r: seq<GolfCourse>)
    ensures Trim(query) == "" ==> r == []
    ensures Trim(query) != "" ==> forall c :: c in r <==> c in all && QueryMatches(c, query, lowerCase)
    ensures Trim(query) != "" ==>
              forall c :: multiset(r)[c] == if QueryMatches(c, query, lowerCase) then multiset(all)[c] else 0
  {
    if Trim(query) == "" then []
    else
      FilterMultiplicity(all, (c: GolfCourse) => QueryMatches(c, query, lowerCase));
      Filter(all, (c: GolfCourse) => QueryMatches(c, query, lowerCase))
  }

  /** The results keep the catalog's order. */
  lemma SearchResultsInOrder(all: seq<GolfCourse>, query: string, lowerCase: string -> string)
    ensures IsSubseq(SearchResults(all, query, lowerCase), all)
  {
    if Trim(query) != "" {
      FilterIsSubseq(all, (c: GolfCourse) => QueryMatches(c, query, lowerCase));
    }
  }

  // ---------------------------------------------------------------------------
  // Recent searches

  const MaxRecentSearches: nat := 10

  const InitialRecentSearches: seq<string> := ["아세코밸리", "휘슬링락", "우정힐스", "화순CC", "스카이72"]

  predicate NoDuplicates<T(==)>(xs: seq<T>) {
    forall i, j :: 0 <= i < j < |xs| ==> xs[i] != xs[j]
  }

  /** `[query, ...recent.filter(s => s !== query)].slice(0, 10)`. */
  function PushRecentSearch(query: string, recent: seq<string>): (r: seq<string>)
    ensures 0 < |r| <= MaxRecentSearches && r[0] == query
    ensures query !in r[1..]
    ensures forall s :: s in r ==> s == query || s in recent
    ensures |r| == if |recent| - multiset(recent)[query] + 1 < MaxRecentSearches
                   then |recent| - multiset(recent)[query] + 1 else MaxRecentSearches
    ensures |r| - 1 <= |Filter(recent, Differs(query))|
            && r[1..] == Filter(recent, Differs(query))[..|r| - 1]
  {
    var others := Filter(recent, Differs(query));
    FilterCount(recent, query);
    assert !Differs(query)(query);
    var all := [query] + others;
    var n := if |all| < MaxRecentSearches then |all| else MaxRecentSearches;
    var r := Slice(all, 0, MaxRecentSearches);
    assert r == all[..n];
    assert r[1..] == others[..n - 1];
    assert forall s :: s in others[..n - 1] ==> s in others;
    r
  }

  lemma {:induction false} FilterCount(recent: seq<string>, query: string)
    ensures |Filter(recent, Differs(query))| == |recent| - multiset(recent)[query]
    decreases |recent|
  {
    if recent != [] {
      FilterCount(recent[1..], query);
      assert recent == [recent[0]] + recent[1..];
      assert multiset(recent) == multiset{recent[0]} + multiset(recent[1..]);
    }
  }

  /** Searching again for the latest term changes nothing. */
  lemma PushRecentSearchIdempotent(query: string, recent: seq<string>)
    ensures PushRecentSearch(query, PushRecentSearch(query, recent)) == PushRecentSearch(query, recent)
  {
    var r := PushRecentSearch(query, recent);
    assert r == [query] + r[1..];
    assert Filter(r, Differs(query)) == r[1..] by {
      FilterDrop(r, query);
      FilterKeepsAll(r[1..], Differs(query));
    }
  }

  lemma FilterDrop(r: seq<string>, query: string)
    requires |r| > 0 && r[0] == query
    ensures Filter(r, Differs(query)) == Filter(r[1..], Differs(query))
  {
  }

  /** A duplicate-free list stays duplicate-free. */
  lemma {:induction false} PushRecentSearchNoDuplicates(query: string, recent: seq<string>)
    requires NoDuplicates(recent)
    ensures NoDuplicates(PushRecentSearch(query, recent))
  {
    var others := Filter(recent, Differs(query));
    FilterIsSubseq(recent, Differs(query));
    SubseqNoDuplicates(others, recent);
    var r := PushRecentSearch(query, recent);
    assert r == Slice([query] + others, 0, MaxRecentSearches);
    forall i, j | 0 <= i < j < |r| ensures r[i] != r[j] {
      if i > 0 {
        assert r[i] == others[i - 1] && r[j] == others[j - 1];
      } else {
        assert r[j] in r[1..];
      }
    }
  }

  lemma {:induction false} SubseqNoDuplicates<T>(a: seq<T>, b: seq<T>)
    requires IsSubseq(a, b) && NoDuplicates(b)
    ensures NoDuplicates(a)
    decreases |b|
  {
    if a != [] {
      assert NoDuplicates(b[1..]) by {
        forall i, j | 0 <= i < j < |b[1..]| ensures b[1..][i] != b[1..][j] {
          assert b[1..][i] == b[i + 1] && b[1..][j] == b[j + 1];
        }
      }
      if a[0] == b[0] {
        SubseqNoDuplicates(a[1..], b[1..]);
        SubseqMembers(a[1..], b[1..]);
        forall i, j | 0 <= i < j < |a| ensures a[i] != a[j] {
          if i > 0 {
            assert a[i] == a[1..][i - 1] && a[j] == a[1..][j - 1];
          } else {
            assert a[j] == a[1..][j - 1];
            assert a[j] in b[1..];
            var k :| 0 <= k < |b[1..]| && b[1..][k] == a[j];
            assert b[k + 1] == a[j];
          }
        }
      } else {
        SubseqNoDuplicates(a, b[1..]);
      }
    }
  }

  lemma {:induction false} SubseqMembers<T>(a: seq<T>, b: seq<T>)
    requires IsSubseq(a, b)
    ensures forall x :: x in a ==> x in b
    decreases |b|
  {
    if a != [] {
      if a[0] == b[0] {
        SubseqMembers(a[1..], b[1..]);
        forall x | x in a ensures x in b {
          if x != a[0] {
            assert x in a[1..];
            assert x in b[1..];
          }
        }
      } else {
        SubseqMembers(a, b[1..]);
      }
    }
  }

  /** `recent.filter((_, index) => index !== k)`, scanning from index `from`. */
  function DropIndex<T>(xs: seq<T>, k: int, from: int): (r: seq<T>)
    ensures |r| <= |xs|
    decreases |xs|
  {
    if xs == [] then []
    else (if from == k then [] else [xs[0]]) + DropIndex(xs[1..], k, from + 1)
  }

  /** Filtering out index `k` removes exactly that entry, or nothing when `k` is not
      an index. */
  lemma {:induction false} DropIndexRemoves<T>(xs: seq<T>, k: int, from: int)
    ensures DropIndex(xs, k, from) ==
              if from <= k < from + |xs| then xs[..k - from] + xs[k - from + 1..] else xs
    decreases |xs|
  {
    if xs != [] {
      DropIndexRemoves(xs[1..], k, from + 1);
      if from == k {
        assert xs[1..] == xs[k - from + 1..];
      } else if from < k < from + |xs| {
        assert xs[..k - from] == [xs[0]] + xs[1..][..k - from - 1];
        assert xs[k - from + 1..] == xs[1..][k - from..];
      } else {
        assert xs == [xs[0]] + xs[1..];
      }
    }
  }

  // ---------------------------------------------------------------------------
  // Expanded row, persisted filters, selectors

  /** `toggleCourse`: collapse the row if it is the expanded one, else expand it. */
  function ToggleExpanded(expanded: Option<int>, id: int): (r: Option<int>)
    ensures r == Some(id) <==> expanded != Some(id)
    ensures r.Some? ==> r == Some(id)
  {
    if expanded == Some(id) then None else Some(id)
  }

  /** Toggling the same row twice leaves it as it was when it was expanded or when
      nothing was. */
  lemma ToggleExpandedTwice(expanded: Option<int>, id: int)
    requires expanded == None || expanded == Some(id)
    ensures ToggleExpanded(ToggleExpanded(expanded, id), id) == expanded
  {
  }

  /** The persisted part of the state: the region filter only. */
  function Partialize(f: Filters): seq<string> {
    f.regions
  }

  /** The persist `merge`: stored regions, when present, replace the current ones;
      the other categories keep their current values. */
  function MergePersisted(persisted: Option<seq<string>>, current: Filters): (r: Filters)
    ensures persisted.Some? ==> r.regions == persisted.value
    ensures persisted.None? ==> r == current
    ensures r.teeTimes == current.teeTimes && r.greenFees == current.greenFees
            && r.players == current.players && r.paymentMethods == current.paymentMethods
  {
    match persisted
    case Some(regions) => current.(regions := regions)
    case None => current
  }

  /** Storing and restoring the filters gives the regions back and touches nothing
      else: restoring into the stored state itself changes nothing. */
  lemma MergeOfPartialize(stored: Filters, current: Filters)
    ensures MergePersisted(Some(Partialize(stored)), current) == current.(regions := stored.regions)
    ensures MergePersisted(Some(Partialize(current)), current) == current
  {
  }

  /** `selectIsFilterActive`: some category, `players` and `paymentMethods`
      included, is non-empty. */
  predicate IsFilterActive(f: Filters) {
    |f.regions| > 0 || |f.teeTimes| > 0 || |f.greenFees| > 0 || |f.players| > 0
    || |f.paymentMethods| > 0
  }

  /** `selectIsSortActive`. */
  predicate IsSortActive(option: SortOption) {
    option != DefaultSort
  }

  /** When no filter is active, the catalog shows every course. */
  lemma InactiveFiltersKeepAll(courses: seq<GolfCourse>, f: Filters, option: SortOption,
                               collate: (string, string) -> bool)
    requires !IsFilterActive(f)
    ensures f == InitialFilters
    ensures multiset(ApplyAllFiltersAndSorts(courses, f, option, collate)) == multiset(courses)
  {
    NoFiltersKeepsAll(courses, f, option, collate);
  }
}
