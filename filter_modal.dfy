/** The filter sheet's chip logic
    (apps/web-app/src/features/golfCourses/components/FilterModal.tsx): a draft of
    the five filter lists in which each chip toggles its value. */
module FilterModalLogic {
  import opened Seqs
  import opened Catalog

  /** `keyof Filters`. */
  datatype Category = Regions | TeeTimes | GreenFees | Players | PaymentMethods

  /** `string | number`: the players list holds numbers, the others strings. */
  datatype FilterValue = Text(text: string) | Number(number: int)

  /** The chips the sheet offers (`filterOptions`). */
  const RegionOptions: seq<string> := ["서울 / 경기", "강원", "충청", "경상", "전라", "제주"]
  const TeeTimeOptions: seq<string> := [DawnBand, MorningBand, AfternoonBand, NightBand]
  const GreenFeeOptions: seq<string> := [UpTo5Band, From5To10Band, From10To15Band, From15Band]
  const PlayerOptions: seq<int> := [3, 4]
  const PaymentMethodOptions: seq<string> := ["현장결제", "선결제", "예약금결제"]

  /** The value has the element type of the category's list. */
  predicate Fits(category: Category, value: FilterValue) {
    if category == Players then value.Number? else value.Text?
  }

  /** `values.includes(value) ? values.filter(v => v !== value) : [...values, value]`. */
  function ToggleValue<T(==, !new)>(values: seq<T>, value: T): (r: seq<T>)
    ensures value in values ==> value !in r
                                && forall x :: x in r <==> x in values && x != value
    ensures value in values ==>
              forall x :: multiset(r)[x] == if x == value then 0 else multiset(values)[x]
    ensures value !in values ==> r == values + [value]
  {
    if value in values then
      assert Differs(value)(value) == false;
      FilterMultiplicity(values, Differs(value));
      Filter(values, Differs(value))
    else values + [value]
  }

  /** Toggling a value that was not there, and toggling it again, gives back the
      original list exactly, order included. */
  lemma ToggleValueTwice<T(!new)>(values: seq<T>, value: T)
    requires value !in values
    ensures ToggleValue(ToggleValue(values, value), value) == values
  {
    assert value in values + [value];
    FilterAppendRejected(values, value, Differs(value));
    FilterKeepsAll(values, Differs(value));
  }

  /** A present value toggles off everywhere, however many copies there were;
      the remaining values keep their order. */
  lemma ToggleValueRemovesAll<T(!new)>(values: seq<T>, value: T)
    requires value in values
    ensures IsSubseq(ToggleValue(values, value), values)
    ensures forall i :: 0 <= i < |ToggleValue(values, value)| ==>
              ToggleValue(values, value)[i] != value
  {
    FilterIsSubseq(values, Differs(value));
  }

  /** `handleToggle`: toggle the value in the named list, keep the other four. */
  function HandleToggle(prev: Filters, category: Category, value: FilterValue): (r: Filters)
    requires Fits(category, value)
    ensures category != Regions ==> r.regions == prev.regions
    ensures category != TeeTimes ==> r.teeTimes == prev.teeTimes
    ensures category != GreenFees ==> r.greenFees == prev.greenFees
    ensures category != Players ==> r.players == prev.players
    ensures category != PaymentMethods ==> r.paymentMethods == prev.paymentMethods
    ensures IsSelected(r, category, value) <==> !IsSelected(prev, category, value)
    ensures category == Regions ==> r.regions == ToggleValue(prev.regions, value.text)
    ensures category == TeeTimes ==> r.teeTimes == ToggleValue(prev.teeTimes, value.text)
    ensures category == GreenFees ==> r.greenFees == ToggleValue(prev.greenFees, value.text)
    ensures category == Players ==> r.players == ToggleValue(prev.players, value.number)
    ensures category == PaymentMethods ==>
              r.paymentMethods == ToggleValue(prev.paymentMethods, value.text)
  {
    match category
    case Regions => prev.(regions := ToggleValue(prev.regions, value.text))
    case TeeTimes => prev.(teeTimes := ToggleValue(prev.teeTimes, value.text))
    case GreenFees => prev.(greenFees := ToggleValue(prev.greenFees, value.text))
    case Players => prev.(players := ToggleValue(prev.players, value.number))
    case PaymentMethods => prev.(paymentMethods := ToggleValue(prev.paymentMethods, value.text))
  }

  /** `isSelected`: the value is in the named list; a value of the other type is
      in none. */
  predicate IsSelected(f: Filters, category: Category, value: FilterValue) {
    match category
    case Regions => value.Text? && value.text in f.regions
    case TeeTimes => value.Text? && value.text in f.teeTimes
    case GreenFees => value.Text? && value.text in f.greenFees
    case Players => value.Number? && value.number in f.players
    case PaymentMethods => value.Text? && value.text in f.paymentMethods
  }

  /** Selecting a chip that was off and then deselecting it restores the draft. */
  lemma HandleToggleTwice(prev: Filters, category: Category, value: FilterValue)
    requires Fits(category, value) && !IsSelected(prev, category, value)
    ensures HandleToggle(HandleToggle(prev, category, value), category, value) == prev
  {
    match category
    case Regions => ToggleValueTwice(prev.regions, value.text);
    case TeeTimes => ToggleValueTwice(prev.teeTimes, value.text);
    case GreenFees => ToggleValueTwice(prev.greenFees, value.text);
    case Players => ToggleValueTwice(prev.players, value.number);
    case PaymentMethods => ToggleValueTwice(prev.paymentMethods, value.text);
  }

  /** `handleReset`: the draft becomes the five empty lists, which are also the
      store's initial filters; no chip is selected any more. */
  function HandleReset(): (r: Filters)
    ensures r.regions == [] && r.teeTimes == [] && r.greenFees == [] && r.players == []
            && r.paymentMethods == []
    ensures forall c, v :: !IsSelected(r, c, v)
  {
    InitialFilters
  }
}
