/** The reservation page's logic
    (apps/web-app/src/features/golfCourseBookings/pages/ReservationPage.tsx): the
    agreement checkboxes, the confirmation guard, the fee summary and the booking
    request it sends. */
module ReservationLogic {
  import opened JsText
  import opened DateUtil
  import opened CourseDomain
  import opened AlertStoreState
  import opened UserStoreState

  // ---------------------------------------------------------------------------
  // Agreement checkboxes

  datatype Agreements = Agreements(all: bool, terms: bool, privacy: bool)

  /** `'all' | 'terms' | 'privacy'`. */
  datatype AgreementKind = AllBox | TermsBox | PrivacyBox

  const InitialAgreements := Agreements(false, false, false)

  /** The "agree to all" box is ticked exactly when both required boxes are. */
  predicate Consistent(a: Agreements) {
    a.all == (a.terms && a.privacy)
  }

  /** `handleAgreementChange`: the "all" box sets all three boxes to its new
      value; a single box flips alone and the "all" box follows the pair. */
  function HandleAgreementChange(a: Agreements, kind: AgreementKind): (r: Agreements)
    ensures kind == AllBox ==> r.all == !a.all && r.terms == !a.all && r.privacy == !a.all
    ensures kind == TermsBox ==> r.terms == !a.terms && r.privacy == a.privacy
    ensures kind == PrivacyBox ==> r.privacy == !a.privacy && r.terms == a.terms
    ensures Consistent(r)
  {
    match kind
    case AllBox => Agreements(!a.all, !a.all, !a.all)
    case TermsBox => Agreements(!a.terms && a.privacy, !a.terms, a.privacy)
    case PrivacyBox => Agreements(a.terms && !a.privacy, a.terms, !a.privacy)
  }

  /** The boxes after a sequence of clicks. */
  function Clicks(a: Agreements, clicks: seq<AgreementKind>): Agreements
    decreases |clicks|
  {
    if clicks == [] then a
    else HandleAgreementChange(Clicks(a, clicks[..|clicks| - 1]), clicks[|clicks| - 1])
  }

  /** The boxes start consistent, and every sequence of clicks keeps them so. */
  lemma ClicksKeepConsistent(clicks: seq<AgreementKind>)
    ensures Consistent(Clicks(InitialAgreements, clicks))
  {
  }

  /** From a consistent state, clicking a single box twice changes nothing, and
      so does clicking "all" twice when both boxes agree; with exactly one box
      ticked, clicking "all" twice unticks it. */
  lemma ClickTwice(a: Agreements, kind: AgreementKind)
    requires Consistent(a)
    ensures kind != AllBox || a.terms == a.privacy ==>
              HandleAgreementChange(HandleAgreementChange(a, kind), kind) == a
    ensures kind == AllBox && a.terms != a.privacy ==>
              HandleAgreementChange(HandleAgreementChange(a, kind), kind) == InitialAgreements
  {
  }

  // ---------------------------------------------------------------------------
  // Confirmation guard

  /** The callback the confirmation dialog runs: `handleBooking`. */
  const SubmitBooking := Callback("handleBooking")

  /** The dialog `handleConfirm` opens: a notice when a required box is unticked,
      otherwise a question whose confirm button submits the booking. */
  function ConfirmAlert(a: Agreements): (r: AlertOptions)
    ensures r.onConfirm == Some(SubmitBooking) <==> a.terms && a.privacy
    ensures !(a.terms && a.privacy) ==> r.onConfirm == None && r.onCancel == None
    ensures a.terms && a.privacy ==>
              r.cancelText == Some("취소") && r.confirmText == Some("예약하기")
  {
    if !a.terms || !a.privacy then
      AlertOptions("필수 약관 동의", "예약을 위해서는 필수 약관에 동의하셔야 합니다.",
                   None, None, None, None)
    else
      AlertOptions("예약 신청 확인", "예약을 진행하시겠습니까?", None, Some(SubmitBooking),
                   Some("취소"), Some("예약하기"))
  }

  /** `handleConfirm`: always opens the dialog; a booking can only be submitted
      from it when both required boxes are ticked. */
  method HandleConfirm(a: Agreements, alerts: AlertStore)
    modifies alerts
    ensures alerts.State() == Show(old(alerts.State()), ConfirmAlert(a))
    ensures alerts.isOpen
    ensures alerts.options.onConfirm == Some(SubmitBooking) ==> a.terms && a.privacy
  {
    if !a.terms || !a.privacy {
      alerts.ShowAlert(AlertOptions("필수 약관 동의", "예약을 위해서는 필수 약관에 동의하셔야 합니다.",
                                    None, None, None, None));
      return;
    }
    alerts.ShowAlert(AlertOptions("예약 신청 확인", "예약을 진행하시겠습니까?", None,
                                  Some(SubmitBooking), Some("취소"), Some("예약하기")));
  }

  // ---------------------------------------------------------------------------
  // Fees

  const Players: int := 4
  const CaddyFee: int := 0

  datatype FeeSummary = FeeSummary(greenFeeTotal: int, totalAmount: int)

  /** `greenFeeTotal` and `totalAmount`: four players at the slot's sale fee and
      no caddy fee. */
  function Fees(teeTime: TeeTime): (r: FeeSummary)
    ensures r.greenFeeTotal == Players * teeTime.SALE_FEE
    ensures r.totalAmount == r.greenFeeTotal + CaddyFee
    ensures r.totalAmount == 4 * teeTime.SALE_FEE
  {
    var greenFeeTotal := teeTime.SALE_FEE * Players;
    FeeSummary(greenFeeTotal, greenFeeTotal + CaddyFee)
  }

  // ---------------------------------------------------------------------------
  // Booking request

  /** `CreateBookingPayload`. */
  datatype CreateBookingPayload = CreateBookingPayload(
    mbr_key: int, golf_plc_no: int, book_cours_no: string, book_dt: string,
    time_seq: string, book_tm: string, rsrv_psnn: int, cp_rsrvr_name: string,
    cp_rsrvr_phone: string, wkday_wkend_dv: string)

  /** `handleBooking`: with the user, the course and the slot all present, the
      request built from them (the slot time without its first colon, four
      players); otherwise no request. */
  function BookingRequest(user: Option<User>, course: Option<GolfCourse>,
                          teeTime: Option<TeeTime>, bookDt: string): (r: Option<CreateBookingPayload>)
    ensures r.Some? <==> user.Some? && course.Some? && teeTime.Some?
    ensures r.Some? ==>
              && r.value.mbr_key == user.value.id
              && r.value.golf_plc_no == course.value.GOLF_PLC_NO
              && r.value.book_dt == bookDt
              && r.value.book_cours_no == teeTime.value.dto.BOOK_COURS_NO
              && r.value.time_seq == teeTime.value.dto.TIME_SEQ
              && r.value.wkday_wkend_dv == teeTime.value.dto.WKDAY_WKEND_DV
              && r.value.rsrv_psnn == Players
              && r.value.cp_rsrvr_name == user.value.realname
              && r.value.cp_rsrvr_phone == user.value.phone
    ensures r.Some? ==> r.value.book_tm == RemoveFirst(teeTime.value.BOOK_TM, ':')
    ensures r.Some? && ':' in teeTime.value.BOOK_TM ==>
              |r.value.book_tm| == |teeTime.value.BOOK_TM| - 1
  {
    if user.Some? && course.Some? && teeTime.Some? then
      var u, c, t := user.value, course.value, teeTime.value;
      Some(CreateBookingPayload(u.id, c.GOLF_PLC_NO, t.dto.BOOK_COURS_NO, bookDt, t.dto.TIME_SEQ,
                                RemoveFirst(t.BOOK_TM, ':'), Players, u.realname, u.phone,
                                t.dto.WKDAY_WKEND_DV))
    else None
  }

  /** A slot time shown as `HH:mm` goes to the server as `HHmm`: the request time
      is the server's own colon-free time that `formatTime` displayed. */
  lemma RequestTimeUndoesFormat(user: User, course: GolfCourse, teeTime: TeeTime,
                                bookDt: string, serverTime: string)
    requires ':' !in serverTime
    requires teeTime.BOOK_TM == FormatTime(serverTime)
    ensures BookingRequest(Some(user), Some(course), Some(teeTime), bookDt).value.book_tm
            == serverTime
  {
    FormatTimeUndo(serverTime);
  }

  /** Only the first colon is dropped: `hh:mm` with a colon-free hour part gives
      the hour part followed by the rest. */
  lemma RequestTimeDropsFirstColon(user: User, course: GolfCourse, teeTime: TeeTime,
                                   bookDt: string, hh: string, rest: string)
    requires ':' !in hh
    requires teeTime.BOOK_TM == hh + ":" + rest
    ensures BookingRequest(Some(user), Some(course), Some(teeTime), bookDt).value.book_tm
            == hh + rest
  {
    RemoveFirstAfter(hh, ':', rest);
  }
}
