/** Bookings as the app shows them, built from the server's booking records
    (apps/web-app/src/features/golfCourseBookings/domain/mappers.ts). */
module BookingDomain {
  import opened JsText
  import opened Common

  /** `BookingDto`: numbers are the integers of the model, fees are strings. */
  datatype BookingDto = BookingDto(book_no: int, user_id: int, golf_plc_no: int, book_dt: string,
                                   book_cours_no: int, time_seq: int, rsrv_psnn: int,
                                   rsrvr_nm: string, rsrvr_mobile: string, rsrv_dttm: string,
                                   cncl_dttm: string, golf_plc_nm: string,
                                   rsrv_cncl_rule_dt: string, book_cours_nm: string,
                                   normal_fee: string, sale_fee: string, book_tm: string,
                                   book_stat_cd: int, canceled_at: string, create_at: string)

  /** `Booking`. Status 1 is a scheduled round, 2 a cancelled one. The optional
      fields are `None` when the record was not built by `mapBooking`. */
  datatype Booking = Booking(id: string, status: int, courseName: string,
                             courseImage: Option<string>, date: string, time: string,
                             courseLayout: string, conditions: int, greenFee: int,
                             caddyFee: Option<int>, cartFee: Option<int>,
                             totalAmount: Option<int>, paymentMethod: Option<string>,
                             cancellationDeadline: string, bookerName: string,
                             bookerPhone: string, dto: Option<BookingDto>)

  /** `mapBooking`. */
  function MapBooking(dto: BookingDto): (r: Booking)
    ensures r.dto == Some(dto)
    ensures r.status == dto.book_stat_cd && r.conditions == dto.rsrv_psnn
    ensures r.courseName == dto.golf_plc_nm && r.date == dto.book_dt && r.time == dto.book_tm
            && r.courseLayout == dto.book_cours_nm
            && r.cancellationDeadline == dto.rsrv_cncl_rule_dt
            && r.bookerName == dto.rsrvr_nm && r.bookerPhone == dto.rsrvr_mobile
    ensures r.courseImage == None && r.caddyFee == None && r.cartFee == None
            && r.totalAmount == None && r.paymentMethod == None
    ensures r.id == IntToString(dto.book_no) && r.greenFee == ToNumber(Text(dto.sale_fee))
  {
    Booking(IntToString(dto.book_no), dto.book_stat_cd, dto.golf_plc_nm, None, dto.book_dt,
            dto.book_tm, dto.book_cours_nm, dto.rsrv_psnn, ToNumber(Text(dto.sale_fee)),
            None, None, None, None, dto.rsrv_cncl_rule_dt, dto.rsrvr_nm, dto.rsrvr_mobile,
            Some(dto))
  }

  /** The booking id is the decimal string of the booking number: reading it as a
      number gives the number back, so distinct numbers give distinct ids. */
  lemma BookingIdReadsBack(dto: BookingDto)
    ensures ToNumber(Text(MapBooking(dto).id)) == dto.book_no
  {
    ToNumberOfIntToString(dto.book_no);
  }

  lemma BookingIdsDistinct(a: BookingDto, b: BookingDto)
    requires a.book_no != b.book_no
    ensures MapBooking(a).id != MapBooking(b).id
  {
    BookingIdReadsBack(a);
    BookingIdReadsBack(b);
  }

  /** A sale fee of digits with thousands separators, such as "120,000", is the
      green fee it denotes. */
  lemma GreenFeeOfGroupedDigits(dto: BookingDto, k: nat)
    requires forall i :: 0 <= i < |dto.sale_fee| ==> IsDigit(dto.sale_fee[i]) || dto.sale_fee[i] == ','
    requires k < |dto.sale_fee| && IsDigit(dto.sale_fee[k])
    ensures AllDigits(RemoveChars(dto.sale_fee, {','}))
    ensures MapBooking(dto).greenFee == DigitsValue(RemoveChars(dto.sale_fee, {','}))
  {
    ToNumberDigitsAndCommas(dto.sale_fee, k);
  }
}
