/** Golf courses and tee times as the catalog uses them, and the mappers that build
    them from the two shapes of tee-time records the server sends
    (apps/web-app/src/features/golfCourses/domain/mappers.ts). */
module CourseDomain {
  import opened JsText
  import opened Common

  /** `TeeTimeDto`: a slot of a course listing (`GolfCourseTimesDto`, fees as
      strings, with the course number) or a slot of the detail page
      (`TimeDetailDto`, sale fee already a number, no course number). */
  datatype TeeTimeDto =
    | GolfCourseTimesDto(EVENT_YN: string, SALE_FEE_TRAN: string, WKDAY_WKEND_DV: string,
                         ETC_MEMO: string, BOOK_TM: string, GOLF_PLC_NM: string,
                         TIME_SEQ: string, GOLF_PLC_NO: string, BOOK_COURS_NO: string,
                         NORMAL_FEE_TRAN: string, BOOK_COURS_NM: string, PREPAY_YN: string)
    | TimeDetailDto(BOOK_TM: string, SALE_FEE: int, BOOK_COURS_NO: string,
                    BOOK_COURS_NM: string, TIME_SEQ: string, NORMAL_FEE: string,
                    WKDAY_WKEND_DV: string, BOOK_DT: string, HOLE_SCALE: string,
                    RECOMM_YN: string, PREPAY_YN: string)

  /** A slot (`TeeTimes`). `GOLF_PLC_NO` and `BOOK_DT` are optional fields. */
  datatype TeeTime = TeeTime(SALE_FEE: int, NORMAL_FEE: int, GOLF_PLC_NO: Option<int>,
                             BOOK_DT: Option<string>, BOOK_TM: string,
                             BOOK_COURS_NM: string, TIME_SEQ: string, dto: TeeTimeDto)

  datatype GolfCourseDto = GolfCourseDto(GOLF_PLC_NO: string, GOLF_PLC_NM: string,
                                         REGN_NM: string, BOOK_DT: string, MIN_SALE_FEE: int,
                                         ADDR_TRANS: string, TIME_COUNT: int,
                                         TIME_LIST: seq<TeeTimeDto>)

  datatype GolfCourse = GolfCourse(GOLF_PLC_NO: int, GOLF_PLC_NM: string, REGN_NM: string,
                                   BOOK_DT: string, MIN_SALE_FEE: int, ADDR_TRANS: string,
                                   TIME_COUNT: int, TIME_LIST: seq<TeeTime>,
                                   images: Option<seq<string>>)

  /** Reading the `GOLF_PLC_NO` property of a record: only the listing shape has one. */
  function PlcNoField(dto: TeeTimeDto): (r: Option<string>)
    ensures r.Some? <==> dto.GolfCourseTimesDto?
  {
    match dto
    case GolfCourseTimesDto(_, _, _, _, _, _, _, plcNo, _, _, _, _) => Some(plcNo)
    case TimeDetailDto(_, _, _, _, _, _, _, _, _, _, _) => None
  }

  /** `isGolfCourseTimesDto`: the record has a `GOLF_PLC_NO` property. */
  predicate IsGolfCourseTimesDto(dto: TeeTimeDto) {
    PlcNoField(dto) != None
  }

  /** `mapTeeTimeDtoToTeeTime`. */
  function MapTeeTime(dto: TeeTimeDto): (r: TeeTime)
    ensures r.dto == dto
    ensures r.BOOK_TM == dto.BOOK_TM && r.BOOK_COURS_NM == dto.BOOK_COURS_NM
            && r.TIME_SEQ == dto.TIME_SEQ && r.BOOK_DT == None
    ensures r.GOLF_PLC_NO.Some? <==> IsGolfCourseTimesDto(dto)
    ensures dto.GolfCourseTimesDto? ==>
              && r.SALE_FEE == ToNumber(Text(dto.SALE_FEE_TRAN))
              && r.NORMAL_FEE == ToNumber(Text(dto.NORMAL_FEE_TRAN))
              && r.GOLF_PLC_NO == Some(ToNumber(Text(dto.GOLF_PLC_NO)))
    ensures dto.TimeDetailDto? ==>
              r.SALE_FEE == dto.SALE_FEE && r.NORMAL_FEE == ToNumber(Text(dto.NORMAL_FEE))
  {
    if IsGolfCourseTimesDto(dto) then
      TeeTime(ToNumber(Text(dto.SALE_FEE_TRAN)), ToNumber(Text(dto.NORMAL_FEE_TRAN)),
              Some(ToNumber(Text(dto.GOLF_PLC_NO))), None, dto.BOOK_TM, dto.BOOK_COURS_NM,
              dto.TIME_SEQ, dto)
    else
      TeeTime(dto.SALE_FEE, ToNumber(Text(dto.NORMAL_FEE)), None, None, dto.BOOK_TM,
              dto.BOOK_COURS_NM, dto.TIME_SEQ, dto)
  }

  /** Fees of a listing slot written as digits with thousands separators come out
      as the amounts they denote, and the course number as the number it spells. */
  lemma MapTeeTimeOfListing(dto: TeeTimeDto, sale: string, i: nat, normal: string, j: nat, n: int)
    requires dto.GolfCourseTimesDto?
    requires dto.SALE_FEE_TRAN == sale && dto.NORMAL_FEE_TRAN == normal
    requires forall k :: 0 <= k < |sale| ==> IsDigit(sale[k]) || sale[k] == ','
    requires i < |sale| && IsDigit(sale[i])
    requires forall k :: 0 <= k < |normal| ==> IsDigit(normal[k]) || normal[k] == ','
    requires j < |normal| && IsDigit(normal[j])
    requires dto.GOLF_PLC_NO == IntToString(n)
    ensures AllDigits(RemoveChars(sale, {','})) && AllDigits(RemoveChars(normal, {','}))
    ensures MapTeeTime(dto).SALE_FEE == DigitsValue(RemoveChars(sale, {','}))
    ensures MapTeeTime(dto).NORMAL_FEE == DigitsValue(RemoveChars(normal, {','}))
    ensures MapTeeTime(dto).GOLF_PLC_NO == Some(n)
  {
    ToNumberDigitsAndCommas(sale, i);
    ToNumberDigitsAndCommas(normal, j);
    ToNumberOfIntToString(n);
  }

  /** A detail slot keeps its numeric sale fee and gets no course number; a normal
      fee that is not a number at all becomes 0 rather than NaN. */
  lemma MapTeeTimeOfDetail(dto: TeeTimeDto)
    requires dto.TimeDetailDto?
    ensures MapTeeTime(dto).SALE_FEE == dto.SALE_FEE
    ensures MapTeeTime(dto).GOLF_PLC_NO == None
    ensures forall k :: 0 <= k < |dto.NORMAL_FEE| && !NumberSyntaxChar(dto.NORMAL_FEE[k])
              ==> MapTeeTime(dto).NORMAL_FEE == 0
  {
    forall k | 0 <= k < |dto.NORMAL_FEE| && !NumberSyntaxChar(dto.NORMAL_FEE[k])
      ensures MapTeeTime(dto).NORMAL_FEE == 0
    {
      ToNumberRejects(dto.NORMAL_FEE, k);
    }
  }

  /** `TIME_LIST.map(mapTeeTimeDtoToTeeTime)`. */
  function MapTeeTimes(dtos: seq<TeeTimeDto>): (r: seq<TeeTime>)
    ensures |r| == |dtos|
    ensures forall i :: 0 <= i < |r| ==> r[i] == MapTeeTime(dtos[i])
    decreases |dtos|
  {
    if dtos == [] then [] else [MapTeeTime(dtos[0])] + MapTeeTimes(dtos[1..])
  }

  /** The records a mapped list was built from, in order. */
  function SourceDtos(times: seq<TeeTime>): (r: seq<TeeTimeDto>)
    ensures |r| == |times|
    ensures forall i :: 0 <= i < |r| ==> r[i] == times[i].dto
    decreases |times|
  {
    if times == [] then [] else [times[0].dto] + SourceDtos(times[1..])
  }

  /** Mapping a list keeps every source record: the records can be read back. */
  lemma SourceDtosOfMapTeeTimes(dtos: seq<TeeTimeDto>)
    ensures SourceDtos(MapTeeTimes(dtos)) == dtos
  {
  }

  /** `mapCourse`: the course number is read as a number, the slots are mapped one by
      one, every other field is copied; a course record has no `images`. */
  function MapCourse(dto: GolfCourseDto): (r: GolfCourse)
    ensures r.GOLF_PLC_NO == ToNumber(Text(dto.GOLF_PLC_NO))
    ensures r.GOLF_PLC_NM == dto.GOLF_PLC_NM && r.REGN_NM == dto.REGN_NM
            && r.BOOK_DT == dto.BOOK_DT && r.MIN_SALE_FEE == dto.MIN_SALE_FEE
            && r.ADDR_TRANS == dto.ADDR_TRANS && r.TIME_COUNT == dto.TIME_COUNT
            && r.images == None
    ensures |r.TIME_LIST| == |dto.TIME_LIST|
    ensures forall i :: 0 <= i < |r.TIME_LIST| ==>
              r.TIME_LIST[i] == MapTeeTime(dto.TIME_LIST[i])
  {
    GolfCourse(ToNumber(Text(dto.GOLF_PLC_NO)), dto.GOLF_PLC_NM, dto.REGN_NM, dto.BOOK_DT,
               dto.MIN_SALE_FEE, dto.ADDR_TRANS, dto.TIME_COUNT, MapTeeTimes(dto.TIME_LIST),
               None)
  }

  /** A course numbered with the decimal string of `n` gets number `n`, and its
      slot records can be read back from the mapped course. */
  lemma MapCourseReadsBack(dto: GolfCourseDto, n: int)
    requires dto.GOLF_PLC_NO == IntToString(n)
    ensures MapCourse(dto).GOLF_PLC_NO == n
    ensures SourceDtos(MapCourse(dto).TIME_LIST) == dto.TIME_LIST
  {
    ToNumberOfIntToString(n);
    SourceDtosOfMapTeeTimes(dto.TIME_LIST);
  }
}
