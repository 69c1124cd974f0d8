/**
 * The backend queries of `AppointmentManager` (appointment_manager.py): the input
 * checks, the status-code mapping and the filtering of `search_doctors` and
 * `get_available_slots`, and the `BookingState` enumeration. The HTTP request
 * itself is a parameter: whatever the backend answers, or the way the call failed.
 */
module Gateway {
  import opened Wrappers
  import opened Text
  import opened Calendar

  /** The steps of a booking (`BookingState`). */
  datatype BookingState = Initial | SelectSpecialty | SelectDoctor | SelectDate | SelectTime | Confirm | Complete | Cancelled

  /** The enumeration's value for each state. */
  function StateName(s: BookingState): string
  {
    match s
    case Initial => "INITIAL"
    case SelectSpecialty => "SELECT_SPECIALTY"
    case SelectDoctor => "SELECT_DOCTOR"
    case SelectDate => "SELECT_DATE"
    case SelectTime => "SELECT_TIME"
    case Confirm => "CONFIRM"
    case Complete => "COMPLETE"
    case Cancelled => "CANCELLED"
  }

  /** Two different booking states have different values. */
  lemma StateNameInjective(a: BookingState, b: BookingState)
    requires StateName(a) == StateName(b)
    ensures a == b
  {
    var x := StateName(a);
    var y := StateName(b);
    assert |x| == |y| && x[0] == y[0] && (|x| == 11 ==> x[7] == y[7]);
  }

  /** A JSON object from the backend, restricted to string fields. */
  type Json = map<string, string>

  /** `obj.get(key, default)` */
  function Field(obj: Json, key: string, default: string): string
  {
    if key in obj then obj[key] else default
  }

  /** How a `requests.get` call ended. */
  datatype HttpOutcome =
    | Response(status: nat, data: Option<seq<Json>>)   // `response.json().get("data")`, None when the key is absent
    | TimedOut                                        // requests.exceptions.Timeout
    | RequestFailed                                   // any other requests.exceptions.RequestException
    | Crashed                                         // any other exception

  datatype ErrorCode =
    | InvalidKeyword | KeywordTooShort | NotFound | ServerError | Timeout | NetworkError | UnknownError
    | InvalidDoctorId | InvalidDate | InvalidDateFormat | InvalidDateValue | PastDate | NoSlotsFound

  function CodeName(c: ErrorCode): string
  {
    match c
    case InvalidKeyword => "INVALID_KEYWORD"
    case KeywordTooShort => "KEYWORD_TOO_SHORT"
    case NotFound => "NOT_FOUND"
    case ServerError => "SERVER_ERROR"
    case Timeout => "TIMEOUT"
    case NetworkError => "NETWORK_ERROR"
    case UnknownError => "UNKNOWN_ERROR"
    case InvalidDoctorId => "INVALID_DOCTOR_ID"
    case InvalidDate => "INVALID_DATE"
    case InvalidDateFormat => "INVALID_DATE_FORMAT"
    case InvalidDateValue => "INVALID_DATE_VALUE"
    case PastDate => "PAST_DATE"
    case NoSlotsFound => "NO_SLOTS_FOUND"
  }

  /** The result dictionary: `success`, `message`, `data` and, on failure, `error_code`. */
  datatype Lookup<T> = Lookup(success: bool, message: string, data: seq<T>, errorCode: Option<ErrorCode>)

  function Failure<T>(message: string, code: ErrorCode): (r: Lookup<T>)
    ensures !r.success && r.data == [] && r.errorCode == Some(code)
  {
    Lookup(false, message, [], Some(code))
  }

  /** A well-formed result: it succeeds exactly when it carries no error code, and a failure carries no data. */
  predicate Consistent<T>(r: Lookup<T>)
  {
    (r.success <==> r.errorCode.None?) && (!r.success ==> r.data == [])
  }

  // ----- search_doctors -----

  /** `search_doctors`; `backend` answers GET /api/public/search for a keyword. */
  function SearchDoctors(keyword: string, backend: string -> HttpOutcome): (r: Lookup<Json>)
    ensures Consistent(r)
  {
    var k := Strip(keyword);
    if k == "" then Failure("Search keyword cannot be empty", InvalidKeyword)
    else if |k| < 2 then Failure("Search keyword must be at least 2 characters long", KeywordTooShort)
    else
      match backend(k)
      case Response(status, data) =>
        if status == 200 then
          var doctors := if data.Some? then data.value else [];
          Lookup(true, "Found " + NatToString(|doctors|) + " doctor(s)", doctors, None)
        else if status == 404 then Failure("No doctors found for '" + k + "'", NotFound)
        else Failure("Server error while searching doctors (Status: " + NatToString(status) + ")", ServerError)
      case TimedOut => Failure("Request timeout. Please try again.", Timeout)
      case RequestFailed => Failure("Unable to connect to the server. Please check your connection.", NetworkError)
      case Crashed => Failure("An unexpected error occurred while searching doctors", UnknownError)
  }

  /**
   * A keyword that is blank or a single character after stripping is refused before
   * any request is made, with the code that says which.
   */
  lemma SearchRejectsShortKeywords(keyword: string, backend: string -> HttpOutcome, other: string -> HttpOutcome)
    requires |Strip(keyword)| < 2
    ensures SearchDoctors(keyword, backend) == SearchDoctors(keyword, other)
    ensures SearchDoctors(keyword, backend).errorCode == Some(if Strip(keyword) == "" then InvalidKeyword else KeywordTooShort)
  {
  }

  /** Only the stripped keyword matters: surrounding whitespace never changes the search. */
  lemma SearchIgnoresSurroundingSpace(keyword: string, backend: string -> HttpOutcome)
    ensures SearchDoctors(keyword, backend) == SearchDoctors(Strip(keyword), backend)
  {
    StripIdempotent(keyword, Whitespace);
  }

  /** The backend's answer decides the error code of a valid search, one code per kind of answer. */
  lemma SearchErrorFollowsBackend(keyword: string, backend: string -> HttpOutcome)
    requires |Strip(keyword)| >= 2
    ensures var r := SearchDoctors(keyword, backend);
            match backend(Strip(keyword))
            case Response(status, data) =>
              (status == 200 <==> r.success)
              && (status == 200 ==> r.data == (if data.Some? then data.value else []))
              && (status == 404 <==> r.errorCode == Some(NotFound))
              && (status != 200 && status != 404 <==> r.errorCode == Some(ServerError))
            case TimedOut => r.errorCode == Some(Timeout)
            case RequestFailed => r.errorCode == Some(NetworkError)
            case Crashed => r.errorCode == Some(UnknownError)
  {
  }

  // ----- get_available_slots -----

  /** `slot.get("status") == "AVAILABLE"` */
  predicate Available(slot: Json)
  {
    "status" in slot && slot["status"] == "AVAILABLE"
  }

  /**
   * `[slot["slotTime"] for slot in slots if slot.get("status") == "AVAILABLE"]`;
   * None where an available slot has no `slotTime` and the lookup raises KeyError.
   */
  function AvailableTimes(slots: seq<Json>): (r: Option<seq<string>>)
    ensures r.Some? <==> forall i :: 0 <= i < |slots| && Available(slots[i]) ==> "slotTime" in slots[i]
    ensures r.Some? ==> |r.value| <= |slots|
    ensures r.Some? ==> forall t :: t in r.value ==> exists i :: 0 <= i < |slots| && Available(slots[i]) && slots[i]["slotTime"] == t
    ensures r.Some? ==> forall i :: 0 <= i < |slots| && Available(slots[i]) ==> slots[i]["slotTime"] in r.value
  {
    if slots == [] then Some([])
    else
      var rest := AvailableTimes(slots[1..]);
      if !Available(slots[0]) then
        (if rest.Some? then
           assert forall i :: 1 <= i < |slots| ==> slots[i] == slots[1..][i - 1];
           rest
         else
           None)
      else if "slotTime" !in slots[0] then None
      else if rest.None? then None
      else
        assert forall i :: 1 <= i < |slots| ==> slots[i] == slots[1..][i - 1];
        Some([slots[0]["slotTime"]] + rest.value)
  }

  /** The checks made before any request: an error, or the stripped doctor id and date to send. */
  function CheckSlotQuery(doctorId: string, date: string, today: DayNumber): (r: Result)
    ensures r.Rejected? ==> Consistent(r.failure) && r.failure.errorCode.Some?
  {
    var id := Strip(doctorId);
    var d := Strip(date);
    if id == "" then Rejected(Failure("Doctor ID cannot be empty", InvalidDoctorId))
    else if d == "" then Rejected(Failure("Date cannot be empty", InvalidDate))
    else if !IsoShape(d) then Rejected(Failure("Date must be in YYYY-MM-DD format", InvalidDateFormat))
    else
      var (y, m, dd) := YmdOf(d);
      if !ValidYmd(y, m, dd) then Rejected(Failure("Invalid date value", InvalidDateValue))
      else if Ordinal(y, m, dd) < today then Rejected(Failure("Cannot book appointments for past dates", PastDate))
      else Accepted(id, d)
  }

  datatype Result = Rejected(failure: Lookup<string>) | Accepted(doctorId: string, date: string)

  /** The request part of `get_available_slots`; `backend` answers GET /api/slots for (doctorId, date). */
  function FetchSlots(doctorId: string, date: string, backend: (string, string) -> HttpOutcome): (r: Lookup<string>)
    ensures Consistent(r)
  {
    match backend(doctorId, date)
    case Response(status, data) =>
      if status == 200 then
        match AvailableTimes(if data.Some? then data.value else [])
        case None => Failure("An unexpected error occurred while fetching available slots", UnknownError)
        case Some(times) => Lookup(true, "Found " + NatToString(|times|) + " available slot(s)", times, None)
      else if status == 404 then Failure("No slots found for the selected date", NoSlotsFound)
      else Failure("Server error while fetching slots (Status: " + NatToString(status) + ")", ServerError)
    case TimedOut => Failure("Request timeout. Please try again.", Timeout)
    case RequestFailed => Failure("An unexpected error occurred while fetching available slots", UnknownError)
    case Crashed => Failure("An unexpected error occurred while fetching available slots", UnknownError)
  }

  /** `get_available_slots`, with `today` standing for `datetime.now().date()`. */
  function GetAvailableSlots(doctorId: string, date: string, today: DayNumber, backend: (string, string) -> HttpOutcome): (r: Lookup<string>)
    ensures Consistent(r)
  {
    match CheckSlotQuery(doctorId, date, today)
    case Rejected(failure) => failure
    case Accepted(id, d) => FetchSlots(id, d, backend)
  }

  /**
   * The times of two runs of slots are the times of each, in the same order: the filter
   * keeps the input order, and fails when either part has an available slot without a time.
   */
  lemma {:induction false} AvailableTimesAppend(a: seq<Json>, b: seq<Json>)
    ensures AvailableTimes(a + b) ==
              if AvailableTimes(a).Some? && AvailableTimes(b).Some? then Some(AvailableTimes(a).value + AvailableTimes(b).value)
              else None
  {
    if a == [] {
      assert a + b == b;
      if AvailableTimes(b).Some? {
        assert [] + AvailableTimes(b).value == AvailableTimes(b).value;
      }
    } else {
      assert a == [a[0]] + a[1..];
      assert a + b == [a[0]] + (a[1..] + b);
      AvailableTimesAppend(a[1..], b);
      AvailableTimesCons(a[0], a[1..]);
      AvailableTimesCons(a[0], a[1..] + b);
      var ra := AvailableTimes(a[1..]);
      var rb := AvailableTimes(b);
      if Available(a[0]) && "slotTime" in a[0] && ra.Some? && rb.Some? {
        var t := a[0]["slotTime"];
        assert [t] + (ra.value + rb.value) == ([t] + ra.value) + rb.value;
      }
    }
  }

  /** The filter on a slot followed by more slots. */
  lemma AvailableTimesCons(x: Json, rest: seq<Json>)
    ensures AvailableTimes([x] + rest) ==
              if !Available(x) then AvailableTimes(rest)
              else if "slotTime" !in x || AvailableTimes(rest).None? then None
              else Some([x["slotTime"]] + AvailableTimes(rest).value)
  {
    assert ([x] + rest)[0] == x;
    assert ([x] + rest)[1..] == rest;
  }

  /**
   * A valid slots query: 200 succeeds with the available times (a malformed slot gives
   * UNKNOWN_ERROR), 404 gives NO_SLOTS_FOUND, any other status SERVER_ERROR, a timeout
   * TIMEOUT and any other failure UNKNOWN_ERROR.
   */
  lemma SlotErrorFollowsBackend(doctorId: string, date: string, backend: (string, string) -> HttpOutcome)
    ensures var r := FetchSlots(doctorId, date, backend);
            match backend(doctorId, date)
            case Response(status, data) =>
              var times := AvailableTimes(if data.Some? then data.value else []);
              (r.success <==> status == 200 && times.Some?)
              && (r.success ==> r.data == times.value)
              && (status == 200 && times.None? ==> r.errorCode == Some(UnknownError))
              && (status == 404 <==> r.errorCode == Some(NoSlotsFound))
              && (status != 200 && status != 404 <==> r.errorCode == Some(ServerError))
            case TimedOut => r.errorCode == Some(Timeout)
            case RequestFailed => r.errorCode == Some(UnknownError)
            case Crashed => r.errorCode == Some(UnknownError)
  {
  }

  /** Every date error is decided before the request, whatever the backend would answer. */
  lemma SlotChecksPrecedeRequest(doctorId: string, date: string, today: DayNumber, backend: (string, string) -> HttpOutcome, other: (string, string) -> HttpOutcome)
    requires CheckSlotQuery(doctorId, date, today).Rejected?
    ensures GetAvailableSlots(doctorId, date, today, backend) == GetAvailableSlots(doctorId, date, today, other)
    ensures GetAvailableSlots(doctorId, date, today, backend).errorCode.value in {InvalidDoctorId, InvalidDate, InvalidDateFormat, InvalidDateValue, PastDate}
  {
  }

  /**
   * The checks run in order, and the first that fails decides the answer: a blank doctor id,
   * then a blank date, then a date not of the `YYYY-MM-DD` shape, then one naming no
   * calendar day, then a day before today.
   */
  lemma SlotCheckOrder(doctorId: string, date: string, today: DayNumber, backend: (string, string) -> HttpOutcome)
    ensures var r := GetAvailableSlots(doctorId, date, today, backend);
            var d := Strip(date);
            && (Strip(doctorId) == "" ==> r == Failure("Doctor ID cannot be empty", InvalidDoctorId))
            && (Strip(doctorId) != "" && d == "" ==> r == Failure("Date cannot be empty", InvalidDate))
            && (Strip(doctorId) != "" && d != "" && !IsoShape(d) ==> r == Failure("Date must be in YYYY-MM-DD format", InvalidDateFormat))
            && (Strip(doctorId) != "" && IsoShape(d) && !IsCalendarDate(d) ==> r == Failure("Invalid date value", InvalidDateValue))
            && (Strip(doctorId) != "" && IsCalendarDate(d) && Ordinal(YmdOf(d).0, YmdOf(d).1, YmdOf(d).2) < today ==>
                  r == Failure("Cannot book appointments for past dates", PastDate))
  {
  }

  /**
   * With a doctor id given, the query is sent exactly when the stripped date is a
   * real `YYYY-MM-DD` date that is not before today.
   */
  lemma SlotQueryAcceptedIff(doctorId: string, date: string, today: DayNumber)
    requires Strip(doctorId) != ""
    ensures CheckSlotQuery(doctorId, date, today).Accepted? <==>
              IsCalendarDate(Strip(date))
              && Ordinal(YmdOf(Strip(date)).0, YmdOf(Strip(date)).1, YmdOf(Strip(date)).2) >= today
    ensures CheckSlotQuery(doctorId, date, today).Accepted? ==>
              CheckSlotQuery(doctorId, date, today) == Accepted(Strip(doctorId), Strip(date))
  {
  }

  /**
   * A date written by the model's own date reader for today or a later day passes
   * every date check: the slots query goes out for exactly that date.
   */
  lemma ReadDatesPassSlotChecks(doctorId: string, day: DayNumber, today: DayNumber, backend: (string, string) -> HttpOutcome)
    requires Strip(doctorId) != "" && today <= day
    ensures GetAvailableSlots(doctorId, IsoFormat(day), today, backend) == FetchSlots(Strip(doctorId), IsoFormat(day), backend)
  {
    var s := IsoFormat(day);
    IsoFormatRoundTrip(day);
    IsoShapeHasNoSpace(s);
    StripNothingToDrop(s, Whitespace);
    var ymd := FromOrdinal(day);
    assert YmdOf(s) == ymd;
    assert IsCalendarDate(s);
    SlotQueryAcceptedIff(doctorId, s, today);
  }

  /** A string of the ISO shape holds only digits and dashes: stripping leaves it whole. */
  lemma IsoShapeHasNoSpace(s: string)
    requires IsoShape(s)
    ensures forall i :: 0 <= i < |s| ==> s[i] !in Whitespace
  {
    forall i | 0 <= i < |s|
      ensures s[i] !in Whitespace
    {
      if i < 4 {
        assert s[..4][i] == s[i];
      } else if 4 < i < 7 {
        assert s[5..7][i - 5] == s[i];
      } else if 7 < i {
        assert s[8..][i - 8] == s[i];
      }
    }
  }
}
