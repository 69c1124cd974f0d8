/**
 * `AIAgentService` (service.py): one chat turn. `process_message` fetches or creates
 * the session, records the user's message, classifies it, runs the handler for the
 * intent (inside a try block that turns any exception into an apology), records the
 * reply and cuts the suggestions to four. The doctor search and the booking flow
 * write to the session store; everything else only computes the reply.
 *
 * The language model, the backend and `dateutil` are parameters (`Env`), and so is
 * the clock: one timestamp `now` and one calendar day `today` per turn.
 */
module Agent {
  import opened Wrappers
  import opened Text
  import opened Calendar
  import opened Conversation
  import opened Extraction
  import opened Gateway
  import opened Formatting
  import opened Triage
  import opened Intents

  /** The language model when one is configured: its reply to each kind of prompt, None where the call raises. */
  datatype Llm = Llm(
    classify: (string, string) -> Option<string>,  // intent prompt, for (message, recent conversation)
    triage: string -> Option<string>,              // triage prompt, for the symptoms
    answer: (string, string) -> Option<string>)    // general-answer prompt, for (message, recent conversation)

  /** Everything a turn depends on besides the store and the message. */
  datatype Env = Env(
    now: string,                                // `datetime.now().isoformat()`
    today: DayNumber,                           // `datetime.now().date()`
    dayFirst: string -> Option<DayNumber>,      // `dateutil.parser.parse(..., dayfirst=True)`
    llm: Option<Llm>,
    loads: string -> Option<Assessment>,        // `json.loads` in the triage service
    searchBackend: string -> HttpOutcome,       // GET /api/public/search
    slotsBackend: (string, string) -> HttpOutcome,  // GET /api/slots
    specialists: seq<Json>)                     // what `get_specialists` returns

  /** The dates the model covers: relative dates up to a week ahead must exist. */
  predicate Supported(env: Env)
  {
    env.today + 7 <= MaxOrdinal
  }

  /** `jwt_token` is truthy. */
  predicate LoggedIn(jwt: Option<string>)
  {
    jwt.Some? && jwt.value != ""
  }

  /** The `action_data` of a reply. */
  datatype Payload =
    | NoData
    | TriageResult(assessment: Assessment)
    | Doctors(doctors: seq<Json>)
    | Specialists(specialists: seq<Json>)
    | Slots(times: seq<string>, date: string)
    | ChosenTime(time: string)
    | BookingConfirmed

  /** What a handler produces: the reply text, its data and its quick-reply suggestions. */
  datatype Turn = Turn(text: string, data: Payload, suggestions: seq<string>)

  /** `ChatResponse` as `process_message` fills it. */
  datatype ChatResponse = ChatResponse(response: string, intent: Intent, data: Payload, suggestions: Option<seq<string>>)

  // ----- fixed replies -----

  const Apology := "I apologize, but I'm having trouble processing your request. Please try again or rephrase your question."
  const GreetingText := "Hello! \U{F0}\U{178}\U{2018}\U{2039} I'm your AI medical appointment assistant. I can help you with:\n\U{E2}\U{20AC}\U{A2} Finding and booking doctors\n\U{E2}\U{20AC}\U{A2} Checking doctor availability\n\U{E2}\U{20AC}\U{A2} Analyzing symptoms\n\U{E2}\U{20AC}\U{A2} Viewing your appointments\n\nHow can I assist you today?"
  const GreetingSuggestions := ["Find a doctor", "Book appointment", "Check symptoms", "View my appointments"]
  const SymptomSuggestions := ["Book appointment", "Find specialist", "Emergency help"]
  const GeneralSuggestions := ["Book appointment", "Find doctor", "Check symptoms"]
  const CancelPolicyText := "**Cancellation Policy:**\n\n\U{E2}\U{20AC}\U{A2} You can cancel your appointment up to 24 hours before the scheduled time for a full refund.\n\U{E2}\U{20AC}\U{A2} Cancellations made within 24 hours may be subject to a cancellation fee.\n\U{E2}\U{20AC}\U{A2} No-shows will be charged the full consultation fee.\n\U{E2}\U{20AC}\U{A2} Rescheduling is free if done at least 6 hours before the appointment.\n\nWould you like to cancel or reschedule an existing appointment?"
  const LoginToViewText := "Please log in to view your appointments."
  const ViewText := "To view your appointments, please go to the 'My Appointments' section in your account. You can also ask me to help you book, cancel, or reschedule appointments."
  const FarewellText := "Thank you for using our service! Take care and feel better soon. \U{F0}\U{178}\U{2018}\U{2039}\n\nIf you need any assistance in the future, I'm always here to help!"
  const NoModelAnswer := "I'm here to help you with booking appointments, finding doctors, and checking symptoms. How can I assist you?"
  const FailedModelAnswer := "I'm here to help you with booking appointments and finding doctors. Is there anything specific I can assist you with?"
  const SearchPrompt := "I'd be happy to help you find a doctor. Could you please tell me:\n\U{E2}\U{20AC}\U{A2} What specialty are you looking for? (e.g., Cardiologist, Dermatologist)\n\U{E2}\U{20AC}\U{A2} Or which city/location?"
  const NoDoctorsText := "I couldn't find any doctors at the moment. Please try again later."
  const LoginToBookText := "To book an appointment, you need to be logged in. Please log in to your account and try again."
  const DoctorPromptText := "To book an appointment, I need to know which doctor you'd like to see. You can search by specialty (e.g., 'cardiologist') or doctor name."
  const DatePromptText := "When would you like to schedule the appointment? You can say something like 'tomorrow', 'next Monday', or provide a specific date."
  const TimePromptText := "What time would you prefer? You can say something like '3:00 PM' or '15:00'."
  const DateSuggestions := ["Tomorrow", "Day after tomorrow", "Next week"]
  /** The bullet as the characters stand in service.py. */
  const Bullet := "\U{E2}\U{20AC}\U{A2} "

  const LoginTurn := Turn(LoginToBookText, NoData, ["Login", "Create account"])
  const DoctorPromptTurn := Turn(DoctorPromptText, NoData, ["Cardiologist", "Dermatologist", "Dentist"])
  const DatePromptTurn := Turn(DatePromptText, NoData, DateSuggestions)
  const TimePromptTurn := Turn(TimePromptText, NoData, [])

  // ----- the envelope of process_message -----

  /**
   * The response `process_message` builds from the intent and the handler's outcome
   * (None where the handler raised): the apology with no data on an exception, and
   * `suggestions[:4] if suggestions else None`.
   */
  function Envelope(intent: Intent, outcome: Option<Turn>): (r: ChatResponse)
    ensures r.intent == intent
    ensures r.suggestions.None? || 1 <= |r.suggestions.value| <= 4
    ensures outcome.None? ==> r == ChatResponse(Apology, intent, NoData, None)
    ensures outcome.Some? ==> r.response == outcome.value.text && r.data == outcome.value.data
    ensures outcome.Some? ==> (r.suggestions.None? <==> outcome.value.suggestions == [])
    ensures outcome.Some? && r.suggestions.Some? ==>
              r.suggestions.value <= outcome.value.suggestions
              && |r.suggestions.value| == if |outcome.value.suggestions| < 4 then |outcome.value.suggestions| else 4
  {
    match outcome
    case None => ChatResponse(Apology, intent, NoData, None)
    case Some(t) => ChatResponse(t.text, intent, t.data, if t.suggestions == [] then None else Some(Take(t.suggestions, 4)))
  }

  // ----- values shown in replies -----

  /** `str(v)` of a stored value; a list is shown as Python shows a list of strings. */
  function Shown(v: Value): string
  {
    match v
    case Str(s) => s
    case StrList(items) => "[" + Join(", ", seq(|items|, i requires 0 <= i < |items| => "'" + items[i] + "'")) + "]"
  }

  /** `str(ctx.get(key, default))` */
  function ShowOr(ctx: Context, key: string, default: string): string
  {
    if key in ctx then Shown(ctx[key]) else default
  }

  // ----- _handle_symptom_check -----

  function TriageModel(env: Env): Option<string -> Option<string>>
  {
    if env.llm.Some? then Some(env.llm.value.triage) else None
  }

  /**
   * `_handle_symptom_check` and the suggestions added for it; None where a key the reply
   * shows is missing from the assessment and the lookup raises.
   */
  function SymptomTurn(message: string, env: Env): (r: Option<Turn>)
    ensures r.Some? ==> r.value.data.TriageResult? && AssessmentKeys <= r.value.data.assessment.Keys
    ensures r.Some? <==> AssessmentKeys <= AnalyzeSymptoms(message, TriageModel(env), env.loads).Keys
  {
    var a := AnalyzeSymptoms(message, TriageModel(env), env.loads);
    if !(AssessmentKeys <= a.Keys) then None
    else
      var text := "**Symptom Analysis:**\n\n"
        + "\U{F0}\U{178}\U{201D} Urgency: " + a["urgency"] + "\n"
        + "\U{F0}\U{178}\U{2018}\U{A8}\U{E2}\U{20AC}\U{E2}\U{161}\U{2022}\U{EF}\U{B8} Recommended Specialty: " + a["recommended_specialty"] + "\n"
        + "\U{F0}\U{178}\U{2019}\U{A1} Advice: " + a["advice"] + "\n\n"
        + "_" + a["disclaimer"] + "_\n\n"
        + (if a["urgency"] != "EMERGENCY" then "Would you like me to help you find a specialist or book an appointment?" else "");
      Some(Turn(text, TriageResult(a), SymptomSuggestions))
  }

  /**
   * A symptom that the rule-based triage calls an emergency always gets an EMERGENCY
   * answer, with or without a model, and the answer can always be shown.
   */
  lemma EmergencySymptomsAnswered(message: string, env: Env)
    requires ContainsAny(ToLower(message), FallbackEmergencyKeywords)
    ensures SymptomTurn(message, env).Some?
    ensures SymptomTurn(message, env).value.data.assessment["urgency"] == "EMERGENCY"
  {
    FallbackEmergencyAlwaysEmergency(message, TriageModel(env), env.loads);
    if env.llm.Some? {
      FallbackKeywordsArePrefiltered();
      var k :| 0 <= k < |FallbackEmergencyKeywords| && Contains(ToLower(message), FallbackEmergencyKeywords[k]);
      var j :| 0 <= j < |PrefilterKeywords| && PrefilterKeywords[j] == FallbackEmergencyKeywords[k];
      assert ContainsAny(ToLower(message), PrefilterKeywords);
      assert AnalyzeSymptoms(message, TriageModel(env), env.loads) == EmergencyNotice;
    }
  }

  /** Without a model the symptom check never raises and reports one of the three levels. */
  lemma SymptomCheckWithoutModel(message: string, env: Env)
    requires env.llm.None?
    ensures SymptomTurn(message, env).Some?
    ensures SymptomTurn(message, env).value.data.assessment == FallbackTriage(message)
  {
  }

  // ----- _handle_doctor_search -----

  /** The listing entry of doctor number n. */
  function DoctorEntry(n: nat, doc: Json): string
  {
    NatToString(n) + ". Dr. " + Field(doc, "firstName", "") + " " + Field(doc, "lastName", "")
    + "\n   Specialty: " + Field(doc, "specialist", "N/A")
    + "\n   Experience: " + Field(doc, "experience", "N/A")
    + " years\n   Fee: \U{E2}\U{201A}\U{B9}" + Field(doc, "consultationFee", "N/A")
    + "\n   Location: " + Field(doc, "clinicName", "N/A") + ", " + Field(doc, "city", "N/A") + "\n\n"
  }

  /** The entries of `docs`, numbered from `first`, built as the listing loop builds them: each entry appended after the earlier ones. */
  function DoctorEntries(docs: seq<Json>, first: nat): string
  {
    if docs == [] then "" else DoctorEntries(docs[..|docs| - 1], first) + DoctorEntry(first + |docs| - 1, docs[|docs| - 1])
  }

  /** Adding one more doctor adds its entry, with the next number, at the end. */
  lemma DoctorEntriesSnoc(docs: seq<Json>, doc: Json, first: nat)
    ensures DoctorEntries(docs + [doc], first) == DoctorEntries(docs, first) + DoctorEntry(first + |docs|, doc)
  {
    assert (docs + [doc])[..|docs|] == docs;
  }

  /** One step of the listing loop: the prefix of `shown` grows by its next doctor. */
  lemma EntriesStep(shown: seq<Json>, i: nat)
    requires i < |shown|
    ensures DoctorEntries(shown[..i + 1], 1) == DoctorEntries(shown[..i], 1) + DoctorEntry(i + 1, shown[i])
  {
    assert shown[..i + 1] == shown[..i] + [shown[i]];
    DoctorEntriesSnoc(shown[..i], shown[i], 1);
  }

  /** The note about the doctors not listed. */
  function MoreNote(total: nat): (r: string)
    ensures r == "" <==> total <= 5
  {
    if total > 5 then "...and " + NatToString(total - 5) + " more.\n\n" else ""
  }

  function ListingHeader(total: nat, keyword: string): string
  {
    "I found " + NatToString(total) + " doctor(s) for '" + keyword + "':\n\n"
  }

  /** The whole listing reply for the doctors found. */
  function ListingText(keyword: string, doctors: seq<Json>): string
  {
    ListingHeader(|doctors|, keyword) + DoctorEntries(Take(doctors, 5), 1) + MoreNote(|doctors|) + BookOffer
  }

  const BookOffer := "Would you like to book an appointment with any of these doctors?"

  /** `[d['doctorId'] for d in docs]`; None where a doctor has no `doctorId` and the lookup raises. */
  function DoctorIds(docs: seq<Json>): (r: Option<seq<string>>)
    ensures r.Some? <==> forall i | 0 <= i < |docs| :: "doctorId" in docs[i]
    ensures r.Some? ==> |r.value| == |docs| && forall i | 0 <= i < |docs| :: r.value[i] == docs[i]["doctorId"]
  {
    if forall i | 0 <= i < |docs| :: "doctorId" in docs[i]
    then Some(seq(|docs|, i requires 0 <= i < |docs| => docs[i]["doctorId"]))
    else None
  }

  /** `[s.get('specialist', '') for s in specialists[:10]]` */
  function SpecialtyNames(specialists: seq<Json>): (r: seq<string>)
    ensures |r| == if |specialists| < 10 then |specialists| else 10
    ensures forall i | 0 <= i < |r| :: r[i] == Field(specialists[i], "specialist", "")
  {
    var shown := Take(specialists, 10);
    seq(|shown|, i requires 0 <= i < |shown| => Field(shown[i], "specialist", ""))
  }

  function Bulleted(names: seq<string>): seq<string>
  {
    seq(|names|, i requires 0 <= i < |names| => Bullet + names[i])
  }

  /** `[f"Book with Dr. {d.get('lastName', '')}" for d in docs]` */
  function BookWith(docs: seq<Json>): (r: seq<string>)
    ensures |r| == |docs|
  {
    seq(|docs|, i requires 0 <= i < |docs| => "Book with Dr. " + Field(docs[i], "lastName", ""))
  }

  /** The reply to a failed search: the specialties on offer when nothing matched, else the error. */
  function SearchFailedTurn(found: Lookup<Json>, specialists: seq<Json>): (r: Turn)
    ensures |r.suggestions| <= 4
    ensures r.data.Specialists? <==> found.errorCode == Some(NotFound)
  {
    if found.errorCode == Some(NotFound) then
      var names := SpecialtyNames(specialists);
      var text := found.message + ". Here are some available specialties:\n" + Join("\n", Bulleted(names))
                  + "\n\nWhich specialty would you like?";
      Turn(text, Specialists(specialists), Take(names, 4))
    else Turn(found.message, NoData, ["Try again", "Browse specialties"])
  }

  /** A doctor search's reply (None where it raised) and the doctor ids it stores in the session, if any. */
  datatype SearchResult = SearchResult(turn: Option<Turn>, remember: Option<seq<string>>)

  /** `_handle_doctor_search` as a function of the message and the backend. */
  function DoctorSearch(message: string, env: Env): (r: SearchResult)
    ensures ExtractSearchKeyword(message) == "" ==> r == SearchResult(Some(Turn(SearchPrompt, NoData, [])), None)
    ensures r.remember.Some? ==> r.turn.Some? && r.turn.value.data.Doctors? && SearchDoctors(ExtractSearchKeyword(message), env.searchBackend).success
  {
    var keyword := ExtractSearchKeyword(message);
    if keyword == "" then SearchResult(Some(Turn(SearchPrompt, NoData, [])), None)
    else FoundResult(keyword, SearchDoctors(keyword, env.searchBackend), env.specialists)
  }

  /** The part of `_handle_doctor_search` after the backend answered the search for `keyword`. */
  function FoundResult(keyword: string, found: Lookup<Json>, specialists: seq<Json>): SearchResult
  {
    if !found.success then SearchResult(Some(SearchFailedTurn(found, specialists)), None)
    else if found.data == [] then SearchResult(Some(Turn(NoDoctorsText, NoData, [])), None)
    else
      var shown := Take(found.data, 5);
      match DoctorIds(shown)
      case None => SearchResult(None, None)
      case Some(ids) => SearchResult(Some(Turn(ListingText(keyword, found.data), Doctors(shown), BookWith(Take(found.data, 3)))), Some(ids))
  }

  /** The bounds of `DoctorSearchBounds`, for any answer of the backend. */
  lemma FoundResultBounds(keyword: string, found: Lookup<Json>, specialists: seq<Json>)
    ensures var r := FoundResult(keyword, found, specialists);
            && (r.turn.Some? ==> |r.turn.value.suggestions| <= 4)
            && (r.turn.Some? ==> r.turn.value.data.NoData? || r.turn.value.data.Specialists? || r.turn.value.data.Doctors?)
            && (r.remember.Some? <==> r.turn.Some? && r.turn.value.data.Doctors?)
            && (r.remember.Some? ==>
                  var shown := r.turn.value.data.doctors;
                  1 <= |shown| <= 5 && shown == Take(found.data, 5)
                  && |r.turn.value.suggestions| == |Take(found.data, 3)|
                  && r.remember.value == DoctorIds(shown).value
                  && r.turn.value.text == ListingText(keyword, found.data))
  {
    if !found.success {
      var t := SearchFailedTurn(found, specialists);
      assert t.data.Specialists? || t.data.NoData?;
    }
  }

  /**
   * A listing shows the first one to five doctors the backend returned, in its order,
   * offers one "Book with" suggestion for each of the first three, and stores exactly the
   * ids of the doctors shown; nothing else is stored, and no reply offers more than four
   * suggestions.
   */
  lemma DoctorSearchBounds(message: string, env: Env)
    ensures var r := DoctorSearch(message, env);
            && (r.turn.Some? ==> |r.turn.value.suggestions| <= 4)
            && (r.turn.Some? ==> r.turn.value.data.NoData? || r.turn.value.data.Specialists? || r.turn.value.data.Doctors?)
            && (r.remember.Some? <==> r.turn.Some? && r.turn.value.data.Doctors?)
            && (r.remember.Some? ==>
                  var keyword := ExtractSearchKeyword(message);
                  var all := SearchDoctors(keyword, env.searchBackend).data;
                  var shown := r.turn.value.data.doctors;
                  1 <= |shown| <= 5 && shown == Take(all, 5)
                  && |r.turn.value.suggestions| == |Take(all, 3)|
                  && r.remember.value == DoctorIds(shown).value
                  && r.turn.value.text == ListingText(keyword, all))
  {
    var keyword := ExtractSearchKeyword(message);
    if keyword != "" {
      FoundResultBounds(keyword, SearchDoctors(keyword, env.searchBackend), env.specialists);
    }
  }

  /** The storage after the doctor ids, if any, are written into a user's session. */
  function Remembered(st: Storage, u: string, ids: Option<seq<string>>, now: string): Storage
  {
    if ids.Some? then AfterUpdateContext(st, u, map["available_doctors" := StrList(ids.value)], now) else st
  }

  // ----- the booking flow -----

  /** The booking step chosen from the session context. */
  datatype Step = PickDoctor | PickDate | PickTime | ConfirmDetails

  /** The first of `doctor_id`, `date`, `time` that is missing or falsy decides the step. */
  function NextStep(ctx: Context): (s: Step)
    ensures s == PickDoctor <==> !Filled(ctx, "doctor_id")
    ensures s == PickDate <==> Filled(ctx, "doctor_id") && !Filled(ctx, "date")
    ensures s == PickTime <==> Filled(ctx, "doctor_id") && Filled(ctx, "date") && !Filled(ctx, "time")
    ensures s == ConfirmDetails <==> Filled(ctx, "doctor_id") && Filled(ctx, "date") && Filled(ctx, "time")
  {
    if !Filled(ctx, "doctor_id") then PickDoctor
    else if !Filled(ctx, "date") then PickDate
    else if !Filled(ctx, "time") then PickTime
    else ConfirmDetails
  }

  /** `context.get("user_id", "")`, the user the booking's doctor search writes under. */
  function ContextUser(ctx: Context): string
  {
    ShowOr(ctx, "user_id", "")
  }

  /** `_booking_step_select_date`; None where `doctor_id` is a list and `strip()` raises, or the slots cannot be formatted. */
  function DateStep(message: string, ctx: Context, env: Env): (r: Option<Turn>)
    requires Supported(env)
    ensures ParseDateFromText(message, env.today, env.dayFirst).None? || !Filled(ctx, "doctor_id") ==> r == Some(DatePromptTurn)
    ensures r.Some? && r.value.data.Slots? ==> r.value.data.date == ParseDateFromText(message, env.today, env.dayFirst).value && r.value.data.times != []
  {
    var date := ParseDateFromText(message, env.today, env.dayFirst);
    if date.None? || !Filled(ctx, "doctor_id") then Some(DatePromptTurn)
    else if ctx["doctor_id"].StrList? then None
    else
      var d := date.value;
      var slots := GetAvailableSlots(ctx["doctor_id"].s, d, env.today, env.slotsBackend);
      if !slots.success then
        if slots.errorCode == Some(PastDate) then
          Some(Turn(slots.message + " Please select a future date.", NoData, DateSuggestions))
        else if slots.errorCode == Some(NoSlotsFound) then
          Some(Turn("Sorry, no slots available on " + d + ". Would you like to try another date?", NoData, DateSuggestions))
        else
          Some(Turn(slots.message + ". Would you like to try another date?", NoData, ["Tomorrow", "Try again"]))
      else if slots.data == [] then
        Some(Turn("Sorry, no slots available on " + d + ". Would you like to try another date?", NoData, DateSuggestions))
      else
        match FormatAvailableSlots(slots.data)
        case None => None
        case Some(formatted) =>
          Some(Turn("Great! Here are available time slots for " + d + ":\n\n" + formatted + "\n\nWhich time works best for you?",
                    Slots(slots.data, d), []))
  }

  /** `_booking_step_select_time` */
  function TimeStep(message: string, ctx: Context): (r: Turn)
    ensures ParseTimeFromText(message).None? <==> r == TimePromptTurn
    ensures ParseTimeFromText(message).Some? ==> r.data == ChosenTime(ParseTimeFromText(message).value) && r.suggestions == ["Confirm", "Cancel"]
  {
    match ParseTimeFromText(message)
    case None => TimePromptTurn
    case Some(time) =>
      Turn("Perfect! Let me confirm your appointment:\n\n\U{F0}\U{178}\U{201C}\U{2026} Date: " + ShowOr(ctx, "date", "None")
           + "\n\U{F0}\U{178}\U{2022} Time: " + time
           + "\n\U{F0}\U{178}\U{2018}\U{A8}\U{E2}\U{20AC}\U{E2}\U{161}\U{2022}\U{EF}\U{B8} Doctor: " + ShowOr(ctx, "doctor_name", "Selected doctor")
           + "\n\nPlease confirm to book this appointment.",
           ChosenTime(time), ["Confirm", "Cancel"])
  }

  /** `_booking_step_confirm`: a confirmation message only; nothing is booked or cleared. */
  function ConfirmStep(ctx: Context): (r: Turn)
    ensures r.data == BookingConfirmed && r.suggestions == ["View appointments", "Book another"]
  {
    Turn("\U{E2}\U{153}\U{2026} Your appointment has been booked successfully!\n\n\U{F0}\U{178}\U{201C}\U{2026} Date: " + ShowOr(ctx, "date", "None")
         + "\n\U{F0}\U{178}\U{2022} Time: " + ShowOr(ctx, "time", "None")
         + "\n\U{F0}\U{178}\U{2018}\U{A8}\U{E2}\U{20AC}\U{E2}\U{161}\U{2022}\U{EF}\U{B8} Doctor: " + ShowOr(ctx, "doctor_name", "Doctor")
         + "\n\nYou will receive a confirmation email and SMS shortly. You can view all your appointments in 'My Appointments'.",
         BookingConfirmed, ["View appointments", "Book another"])
  }

  /** What `extract_booking_info` finds in the message for this session. */
  function BookingInfo(message: string, session: Session, env: Env): Context
    requires Supported(env)
  {
    ExtractBookingInfo(message, session.context, env.today, env.dayFirst)
  }

  /** The context the booking flow dispatches on: the session's context with the extracted slots merged in. */
  function MergedContext(message: string, session: Session, env: Env): Context
    requires Supported(env)
  {
    session.context + BookingInfo(message, session, env)
  }

  /** The storage after the extracted slots are merged (only when something was extracted). */
  function AfterMerge(st: Storage, u: string, message: string, session: Session, env: Env): Storage
    requires Supported(env)
  {
    var info := BookingInfo(message, session, env);
    if info == map[] then st else AfterUpdateContext(st, u, info, env.now)
  }

  /** `_handle_booking_flow`: the reply (None where it raised). */
  function BookingTurn(message: string, session: Session, jwt: Option<string>, env: Env): (r: Option<Turn>)
    requires Supported(env)
    ensures !LoggedIn(jwt) ==> r == Some(LoginTurn)
    ensures r.None? ==> LoggedIn(jwt) && (NextStep(MergedContext(message, session, env)).PickDoctor? || NextStep(MergedContext(message, session, env)).PickDate?)
  {
    if !LoggedIn(jwt) then Some(LoginTurn) else StepTurn(message, MergedContext(message, session, env), env)
  }

  /** The reply of the booking step the merged context selects. */
  function StepTurn(message: string, ctx: Context, env: Env): (r: Option<Turn>)
    requires Supported(env)
    ensures r.None? ==> NextStep(ctx).PickDoctor? || NextStep(ctx).PickDate?
    ensures NextStep(ctx) == ConfirmDetails ==> r.Some? && r.value.data == BookingConfirmed
  {
    match NextStep(ctx)
    case PickDoctor => if ExtractSearchKeyword(message) == "" then Some(DoctorPromptTurn) else DoctorSearch(message, env).turn
    case PickDate => DateStep(message, ctx, env)
    case PickTime => Some(TimeStep(message, ctx))
    case ConfirmDetails => Some(ConfirmStep(ctx))
  }

  /** `_handle_booking_flow`: the storage afterwards. */
  function BookingStore(st: Storage, u: string, message: string, session: Session, jwt: Option<string>, env: Env): Storage
    requires Supported(env)
  {
    if !LoggedIn(jwt) then st
    else
      var merged := AfterMerge(st, u, message, session, env);
      var ctx := MergedContext(message, session, env);
      if NextStep(ctx) == PickDoctor && ExtractSearchKeyword(message) != "" then
        Remembered(merged, ContextUser(ctx), DoctorSearch(message, env).remember, env.now)
      else merged
  }

  /** Without a token the booking flow asks to log in and touches nothing. */
  lemma BookingNeedsLogin(st: Storage, u: string, message: string, session: Session, jwt: Option<string>, env: Env)
    requires Supported(env) && !LoggedIn(jwt)
    ensures BookingTurn(message, session, jwt, env) == Some(LoginTurn)
    ensures BookingStore(st, u, message, session, jwt, env) == st
  {
  }

  /**
   * Whatever the flow's step, a date or time already in the context is never replaced,
   * and an empty one is filled with what the message yields; once all three slots are
   * set the flow only confirms: nothing beyond the merge is written.
   */
  lemma BookingMergesBeforeDispatch(st: Storage, u: string, message: string, session: Session, jwt: Option<string>, env: Env)
    requires Supported(env) && LoggedIn(jwt)
    ensures var ctx := MergedContext(message, session, env);
            (forall k :: Filled(session.context, k) ==> k in ctx && ctx[k] == session.context[k])
            && (!Filled(session.context, "date") ==>
                  (Filled(ctx, "date") <==> ParseDateFromText(message, env.today, env.dayFirst).Some?))
            && (!Filled(session.context, "time") ==> (Filled(ctx, "time") <==> ParseTimeFromText(message).Some?))
            && (NextStep(ctx) != PickDoctor ==> BookingStore(st, u, message, session, jwt, env) == AfterMerge(st, u, message, session, env))
  {
    ExtractionFillsOnlyEmptySlots(message, session.context, env.today, env.dayFirst);
  }

  /**
   * The date step can never use a date from the message that reached it: if the date
   * slot is still empty after the merge, the same parse already failed.
   */
  lemma DateStepNeverFindsDate(message: string, session: Session, env: Env)
    requires Supported(env)
    requires NextStep(MergedContext(message, session, env)) == PickDate
    ensures DateStep(message, MergedContext(message, session, env), env) == Some(DatePromptTurn)
  {
    ExtractionFillsOnlyEmptySlots(message, session.context, env.today, env.dayFirst);
  }

  /** Likewise the time step only ever asks for a time. */
  lemma TimeStepNeverFindsTime(message: string, session: Session, env: Env)
    requires Supported(env)
    requires NextStep(MergedContext(message, session, env)) == PickTime
    ensures TimeStep(message, MergedContext(message, session, env)) == TimePromptTurn
  {
    ExtractionFillsOnlyEmptySlots(message, session.context, env.today, env.dayFirst);
  }

  // ----- the keys the agent ever writes into a context -----

  const AgentContextKeys: set<string> := {"date", "time", "available_doctors"}

  /** Every stored session's context holds only keys the agent writes. */
  predicate AgentContexts(st: Storage)
  {
    forall k | k in st && st[k].SessionRecord? :: st[k].session.context.Keys <= AgentContextKeys
  }

  /** A merge of agent keys keeps the property. */
  lemma UpdateKeepsAgentContexts(st: Storage, u: string, updates: Context, now: string)
    requires AgentContexts(st) && updates.Keys <= AgentContextKeys
    ensures AgentContexts(AfterUpdateContext(st, u, updates, now))
  {
    var s := SessionOf(st, u, now);
    assert s.context.Keys <= AgentContextKeys by {
      if StoredSession(st, u).Some? {
        assert st[SessionKey(u)].SessionRecord?;
      }
    }
  }

  lemma RememberedKeepsAgentContexts(st: Storage, u: string, ids: Option<seq<string>>, now: string)
    requires AgentContexts(st)
    ensures AgentContexts(Remembered(st, u, ids, now))
  {
    if ids.Some? {
      UpdateKeepsAgentContexts(st, u, map["available_doctors" := StrList(ids.value)], now);
    }
  }

  /**
   * With only agent keys in the store, no context ever has a `doctor_id`, so the booking
   * flow stops at the doctor step, and its doctor search writes under the user "".
   */
  lemma BookingNeverPassesDoctorStep(st: Storage, u: string, message: string, session: Session, env: Env)
    requires Supported(env) && AgentContexts(st) && StoredSession(st, u) == Some(session)
    ensures NextStep(MergedContext(message, session, env)) == PickDoctor
    ensures ContextUser(MergedContext(message, session, env)) == ""
  {
    assert st[SessionKey(u)].SessionRecord?;
    var ctx := MergedContext(message, session, env);
    assert "doctor_id" !in ctx && "user_id" !in ctx;
  }

  /** So with only agent keys in the store, a booking reply never offers slots, a time or a confirmation. */
  lemma BookingNeverConfirms(st: Storage, u: string, message: string, session: Session, jwt: Option<string>, env: Env)
    requires Supported(env) && AgentContexts(st) && StoredSession(st, u) == Some(session)
    ensures var r := BookingTurn(message, session, jwt, env);
            r.Some? ==> r.value.data.NoData? || r.value.data.Specialists? || r.value.data.Doctors?
  {
    BookingNeverPassesDoctorStep(st, u, message, session, env);
    DoctorSearchBounds(message, env);
  }

  lemma BookingKeepsAgentContexts(st: Storage, u: string, message: string, session: Session, jwt: Option<string>, env: Env)
    requires Supported(env) && AgentContexts(st)
    ensures AgentContexts(BookingStore(st, u, message, session, jwt, env))
  {
    if LoggedIn(jwt) {
      var info := BookingInfo(message, session, env);
      if info != map[] {
        UpdateKeepsAgentContexts(st, u, info, env.now);
      }
      var merged := AfterMerge(st, u, message, session, env);
      var ctx := MergedContext(message, session, env);
      RememberedKeepsAgentContexts(merged, ContextUser(ctx), DoctorSearch(message, env).remember, env.now);
    }
  }

  // ----- dispatch -----

  function ClassifierOf(env: Env): Option<(string, string) -> Option<string>>
  {
    if env.llm.Some? then Some(env.llm.value.classify) else None
  }

  /** `_generate_general_response` */
  function GeneralAnswer(message: string, recent: string, env: Env): string
  {
    if env.llm.None? then NoModelAnswer
    else
      match env.llm.value.answer(message, recent)
      case None => FailedModelAnswer
      case Some(reply) => Strip(reply)
  }

  /** The handler's outcome for an intent, suggestions included; None where it raised. */
  function HandlerOutcome(intent: Intent, message: string, session: Session, recent: string, jwt: Option<string>, env: Env): Option<Turn>
    requires Supported(env)
  {
    match intent
    case SearchDoctor => DoctorSearch(message, env).turn
    case CheckAvailability => DoctorSearch(message, env).turn
    case BookAppointment => BookingTurn(message, session, jwt, env)
    case _ => Reply(intent, message, recent, jwt, env)
  }

  /** The handlers that only answer: everything but the doctor search and the booking flow. */
  function Reply(intent: Intent, message: string, recent: string, jwt: Option<string>, env: Env): Option<Turn>
    requires Supported(env)
  {
    match intent
    case Greeting => Some(Turn(GreetingText, NoData, GreetingSuggestions))
    case SymptomCheck => SymptomTurn(message, env)
    case CancelPolicy => Some(Turn(CancelPolicyText, NoData, []))
    case ViewAppointments => Some(Turn(if LoggedIn(jwt) then ViewText else LoginToViewText, NoData, []))
    case Farewell => Some(Turn(FarewellText, NoData, []))
    case _ => Some(Turn(GeneralAnswer(message, recent, env), NoData, GeneralSuggestions))
  }

  /** The storage after the handler for an intent. */
  function HandlerStore(intent: Intent, st: Storage, u: string, message: string, session: Session, jwt: Option<string>, env: Env): Storage
    requires Supported(env)
  {
    match intent
    case SearchDoctor => Remembered(st, session.userId, DoctorSearch(message, env).remember, env.now)
    case CheckAvailability => Remembered(st, session.userId, DoctorSearch(message, env).remember, env.now)
    case BookAppointment => BookingStore(st, u, message, session, jwt, env)
    case Farewell => st - {SessionKey(u)}
    case _ => st
  }

  // ----- one turn -----

  function UserMessage(message: string, env: Env): Message
  {
    Message("user", message, env.now, map[])
  }

  function AssistantMessage(text: string, env: Env): Message
  {
    Message("assistant", text, env.now, map[])
  }

  /** The storage once the session exists and the user's message is recorded. */
  function AfterUserMessage(st: Storage, u: string, message: string, env: Env): Storage
  {
    AfterAddMessage(AfterGetSession(st, u, env.now), u, UserMessage(message, env))
  }

  /** The recent conversation the classifier sees: `get_context_string(user_id, limit=5)`. */
  function RecentText(st: Storage, u: string, message: string, env: Env): string
  {
    ContextText(Take(StoredHistory(AfterUserMessage(st, u, message, env), u), 5))
  }

  function TurnIntent(st: Storage, u: string, message: string, env: Env): Intent
  {
    ClassifyIntent(message, RecentText(st, u, message, env), ClassifierOf(env))
  }

  /** The response of `process_message`. */
  function TurnResponse(st: Storage, u: string, message: string, jwt: Option<string>, env: Env): ChatResponse
    requires Supported(env)
  {
    var intent := TurnIntent(st, u, message, env);
    Envelope(intent, HandlerOutcome(intent, message, SessionOf(st, u, env.now), RecentText(st, u, message, env), jwt, env))
  }

  /** The storage after `process_message`. */
  function TurnStore(st: Storage, u: string, message: string, jwt: Option<string>, env: Env): Storage
    requires Supported(env)
  {
    var intent := TurnIntent(st, u, message, env);
    var handled := HandlerStore(intent, AfterUserMessage(st, u, message, env), u, message, SessionOf(st, u, env.now), jwt, env);
    AfterAddMessage(handled, u, AssistantMessage(TurnResponse(st, u, message, jwt, env).response, env))
  }

  // ----- what a turn does to the store -----

  /** Writing a session record changes nobody's history. */
  lemma UpdateKeepsHistories(st: Storage, u: string, updates: Context, now: string)
    ensures forall v :: StoredHistory(AfterUpdateContext(st, u, updates, now), v) == StoredHistory(st, v)
  {
    forall v
      ensures StoredHistory(AfterUpdateContext(st, u, updates, now), v) == StoredHistory(st, v)
    {
      KeysNeverCollide(u, v);
    }
  }

  lemma HandlerKeepsHistories(intent: Intent, st: Storage, u: string, message: string, session: Session, jwt: Option<string>, env: Env)
    requires Supported(env)
    ensures forall v :: StoredHistory(HandlerStore(intent, st, u, message, session, jwt, env), v) == StoredHistory(st, v)
  {
    match intent
    case SearchDoctor => RememberedKeepsHistories(st, session.userId, DoctorSearch(message, env).remember, env.now);
    case CheckAvailability => RememberedKeepsHistories(st, session.userId, DoctorSearch(message, env).remember, env.now);
    case BookAppointment => BookingKeepsHistories(st, u, message, session, jwt, env);
    case Farewell =>
      forall v
        ensures StoredHistory(st - {SessionKey(u)}, v) == StoredHistory(st, v)
      {
        KeysNeverCollide(u, v);
      }
    case _ =>
  }

  lemma RememberedKeepsHistories(st: Storage, u: string, ids: Option<seq<string>>, now: string)
    ensures forall v :: StoredHistory(Remembered(st, u, ids, now), v) == StoredHistory(st, v)
  {
    if ids.Some? {
      UpdateKeepsHistories(st, u, map["available_doctors" := StrList(ids.value)], now);
    }
  }

  lemma BookingKeepsHistories(st: Storage, u: string, message: string, session: Session, jwt: Option<string>, env: Env)
    requires Supported(env)
    ensures forall v :: StoredHistory(BookingStore(st, u, message, session, jwt, env), v) == StoredHistory(st, v)
  {
    var info := BookingInfo(message, session, env);
    UpdateKeepsHistories(st, u, info, env.now);
    var merged := AfterMerge(st, u, message, session, env);
    var ctx := MergedContext(message, session, env);
    RememberedKeepsHistories(merged, ContextUser(ctx), DoctorSearch(message, env).remember, env.now);
  }

  /**
   * A turn adds exactly two entries to the user's history, the user's message and then
   * the reply as returned (the apology included), and leaves every other history as it was.
   */
  lemma TurnAppendsTwoMessages(st: Storage, u: string, message: string, jwt: Option<string>, env: Env)
    requires Supported(env)
    ensures StoredHistory(TurnStore(st, u, message, jwt, env), u)
            == PushMessage(PushMessage(StoredHistory(st, u), UserMessage(message, env)),
                           AssistantMessage(TurnResponse(st, u, message, jwt, env).response, env))
    ensures forall v | v != u :: StoredHistory(TurnStore(st, u, message, jwt, env), v) == StoredHistory(st, v)
  {
    var st1 := AfterGetSession(st, u, env.now);
    forall v
      ensures StoredHistory(st1, v) == StoredHistory(st, v)
    {
      KeysNeverCollide(u, v);
    }
    var st2 := AfterUserMessage(st, u, message, env);
    forall v | v != u
      ensures StoredHistory(st2, v) == StoredHistory(st1, v)
    {
      KeysInjective(u, v);
    }
    var intent := TurnIntent(st, u, message, env);
    HandlerKeepsHistories(intent, st2, u, message, SessionOf(st, u, env.now), jwt, env);
    var st3 := HandlerStore(intent, st2, u, message, SessionOf(st, u, env.now), jwt, env);
    forall v | v != u
      ensures StoredHistory(TurnStore(st, u, message, jwt, env), v) == StoredHistory(st3, v)
    {
      KeysInjective(u, v);
    }
  }

  /** A farewell removes the user's session but keeps the history, now with the farewell exchange in it. */
  lemma FarewellEndsSession(st: Storage, u: string, message: string, jwt: Option<string>, env: Env)
    requires Supported(env) && TurnIntent(st, u, message, env) == Farewell
    ensures StoredSession(TurnStore(st, u, message, jwt, env), u) == None
    ensures |StoredHistory(TurnStore(st, u, message, jwt, env), u)| >= 2
    ensures StoredHistory(TurnStore(st, u, message, jwt, env), u)[0] == AssistantMessage(FarewellText, env)
  {
    TurnAppendsTwoMessages(st, u, message, jwt, env);
    KeysNeverCollide(u, u);
  }

  /** Any other turn leaves the user with a session. */
  lemma OtherTurnsKeepSession(st: Storage, u: string, message: string, jwt: Option<string>, env: Env)
    requires Supported(env) && TurnIntent(st, u, message, env) != Farewell
    ensures StoredSession(TurnStore(st, u, message, jwt, env), u).Some?
  {
    KeysNeverCollide(u, u);
    var st2 := AfterUserMessage(st, u, message, env);
    assert StoredSession(st2, u).Some?;
    var intent := TurnIntent(st, u, message, env);
    var session := SessionOf(st, u, env.now);
    HandlerKeepsSession(intent, st2, u, message, session, jwt, env);
    var st3 := HandlerStore(intent, st2, u, message, session, jwt, env);
    AddMessageKeepsSessions(st3, u, AssistantMessage(TurnResponse(st, u, message, jwt, env).response, env));
  }

  /** Recording a message leaves every session as it was. */
  lemma AddMessageKeepsSessions(st: Storage, u: string, m: Message)
    ensures forall v :: StoredSession(AfterAddMessage(st, u, m), v) == StoredSession(st, v)
  {
    forall v
      ensures StoredSession(AfterAddMessage(st, u, m), v) == StoredSession(st, v)
    {
      KeysNeverCollide(v, u);
    }
  }

  lemma UpdateKeepsSession(st: Storage, u: string, w: string, updates: Context, now: string)
    requires StoredSession(st, u).Some?
    ensures StoredSession(AfterUpdateContext(st, w, updates, now), u).Some?
  {
  }

  /** Only the farewell handler removes the session. */
  lemma HandlerKeepsSession(intent: Intent, st: Storage, u: string, message: string, session: Session, jwt: Option<string>, env: Env)
    requires Supported(env) && intent != Farewell && StoredSession(st, u).Some?
    ensures StoredSession(HandlerStore(intent, st, u, message, session, jwt, env), u).Some?
  {
    match intent
    case SearchDoctor => RememberedKeepsSession(st, u, session.userId, DoctorSearch(message, env).remember, env.now);
    case CheckAvailability => RememberedKeepsSession(st, u, session.userId, DoctorSearch(message, env).remember, env.now);
    case BookAppointment => BookingKeepsSession(st, u, message, session, jwt, env);
    case _ =>
  }

  lemma RememberedKeepsSession(st: Storage, u: string, w: string, ids: Option<seq<string>>, now: string)
    requires StoredSession(st, u).Some?
    ensures StoredSession(Remembered(st, w, ids, now), u).Some?
  {
    if ids.Some? {
      UpdateKeepsSession(st, u, w, map["available_doctors" := StrList(ids.value)], now);
    }
  }

  lemma BookingKeepsSession(st: Storage, u: string, message: string, session: Session, jwt: Option<string>, env: Env)
    requires Supported(env) && StoredSession(st, u).Some?
    ensures StoredSession(BookingStore(st, u, message, session, jwt, env), u).Some?
  {
    UpdateKeepsSession(st, u, u, BookingInfo(message, session, env), env.now);
    var merged := AfterMerge(st, u, message, session, env);
    assert StoredSession(merged, u).Some?;
    RememberedKeepsSession(merged, u, ContextUser(MergedContext(message, session, env)), DoctorSearch(message, env).remember, env.now);
  }

  /** Creating a session and recording messages keep the store's contexts to the agent's keys. */
  lemma UserMessageKeepsAgentContexts(st: Storage, u: string, message: string, env: Env)
    requires AgentContexts(st)
    ensures AgentContexts(AfterUserMessage(st, u, message, env))
  {
    var st1 := AfterGetSession(st, u, env.now);
    assert AgentContexts(st1);
    AddMessageKeepsAgentContexts(st1, u, UserMessage(message, env));
  }

  lemma AddMessageKeepsAgentContexts(st: Storage, u: string, m: Message)
    requires AgentContexts(st)
    ensures AgentContexts(AfterAddMessage(st, u, m))
  {
  }

  lemma HandlerKeepsAgentContexts(intent: Intent, st: Storage, u: string, message: string, session: Session, jwt: Option<string>, env: Env)
    requires Supported(env) && AgentContexts(st)
    ensures AgentContexts(HandlerStore(intent, st, u, message, session, jwt, env))
  {
    RememberedKeepsAgentContexts(st, session.userId, DoctorSearch(message, env).remember, env.now);
    BookingKeepsAgentContexts(st, u, message, session, jwt, env);
  }

  /** A turn keeps the store's contexts to the keys the agent writes. */
  lemma TurnKeepsAgentContexts(st: Storage, u: string, message: string, jwt: Option<string>, env: Env)
    requires Supported(env) && AgentContexts(st)
    ensures AgentContexts(TurnStore(st, u, message, jwt, env))
  {
    UserMessageKeepsAgentContexts(st, u, message, env);
    var st2 := AfterUserMessage(st, u, message, env);
    var intent := TurnIntent(st, u, message, env);
    var session := SessionOf(st, u, env.now);
    HandlerKeepsAgentContexts(intent, st2, u, message, session, jwt, env);
    var st3 := HandlerStore(intent, st2, u, message, session, jwt, env);
    AddMessageKeepsAgentContexts(st3, u, AssistantMessage(TurnResponse(st, u, message, jwt, env).response, env));
  }

  // ----- the service -----

  class AgentService {
    const manager: ConversationManager

    ghost predicate Valid()
      reads this, manager
    {
      manager.Valid()
    }

    constructor ()
      ensures Valid() && fresh(manager) && manager.storage == map[]
    {
      manager := new ConversationManager();
    }

    /** The listing reply, built entry by entry as the handler's loop does. */
    static method RenderListing(keyword: string, doctors: seq<Json>) returns (response: string)
      ensures response == ListingText(keyword, doctors)
    {
      var header := ListingHeader(|doctors|, keyword);
      var entries := RenderEntries(Take(doctors, 5));
      response := header + entries + MoreNote(|doctors|) + BookOffer;
    }

    /** The numbered entries of the listing, appended one doctor at a time. */
    static method RenderEntries(shown: seq<Json>) returns (entries: string)
      ensures entries == DoctorEntries(shown, 1)
    {
      entries := "";
      var i := 0;
      while i < |shown|
        invariant 0 <= i <= |shown|
        invariant entries == DoctorEntries(shown[..i], 1)
      {
        EntriesStep(shown, i);
        entries := entries + DoctorEntry(i + 1, shown[i]);
        i := i + 1;
      }
      assert shown[..i] == shown;
    }

    /**
     * `_handle_doctor_search`, writing the listed doctors' ids into `sessionUser`'s context.
     * Specified by `DoctorSearch` (and `FoundResult` for the part after the backend answered):
     * the reply is that function's turn and the storage is updated as its `remember` says.
     */
    method HandleDoctorSearch(message: string, sessionUser: string, env: Env) returns (turn: Option<Turn>)
      requires Valid()
      modifies manager
      ensures Valid()
      ensures turn == DoctorSearch(message, env).turn
      ensures manager.storage == Remembered(old(manager.storage), sessionUser, DoctorSearch(message, env).remember, env.now)
    {
      var keyword := ExtractSearchKeyword(message);
      if keyword == "" {
        return Some(Turn(SearchPrompt, NoData, []));
      }
      var found := SearchDoctors(keyword, env.searchBackend);
      if !found.success {
        return Some(SearchFailedTurn(found, env.specialists));
      }
      var doctors := found.data;
      if doctors == [] {
        return Some(Turn(NoDoctorsText, NoData, []));
      }
      var shown := Take(doctors, 5);
      var response := RenderListing(keyword, doctors);
      var ids := DoctorIds(shown);
      if ids.None? {
        return None;
      }
      turn := Some(Turn(response, Doctors(shown), BookWith(Take(doctors, 3))));
      assert DoctorSearch(message, env) == SearchResult(turn, ids);
      manager.UpdateSessionContext(sessionUser, map["available_doctors" := StrList(ids.value)], env.now);
    }

    /**
     * `_handle_booking_flow` for the user's stored session. Specified by `BookingTurn` (the reply,
     * through `StepTurn` for the step the merged context selects) and `BookingStore` (the storage).
     */
    method HandleBookingFlow(userId: string, message: string, session: Session, jwt: Option<string>, env: Env) returns (turn: Option<Turn>)
      requires Valid() && Supported(env)
      requires StoredSession(manager.storage, userId) == Some(session)
      modifies manager
      ensures Valid()
      ensures turn == BookingTurn(message, session, jwt, env)
      ensures manager.storage == BookingStore(old(manager.storage), userId, message, session, jwt, env)
    {
      if !LoggedIn(jwt) {
        return Some(LoginTurn);
      }
      var current := session;
      var info := ExtractBookingInfo(message, current.context, env.today, env.dayFirst);
      if info != map[] {
        manager.UpdateSessionContext(userId, info, env.now);
        current := manager.GetSession(userId, env.now);
      }
      var ctx := current.context;
      assert ctx == MergedContext(message, session, env);
      if NextStep(ctx) == PickDoctor && ExtractSearchKeyword(message) != "" {
        turn := HandleDoctorSearch(message, ContextUser(ctx), env);
      } else {
        turn := StepTurn(message, ctx, env);
      }
    }

    /** The try block of `process_message`: the handler for the intent. */
    method Dispatch(intent: Intent, userId: string, message: string, session: Session, recent: string, jwt: Option<string>, env: Env)
      returns (outcome: Option<Turn>)
      requires Valid() && Supported(env)
      requires StoredSession(manager.storage, userId) == Some(session)
      modifies manager
      ensures Valid()
      ensures outcome == HandlerOutcome(intent, message, session, recent, jwt, env)
      ensures manager.storage == HandlerStore(intent, old(manager.storage), userId, message, session, jwt, env)
    {
      if intent.SearchDoctor? || intent.CheckAvailability? {
        outcome := HandleDoctorSearch(message, session.userId, env);
      } else if intent.BookAppointment? {
        outcome := HandleBookingFlow(userId, message, session, jwt, env);
      } else {
        outcome := Reply(intent, message, recent, jwt, env);
        if intent.Farewell? {
          manager.EndSession(userId);
        }
      }
    }

    /** `process_message` */
    method ProcessMessage(userId: string, message: string, jwt: Option<string>, env: Env) returns (resp: ChatResponse)
      requires Valid() && Supported(env)
      modifies manager
      ensures Valid()
      ensures resp == TurnResponse(old(manager.storage), userId, message, jwt, env)
      ensures manager.storage == TurnStore(old(manager.storage), userId, message, jwt, env)
    {
      ghost var st := manager.storage;
      var session := manager.GetSession(userId, env.now);
      manager.AddMessage(userId, "user", message, map[], env.now);
      KeysNeverCollide(userId, userId);
      assert StoredSession(manager.storage, userId) == Some(session);
      var recent := manager.GetContextString(userId, 5);
      var intent := ClassifyIntent(message, recent, ClassifierOf(env));
      var outcome := Dispatch(intent, userId, message, session, recent, jwt, env);
      resp := Envelope(intent, outcome);
      manager.AddMessage(userId, "assistant", resp.response, map[], env.now);
    }
  }
}
