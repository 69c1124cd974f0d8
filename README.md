# Appointment assistant: a Dafny model

This project models the core of a chat assistant that helps patients find doctors,
check their symptoms and book appointments. The model covers four pieces.

- **Session store.** `ConversationManager` keeps, in one in-memory map, a session
  record (`chat_session:<user>`) and a most-recent-first message history
  (`chat_history:<user>`, cut to 50 entries) per user. It is modelled as the class
  `Conversation.ConversationManager` over a `map<string, Record>`.
- **Booking helpers.** `AppointmentManager` reads dates ("today", "tomorrow", day
  names, `dd/mm/yyyy`) and times ("3pm", "15:00") out of a message and merges them
  into the booking context without overwriting what is there. It validates search
  keywords, doctor ids and `YYYY-MM-DD` dates (the calendar date in extended format of
  section 4.1.2.2 of ISO 8601:2004) before any request. It maps the backend's status
  codes to result records and renders slot times on a 12-hour clock. Dates are
  Python ordinals (`Calendar`), and today is a parameter.
- **Agent.** `AIAgentService` runs one chat turn. It records the user's message,
  classifies it (a model's label is validated; otherwise ordered keyword groups decide),
  and runs the handler for the intent. The handlers search doctors, run the booking
  state machine (login, merge of the extracted slots, then the first empty slot of
  `doctor_id` → `date` → `time`) and analyse symptoms. The turn then records the reply,
  turns an exception into an apology and cuts the suggestions to four. The class
  `Agent.AgentService` does this over the session store.
- **Triage.** `SymptomTriageService` triages symptoms. It has a rule-based path, an
  emergency short-circuit that runs before any model call, and a normalisation of the
  urgency the model gives.

The language model, the HTTP backend, `json.loads`, `dateutil` and the clock are
parameters (`Agent.Env`, and function arguments in the lower modules). Wherever the
Python code raises, the model returns `None` (an `Option`). In `process_message` that
becomes the apology.

Modules: `Wrappers` (Option), `Text` (the Python string operations used, on ASCII),
`Calendar`, `Conversation`, `Extraction`, `Gateway`, `Formatting`, `Triage`,
`Intents`, `Agent`.

## Model

| member | source | states |
|---|---|---|
| `Conversation.KeysNeverCollide` | conversation_manager.py:31-37 | a session key never equals a history key, for any two users |
| `Conversation.KeysInjective` | conversation_manager.py:31-37 | two users with the same session key (or history key) are the same user, so records never alias |
| `Conversation.SessionSlotHoldsOwnSession` | conversation_manager.py:59-73 | in a well-formed store the record under a user's session key is that user's session |
| `Conversation.HistorySlotHoldsMessages` | conversation_manager.py:112-115 | in a well-formed store the record under a history key is a message list of at most 50 entries |
| `Conversation.PushMessage` | conversation_manager.py:114-115 | the new message is at index 0, every old entry moves up by one, and the length is min(old + 1, 50) |
| `Conversation.ConversationManager.constructor` | conversation_manager.py:29 | the store starts empty and well-formed |
| `Conversation.ConversationManager.StartSession` | conversation_manager.py:39-61 | stores and returns a fresh session with the given metadata and an empty context, replacing any stored one |
| `Conversation.ConversationManager.GetSession` | conversation_manager.py:63-76 | returns the stored session or creates and stores a new one; afterwards the returned session is the stored one, and an existing session leaves the store unchanged |
| `Conversation.ConversationManager.UpdateSessionContext` | conversation_manager.py:78-93 | the store afterwards holds the (possibly new) session with the updates merged into its context |
| `Conversation.ConversationManager.AddMessage` | conversation_manager.py:95-115 | the user's history afterwards is the old one with the new message pushed at the head and cut to 50 |
| `Conversation.ConversationManager.GetConversationHistory` | conversation_manager.py:117-127 | returns the first min(limit, length) entries of the history, most recent first, and [] without a history |
| `Conversation.ConversationManager.GetContextString` | conversation_manager.py:129-144 | the text rendered from the first `limit` entries, and "" exactly when there is no history |
| `Conversation.ConversationManager.EndSession` | conversation_manager.py:146-154 | removes only the session record; the history stays |
| `Conversation.ConversationManager.ClearHistory` | conversation_manager.py:156-164 | removes only the history record; the session stays |
| `Conversation.ContextTextEmpty` | conversation_manager.py:133-144 | the rendered context is empty exactly when there are no messages to render |
| `Conversation.PushAllKeepsNewest` | conversation_manager.py:112-115 | a batch of messages added one at a time ends up newest first in front of the old history, cut to 50 |
| `Conversation.ContextShowsLatestInOrder` | conversation_manager.py:129-144 | for a new user, the context shows the last min(limit, 50, n) messages sent, in the order they were sent |
| `Conversation.GetSessionTwice` | conversation_manager.py:63-76 | a first call on an absent user stores a session with empty context and metadata; a second call returns the same session and changes nothing |
| `Conversation.UpdateContextMerges` | conversation_manager.py:78-93 | updated keys take the update's values, other keys keep theirs, an empty update changes nothing, and a missing session is created first |
| `Calendar.FromOrdinal` | appointment_manager.py:278-297 | every day number from 1 to 9999-12-31 has a valid (year, month, day) whose ordinal is that number |
| `Calendar.IsoFormatRoundTrip` | appointment_manager.py:191-202 | every `isoformat()` string has the `^\d{4}-\d{2}-\d{2}$` shape and `strptime` reads it back as the same date |
| `Calendar.YmdTextRoundTrip` | appointment_manager.py:191-202 | a valid year, month and day written as `YYYY-MM-DD` has the checked shape and read back gives the same three numbers |
| `Calendar.IsoFormatIsCalendarDate` | appointment_manager.py:191-202 | every `isoformat()` string passes both the format check and the date-value check |
| `Extraction.DaysAhead` | appointment_manager.py:292-297 | a day name gives a date 1 to 7 days ahead that falls on that weekday, never today |
| `Extraction.KeywordOffset` | appointment_manager.py:277-284 | a relative phrase gives an offset of 0 to 7 days |
| `Extraction.DateTokenAt` | appointment_manager.py:302 | a match of the numeric date pattern is 6 to 10 characters long and starts with a digit |
| `Extraction.DateTokenSound` | appointment_manager.py:302 | a found date is the text at i, and that text is one or two digits, `-` or `/`, one or two digits, `-` or `/`, then two to four digits |
| `Extraction.DateTokenFinds` | appointment_manager.py:302 | whenever the pattern matches some text at i, the matcher finds a match at i at least as long: the last run of digits is greedy |
| `Extraction.SearchDateToken` | appointment_manager.py:302 | `re.search` returns the match at the leftmost position that has one, and none when no position has one |
| `Extraction.NoDateTokenAt` | appointment_manager.py:302 | no position skipped by the search holds a match |
| `Extraction.ParseDateFromText` | appointment_manager.py:271-309 | a date is found exactly when some branch picks a day, and the result is always a real `YYYY-MM-DD` date |
| `Extraction.KeywordDateWithinWeek` | appointment_manager.py:277-297 | a message with a relative phrase or a day name gives a date from today to a week ahead, whatever `dateutil` would do |
| `Extraction.TodayWins` | appointment_manager.py:277-278 | "today" anywhere in the message gives today, whatever else it says |
| `Extraction.DayAfterTomorrowGivesTomorrow` | appointment_manager.py:279-282 | "day after tomorrow" gives tomorrow's date, because "tomorrow" is checked first |
| `Extraction.DayNameGivesNextSuchDay` | appointment_manager.py:287-297 | the first day name in `days_map` order gives a date whose day is the first day after today with that weekday, at most seven days on |
| `Extraction.TomorrowGivesNextDay` | appointment_manager.py:277-280 | "tomorrow" without "today" gives the day after today |
| `Extraction.NextWeekGivesSevenDaysOn` | appointment_manager.py:277-284 | "next week" without "today" or "tomorrow" gives the day seven days on |
| `Extraction.DayNameDate` | appointment_manager.py:287-297 | with no relative phrase, the first day name in `days_map` order gives the date `DaysAhead` days on |
| `Extraction.NoEarlierSuchDay` | appointment_manager.py:292-297 | the day picked for a weekday name lies 1 to 7 days on, falls on that weekday, and no day strictly between today and it does |
| `Extraction.TimeMatchAt` | appointment_manager.py:317-321 | a match of a time pattern yields an hour of one or two digits, then two-digit minutes or "am"/"pm" |
| `Extraction.TimeMatchSound` | appointment_manager.py:317-321 | the groups returned at i are the hour digits in the text at i, then a ':' and the two minute digits right after them, and/or "am" or "pm" after nothing but whitespace |
| `Extraction.TimeMatchComplete` | appointment_manager.py:317-321 | whenever a pattern matches at i with some groups, the matcher returns exactly those groups, for each of the three patterns |
| `Extraction.SearchTime` | appointment_manager.py:324 | `re.search` yields the groups of a well-formed match |
| `Extraction.SearchTimeFinds` | appointment_manager.py:324 | `re.search` returns the match at the first position from i where the pattern matches |
| `Extraction.SearchTimeSkips` | appointment_manager.py:324 | positions without a match do not change the search; with no match anywhere it returns None |
| `Extraction.RenderTime` | appointment_manager.py:326-343 | a rendered time is at least `HH:MM:SS` long |
| `Extraction.RenderTimeDefined` | appointment_manager.py:326-343 | the groups render exactly when the hour reads as a number and either there are two groups with "am" or "pm" in the text or the minutes read as a number |
| `Extraction.TryPatterns` | appointment_manager.py:323-346 | any time returned is at least `HH:MM:SS` long |
| `Extraction.TryPatternsFirstRendered` | appointment_manager.py:323-346 | the result is that of the first pattern whose match renders, and None exactly when no pattern's match renders |
| `Extraction.TimeString` | appointment_manager.py:337 | the rendered time ends in ":00" |
| `Extraction.ParseTimeFromText` | appointment_manager.py:311-346 | any time returned is at least "HH:MM:SS" long |
| `Extraction.NoMeridiemLeavesClock` | appointment_manager.py:323-346 | without "am" or "pm" in the message, the result is that of trying the `H:MM` pattern alone |
| `Extraction.TwentyFourHourClock` | appointment_manager.py:338-342 | without "am"/"pm", the leftmost `H:MM` match is read as that hour and those minutes, zero-padded, seconds 00 |
| `Extraction.NoClockNoTime` | appointment_manager.py:323-346 | without "am"/"pm" and without an `H:MM` match, no time is read |
| `Extraction.FirstPatternDecides` | appointment_manager.py:323-337 | a first-pattern match that renders decides the time; later patterns are never tried |
| `Extraction.ClockMeridiemNeverDecides` | appointment_manager.py:317-325 | the second pattern can never win: the result equals trying only the first and third patterns |
| `Extraction.HourMeridiemRenders` | appointment_manager.py:327-337 | a first-pattern match always renders, because the text names "am" or "pm" |
| `Extraction.MeridiemTimesAreOnTheHour` | appointment_manager.py:327-337 | with "am" or "pm" anywhere in the text, every time read ends in ":00:00" |
| `Extraction.HalfPastThreePmReadsAsFortyTwo` | appointment_manager.py:316-337 | "3:30pm" is read as "42:00:00" |
| `Extraction.ExtractBookingInfo` | appointment_manager.py:348-367 | the result only has the keys `date` and `time`, each holding a non-empty string, and never `doctor_id` |
| `Extraction.ExtractionFillsOnlyEmptySlots` | appointment_manager.py:355-365 | merging never replaces a truthy `date`/`time`, and fills an empty one exactly when the message yields one |
| `Extraction.SlotUpdatesFillOnlyEmpty` | appointment_manager.py:355-365 | for any values the parsers return, merging keeps every truthy slot and fills an empty `date` or `time` exactly when a non-empty value was found, with that value |
| `Gateway.StateNameInjective` | appointment_manager.py:9-17 | different booking states have different values |
| `Gateway.SearchDoctors` | appointment_manager.py:26-98 | the result fails exactly when it carries an error code, and a failure has no data |
| `Gateway.SearchRejectsShortKeywords` | appointment_manager.py:29-44 | a blank keyword gives INVALID_KEYWORD and a one-character keyword gives KEYWORD_TOO_SHORT, whatever the backend would say |
| `Gateway.SearchIgnoresSurroundingSpace` | appointment_manager.py:37-51 | only the stripped keyword matters |
| `Gateway.SearchErrorFollowsBackend` | appointment_manager.py:53-98 | for a valid keyword, 200 succeeds, 404 gives NOT_FOUND, other statuses SERVER_ERROR, and timeout, network and other failures their own codes |
| `Gateway.AvailableTimes` | appointment_manager.py:229-234 | exactly the `slotTime`s of the AVAILABLE slots are kept, and a missing `slotTime` raises |
| `Gateway.AvailableTimesAppend` | appointment_manager.py:229-234 | the times of two runs of slots are the times of each, in input order |
| `Gateway.SlotErrorFollowsBackend` | appointment_manager.py:225-269 | 200 succeeds with the available times (a malformed slot gives UNKNOWN_ERROR), 404 gives NO_SLOTS_FOUND, other statuses SERVER_ERROR, a timeout TIMEOUT and other failures UNKNOWN_ERROR |
| `Gateway.FetchSlots` | appointment_manager.py:218-269 | the result of the slots request is consistent: it fails exactly when it carries an error code |
| `Gateway.GetAvailableSlots` | appointment_manager.py:170-269 | the result of `get_available_slots` is consistent |
| `Gateway.SlotChecksPrecedeRequest` | appointment_manager.py:173-216 | a rejected query gives one of the five validation codes, whatever the backend would say |
| `Gateway.SlotQueryAcceptedIff` | appointment_manager.py:181-216 | with a doctor id, the query is sent exactly when the stripped date is a real `YYYY-MM-DD` date not before today (today included) |
| `Gateway.CheckSlotQuery` | appointment_manager.py:172-216 | every rejection carries a message and an error code, as each early return of `get_available_slots` does |
| `Gateway.SlotCheckOrder` | appointment_manager.py:172-216 | the checks run in order (blank doctor id, blank date, wrong shape, no such calendar day, past date), and the first that fails gives its own message and code |
| `Gateway.ReadDatesPassSlotChecks` | appointment_manager.py:199-223 | a date the parser writes for today or later passes every check and is sent as it is |
| `Formatting.TwelveHourClockRoundTrip` | appointment_manager.py:396-408 | the 12-hour hour lies in 1..12, and converting it back with the parser's am/pm rule gives the 24-hour hour |
| `Formatting.FormatTime12` | appointment_manager.py:396-408 | a formatted time ends in " AM" or " PM" |
| `Formatting.Clock12` | appointment_manager.py:401-408 | the 12-hour text ends in " AM" or " PM" |
| `Formatting.Clock12Shows` | appointment_manager.py:401-408 | for an hour of the day, the text is the 12-hour hour, the minutes as written, AM before noon and PM from noon on |
| `Formatting.FormatTime12Fields` | appointment_manager.py:396-408 | a time whose three fields split cleanly and whose hour `int` reads as h is shown as the 12-hour h with the same minutes and AM/PM by noon |
| `Formatting.NegativeHourShownAsMorning` | appointment_manager.py:398-404 | `int` accepts a sign, so "-N:MM:SS" is shown as "-N:MM AM" rather than raising |
| `Text.ParseUnsignedDigits` | appointment_manager.py:399 | `int` reads a string of plain digits as the decimal number they spell |
| `Text.ParseIntDigits` | appointment_manager.py:399 | `int` on plain digits gives their decimal value |
| `Text.ParseUnsigned` | appointment_manager.py:399 | a digit string that `int` accepts starts and ends with a digit |
| `Text.ParseUnsignedAccepts` | appointment_manager.py:399 | the digit strings accepted are exactly the non-empty runs of digits with single underscores between digits |
| `Text.UnderscoreSkipped` | appointment_manager.py:399 | an underscore between digits does not change the value read |
| `Text.ParseSigned` | appointment_manager.py:399 | a sign is optional; the magnitude is the digits' value, negative only after a minus and positive only without one |
| `Text.ParseIntReadsStripped` | appointment_manager.py:399 | `int` reads the string with surrounding whitespace removed |
| `Text.ParseIntNegative` | appointment_manager.py:399 | `int` on "-" and digits gives minus their value |
| `Text.ParseIntSkipsLeadingSpace` | appointment_manager.py:399 | a leading whitespace character does not change what `int` reads |
| `Text.ParseIntUnderscore` | appointment_manager.py:399 | for any two digit runs a and b, `int(a + "_" + b)` is the value of the digits a + b |
| `Formatting.FormatTime12Shows` | appointment_manager.py:396-408 | "HH:MM:SS" is shown as the 12-hour hour, the same minutes, AM before noon and PM from noon on |
| `Formatting.SplitAtNoon` | appointment_manager.py:382-383 | the two lists exist exactly when every slot has an hour `int` can read; otherwise the comprehension raises |
| `Formatting.SplitAtNoonPermutes` | appointment_manager.py:382-383 | the two lists together hold exactly the slots, each as many times as given |
| `Formatting.MorningBeforeNoon` | appointment_manager.py:382 | every morning slot has an hour below 12 |
| `Formatting.AfternoonFromNoon` | appointment_manager.py:383 | every afternoon/evening slot has an hour of 12 or more |
| `Formatting.FormatAll` | appointment_manager.py:387-391 | each slot is formatted in place, and the list raises exactly when one of them does |
| `Formatting.FormatAllDefined` | appointment_manager.py:387-391 | the renderings exist exactly when every slot given can be shown on a 12-hour clock |
| `Formatting.SlotLine` | appointment_manager.py:386-392 | a half of the day gives a line exactly when its first five slots can all be shown, and one line unless it is empty |
| `Formatting.SlotLineShows` | appointment_manager.py:386-392 | the line is the heading followed by the first five slots on a 12-hour clock joined by ", ", and there is no line for an empty half |
| `Formatting.SlotLines` | appointment_manager.py:382-392 | the display lines exist exactly when every hour reads and the first five of each half can be shown |
| `Formatting.FormatAvailableSlots` | appointment_manager.py:376-394 | the text exists exactly for no slots or when the display lines do |
| `Formatting.AvailableSlotsText` | appointment_manager.py:376-394 | for slots split at noon, the text is the Morning line (when there are morning slots), then the Afternoon/Evening line (when there are later ones), joined by newlines |
| `Formatting.SlotLineStartsWithHeading` | appointment_manager.py:386-392 | a non-empty group gives one line that begins with its heading |
| `Formatting.SlotLinesOpenWithHeading` | appointment_manager.py:385-392 | the first line of the display is the Morning line when there are morning slots, else the Afternoon/Evening line |
| `Formatting.NoSlotsTextOnlyForNoSlots` | appointment_manager.py:376-394 | "No available slots" is shown exactly for an empty list |
| `Formatting.FormatDoctorInfo` | appointment_manager.py:369-374 | the text starts with "Dr. " and ends with the specialty in parentheses, "General Practitioner" when none is given |
| `Formatting.DoctorInfoNames` | appointment_manager.py:369-374 | between "Dr. " and the space before the parenthesised specialty stand the first name, a space and the last name ("" for a missing one) |
| `Formatting.TypedHourParses` | appointment_manager.py:327-337 | "3pm", "12am" and the like are read as the matching 24-hour hour, on the hour |
| `Formatting.TypedHourRoundTrip` | appointment_manager.py:327-337 | an hour typed with am/pm is read and shown back as the same hour on a 12-hour clock |
| `Formatting.DisplayedSlotReadsMinutesAsHour` | appointment_manager.py:317-337 | a slot shown as "H:MM AM/PM" and typed back is read with its minutes as the hour |
| `Triage.FallbackTriage` | symptom_triage.py:121-156 | always the four keys and one of the three levels; EMERGENCY exactly when an emergency keyword occurs, URGENT exactly when none does but an urgent one does, with the matching specialty and advice |
| `Triage.SevereBleedingIsEmergency` | symptom_triage.py:136-143 | "severe bleeding" is EMERGENCY although it contains the urgent keyword "severe" |
| `Triage.BraceObjectAt` | symptom_triage.py:102 | a match of `\{[^}]+\}` starts with "{", ends with the first "}" after it, and has at least one character between them |
| `Triage.BraceObjectAtFindsMatch` | symptom_triage.py:102 | whenever `\{[^}]+\}` matches from i to e, the matcher returns exactly t[i..e] with its closing brace |
| `Triage.SearchBraceObject` | symptom_triage.py:102 | the search returns the match at the leftmost position at or after its start where the pattern matches, and fails only when no position matches |
| `Triage.JsonCandidate` | symptom_triage.py:100-104 | the text handed to `json.loads` is a brace-delimited piece of the reply; without one nothing is parsed |
| `Triage.ParseAiResponse` | symptom_triage.py:95-119 | the result always has an urgency among the three levels |
| `Triage.ParsedUrgencyNormalised` | symptom_triage.py:107-119 | a parsed object is kept except for an invalid urgency, which becomes ROUTINE; no JSON or a parse failure gives the fixed ROUTINE record |
| `Triage.AnalyzeSymptoms` | symptom_triage.py:22-93 | the urgency is one of the three levels, a disclaimer is present, and an EMERGENCY advice opens with the warning prefix |
| `Triage.ModelAnswer` | symptom_triage.py:80-93 | the model path's answer has one of the three levels and a disclaimer, and an EMERGENCY advice opens with the warning prefix |
| `Triage.ModelAnswerCases` | symptom_triage.py:80-93 | a non-EMERGENCY answer gets the model disclaimer and nothing else changes; an EMERGENCY answer with advice also has its advice wrapped in the warning and " Call emergency services immediately."; one without advice falls back to the rule-based triage |
| `Triage.ModelAnswerReturned` | symptom_triage.py:32-93 | with a model and no prefilter keyword, the model's parsed answer is returned as `ModelAnswerCases` describes |
| `Triage.ModelFailureFallsBack` | symptom_triage.py:55-93 | with a model and no prefilter keyword, a failing model call gives the rule-based triage |
| `Triage.PrefilterOverridesModel` | symptom_triage.py:37-52 | with a model, a prefilter keyword gives the emergency answer whatever the model would say |
| `Triage.FallbackKeywordsArePrefiltered` | symptom_triage.py:37-41 | every rule-based emergency keyword is also a prefilter keyword |
| `Triage.FallbackEmergencyAlwaysEmergency` | symptom_triage.py:33-52 | a rule-based emergency symptom is EMERGENCY with or without a model |
| `Triage.SuicideRoutineWithoutModel` | symptom_triage.py:33-52 | "suicide" is ROUTINE without a model and EMERGENCY with one |
| `Triage.SuicideIsNoRuleKeyword` | symptom_triage.py:126-147 | "suicide" holds none of the rule-based emergency keywords and none of the urgent ones |
| `Triage.SuicideIsPrefilterKeyword` | symptom_triage.py:37-46 | "suicide" is one of the emergency words checked before the model is asked |
| `Triage.SpecialtyKeywords` | symptom_triage.py:158-169 | eight distinct specialties, each with at least four symptom words |
| `Triage.ChestPainIsCardiologyAndEmergency` | symptom_triage.py:126-161 | "chest pain" points to Cardiology and is an emergency keyword of both lists |
| `Intents.FindIntent` | models.py:5-19 | the member found has the given value, and none is found when no member has it |
| `Intents.AllIntentsComplete` | models.py:5-19 | every `IntentType` member is among the valid labels |
| `Intents.IntentNameInjective` | models.py:5-19 | different members have different values |
| `Intents.ParseIntentRoundTrip` | service.py:134-137 | a member's value is read back as that member, and only member values are accepted |
| `Intents.FallbackIntent` | service.py:145-174 | the rule-based classifier only returns one of its seven labels |
| `Intents.FirstMatchingGroupDecides` | service.py:149-167 | a group's intent is chosen exactly when the message has one of its words and none of an earlier group's |
| `Intents.FarewellNeedsGoodbye` | service.py:169-172 | FAREWELL exactly when no earlier group matches and bye, goodbye or "see you" occurs; "thanks" alone is not enough |
| `Intents.NoKeywordIsPatientQuery` | service.py:169-174 | PATIENT_QUERY exactly when no group and no goodbye word occurs |
| `Intents.ThisIsAGreeting` | service.py:150-151 | "this" is a greeting because it contains "hi" |
| `Intents.ModelLabelValidated` | service.py:130-140 | the model's stripped label is taken exactly when it is an `IntentType` value; otherwise the rule-based answer is given |
| `Intents.NoModelFallsBack` | service.py:107-108 | without a model, or when the call raises, the rule-based classifier decides |
| `Intents.ClassifyIntent` | service.py:105-143 | the intent is either the rule-based one or the model's stripped answer read as a known intent name |
| `Intents.QuotedAt` | service.py:287 | a match at i is an opening quote, at least one quote-free character and a closing quote, and the result is the text between the two quotes |
| `Intents.QuotedAtNoMatch` | service.py:287 | when nothing is found at i, no closing position e makes `"([^"]+)"` match from i to e |
| `Intents.SearchQuoted` | service.py:287-289 | the search returns a non-empty piece of the message, and fails only when no position matches |
| `Intents.SearchQuotedLeftmost` | service.py:287-289 | a found text is the group of the leftmost position where the pattern matches |
| `Intents.ForWordAt` | service.py:291 | the word after "for" is a non-empty run of word characters from the text |
| `Intents.ForWordAtMatches` | service.py:291 | when a word is found at a position, `for\s+(\w+)` matches there with exactly that word as its greedy group |
| `Intents.ForWordAtNoMatch` | service.py:291 | when no word is found at a position, the pattern does not match at that position |
| `Intents.SearchForWord` | service.py:291-293 | the search returns a non-empty piece of the text, and fails only when no position matches |
| `Intents.SearchForWordLeftmost` | service.py:291-293 | a found word is the group of the leftmost position where the pattern matches |
| `Intents.LastWordKeyword` | service.py:295-300 | the last-word keyword is empty or a piece of the message |
| `Intents.WordKeyword` | service.py:298-300 | a word's keyword is "" or a piece of the word |
| `Intents.WordKeywordShape` | service.py:298-300 | the keyword is the word stripped of `.,!?`, or "" when that is a stop word; a keyword is no stop word, has no whitespace and neither starts nor ends with `.,!?` |
| `Intents.NoWordsNoKeyword` | service.py:296-302 | a message without words gives "" |
| `Intents.LastWordKeywordValue` | service.py:296-300 | a message with words gives the keyword of its last word |
| `Intents.ExtractSearchKeyword` | service.py:270-302 | the first specialty in list order that the lower-cased message contains wins; otherwise the first quoted text, else the word after "for" in the lower-cased message, else the last word's keyword; any keyword but a specialty is "" or occurs in the message, ignoring case |
| `Intents.GastroenterologistNeverChosen` | service.py:275-283 | "gastroenterologist" is never the keyword, because "ent" comes first and is inside it |
| `Intents.AppointmentSearchesEnt` | service.py:275-283 | a message with "appointment" always searches one of the first ten specialties, "ent" at the latest |
| `Agent.Envelope` | service.py:91-103 | an exception gives the apology with no data; otherwise the handler's text and data, and its suggestions cut to four, or None when there are none |
| `Agent.SymptomTurn` | service.py:188-201 | the reply carries the assessment, and raises exactly when one of the four shown keys is missing |
| `Agent.EmergencySymptomsAnswered` | service.py:62-64 | a rule-based emergency symptom always gets an EMERGENCY reply, with or without a model |
| `Agent.SymptomCheckWithoutModel` | service.py:188-201 | without a model the reply never raises and carries the rule-based assessment |
| `Agent.DoctorEntriesSnoc` | service.py:246-253 | one more doctor appends its entry, numbered after the others, to the listing |
| `Agent.MoreNote` | service.py:255-256 | "...and N more." appears exactly when more than five doctors were found |
| `Agent.DoctorIds` | service.py:263 | the ids of the listed doctors in order, and a raise exactly when one has no `doctorId` |
| `Agent.SpecialtyNames` | service.py:224-225 | the `specialist` names of the first ten specialists, in order |
| `Agent.BookWith` | service.py:266 | one "Book with" suggestion per doctor given |
| `Agent.SearchFailedTurn` | service.py:219-234 | a failed search offers at most four suggestions, and the specialists exactly on NOT_FOUND |
| `Agent.DoctorSearchBounds` | service.py:236-268 | a listing shows the first one to five doctors found, in order, with at most three suggestions, and stores exactly their ids; every reply has at most four suggestions |
| `Agent.FoundResultBounds` | service.py:218-268 | whatever the backend answers to the search: a listing shows the first one to five doctors, at most three suggestions, and stores exactly their ids |
| `Agent.DoctorSearch` | service.py:203-268 | no keyword gives the search prompt and stores nothing; doctor ids are stored only after a successful search whose reply lists doctors |
| `Agent.NextStep` | service.py:326-341 | the step is the first of `doctor_id`, `date`, `time` that is missing or falsy, and confirm when all three are set |
| `Agent.ConfirmStep` | service.py:421-432 | confirm only answers with the confirmation data and suggestions |
| `Agent.BookingNeedsLogin` | service.py:307-311 | without a token the login prompt is returned and the store is untouched |
| `Agent.BookingMergesBeforeDispatch` | service.py:313-324 | truthy slots are kept, an empty date or time is filled exactly when the message yields one, and past the doctor step nothing beyond the merge is written |
| `Agent.DateStepNeverFindsDate` | service.py:355-401 | the date step only ever asks for a date: a date in the message was already merged |
| `Agent.TimeStepNeverFindsTime` | service.py:403-419 | the time step only ever asks for a time |
| `Agent.BookingNeverPassesDoctorStep` | service.py:326-348 | with only the agent's own keys in the store, the flow stays at the doctor step, and its search writes under the user "" |
| `Agent.BookingNeverConfirms` | service.py:326-353 | so a booking reply never offers slots, a time or a confirmation |
| `Agent.DateStep` | service.py:355-401 | no date in the message, or no doctor chosen, gives the date prompt; an offered slot list is for the date read from the message and is non-empty |
| `Agent.TimeStep` | service.py:403-419 | the time prompt comes back exactly when no time is read; otherwise the reply carries the time read and offers Confirm and Cancel |
| `Agent.BookingTurn` | service.py:304-341 | without a token the login prompt comes back; no reply at all only for a logged-in user at the doctor or date step |
| `Agent.StepTurn` | service.py:326-341 | only the doctor and date steps can give no reply; once doctor, date and time are filled the reply confirms the booking |
| `Agent.TurnKeepsAgentContexts` | service.py:37-103 | a turn writes no context keys other than `date`, `time` and `available_doctors` |
| `Agent.TurnAppendsTwoMessages` | service.py:37-96 | a turn pushes the user's message and then the reply (the apology included) onto the user's history, and no other history changes |
| `Agent.FarewellEndsSession` | service.py:82-96 | after a farewell the user has no session, and the history ends with the farewell reply |
| `Agent.OtherTurnsKeepSession` | service.py:37-89 | every other turn leaves the user with a session |
| `Agent.AgentService.constructor` | service.py:18-22 | a service over an empty store |
| `Agent.AgentService.RenderListing` | service.py:244-258 | the loop's text is the listing: header, numbered entries for the first five, the note, the question |
| `Agent.AgentService.RenderEntries` | service.py:246-253 | the loop appends one numbered entry per doctor, numbered from 1, in the doctors' order |
| `Agent.AgentService.HandleDoctorSearch` | service.py:203-268 | the reply is the doctor search's, and the store afterwards holds the listed doctors' ids in the given user's context, nothing else changed |
| `Agent.AgentService.HandleBookingFlow` | service.py:304-341 | the reply and the store afterwards are those of the booking flow for the stored session |
| `Agent.AgentService.Dispatch` | service.py:54-89 | the reply and the store afterwards are those of the handler for the intent; only the farewell removes the session |
| `Agent.AgentService.ProcessMessage` | service.py:24-103 | the response and the store afterwards are those of one whole turn |

## Left out

- Redis: only the in-memory branch of `ConversationManager` is modelled, without TTL expiry. `GetConversationHistory` and `GetContextString` require `limit >= 1` (the Redis branch would return everything for 0).
- Network, model and parser calls are parameters, not code. These are the backend requests (`search_doctors`, `get_available_slots`, `get_specialists`), the Gemini calls and `json.loads` on the model's reply. A request ends in one of `HttpOutcome`'s four ways, and JSON values are strings.
- `dateutil.parser.parse(..., dayfirst=True)` is a parameter that maps the matched text to a day or to failure.
- Clock: one timestamp and one calendar day stand for every `datetime.now()` of a turn.
- The model only covers dates with at least a week left before 9999-12-31 (`Agent.Supported`, `today + 7 <= MaxOrdinal`).
- Text handling covers the ASCII range only. `lower()` only changes ASCII letters. Whitespace (for `split()`, `strip()`, `\s` and `int`) is the ASCII characters Python counts as whitespace: space, `\t` to `\r`, and `\x1c` to `\x1f`. `\d`, `\w` and the digits `int` accepts are their ASCII classes; non-ASCII digits and spaces are not modelled.
- `int()` on a string is modelled by `Text.ParseInt` for ASCII input: surrounding whitespace, one optional `+` or `-`, then digits with single underscores allowed between them; anything else raises (None).
- The reply texts are kept exactly as they stand in service.py, including the mis-decoded emoji and bullet characters. Those characters are written out as escapes.
- A list value shown in a reply is rendered as a list of quoted strings, a simplification of `str()`.
- `get_doctor_by_id`, the booking commit and clearing slots after confirmation are not modelled, because the code never does them. Logging, `print`, `async` and main.py's HTTP layer are not modelled either.
- `_generate_general_response` is a parameter: the model's reply is stripped, and the fixed texts are used when there is no model or the call raises.
- `Agent.AgentService.RenderListing` collects the entries apart from the header and joins them at the end, where the source appends to one string. The resulting text is the same.
- `Formatting.SplitAtNoon`: the two lists are proved to split the slots by hour (`SplitAtNoonPermutes`, `MorningBeforeNoon`, `AfternoonFromNoon`). That each list keeps the slots' order comes from the definition and is not a separate lemma.
- `Intents.SearchQuoted`: its own ensures say only that a found text is a non-empty piece of the message; that it is the group of the leftmost match is proved separately, by `Intents.SearchQuotedLeftmost`.
- `Intents.SearchForWord`: its own ensures say only that a found word is a non-empty piece of the text; that it is the group of the leftmost match is proved separately, by `Intents.SearchForWordLeftmost`.
- `Intents.ForWordAt`: its own ensures say only that the word is a run of word characters from the text; that it follows "for" and whitespace at that position, as the whole greedy group, is proved separately, by `Intents.ForWordAtMatches` and `Intents.ForWordAtNoMatch`.
- `Intents.LastWordKeyword`: its own ensures say only that the keyword is "" or a piece of the message; its value (the last word stripped of `.,!?`, "" for a stop word) is proved separately, by `Intents.LastWordKeywordValue` and `Intents.WordKeywordShape`.
- `Extraction.DateTokenAt`: its own ensures say only that a match is 6 to 10 characters long and starts with a digit; that it is the text at i, shaped as the pattern says, and that a match is found whenever the pattern matches, is proved separately, by `Extraction.DateTokenSound` and `Extraction.DateTokenFinds`.
- `Extraction.TimeMatchAt`: its own ensures say only that the groups are well formed; that they are read from the text at i as the pattern says, and that every match is found, is proved separately, by `Extraction.TimeMatchSound` and `Extraction.TimeMatchComplete`.
- `Extraction.SearchTime`: its own ensures say only that the groups are well formed; that it returns the match at the first position that has one, and None when there is none, is proved separately, by `Extraction.SearchTimeFinds` and `Extraction.SearchTimeSkips`.
- `Triage.BraceObjectAt`: its own ensures give only the Some direction; that every match of the pattern at i is found is proved separately, by `Triage.BraceObjectAtFindsMatch`.

## Where the description and the code differ

The code is followed. For example, "day after tomorrow" gives tomorrow and "3:30pm" reads
as 42:00:00. The booking flow merges a past date into the session before any check.
Nothing ever writes `doctor_id`, so the date, time and confirm steps are unreachable in a
store only the agent writes to. The lemmas named above state each of these behaviours
rather than correcting them.
