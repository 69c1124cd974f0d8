/**
 * Reading a booking date and time out of a chat message: `parse_date_from_text`,
 * `parse_time_from_text` and `extract_booking_info` (appointment_manager.py).
 * Today's date is a parameter, and so is the `dateutil` parser the numeric branch
 * hands its match to (None where it raises).
 */
module Extraction {
  import opened Wrappers
  import opened Text
  import opened Calendar
  import opened Conversation

  // ----- dates -----

  /** The keys of `days_map`, in its order; the position is the `weekday()` number. */
  const DayNames: seq<string> := ["monday", "tuesday", "wednesday", "thursday", "friday", "saturday", "sunday"]

  /** Days from `today` to the next day with weekday `dayNum`: never 0, a full week when it is today. */
  function DaysAhead(today: int, dayNum: int): (r: int)
    requires 0 <= dayNum < 7
    ensures 1 <= r <= 7 && Weekday(today + r) == dayNum
  {
    var ahead := dayNum - Weekday(today);
    if ahead <= 0 then ahead + 7 else ahead
  }

  /** Moving k days on moves the weekday k places round the week. */
  lemma WeekdayShift(n: int, k: int)
    ensures Weekday(n + k) == (Weekday(n) + k) % 7
  {
  }

  /** The offset in days the first keyword found in the lower-cased text selects. */
  function KeywordOffset(lower: string, today: int): (r: Option<int>)
    ensures r.Some? ==> 0 <= r.value <= 7
  {
    if Contains(lower, "today") then Some(0)
    else if Contains(lower, "tomorrow") then Some(1)
    else if Contains(lower, "day after tomorrow") then Some(2)
    else if Contains(lower, "next week") then Some(7)
    else
      var k := FirstIndexContained(lower, DayNames);
      if k < |DayNames| then Some(DaysAhead(today, k)) else None
  }

  /** The number of digits (at most `cap`) found from position i on. */
  function DigitRun(t: string, i: int, cap: nat): (n: nat)
    requires 0 <= i <= |t|
    ensures n <= cap && i + n <= |t|
    ensures forall j :: i <= j < i + n ==> IsDigit(t[j])
    ensures n < cap && i + n < |t| ==> !IsDigit(t[i + n])
    decreases cap
  {
    if cap == 0 || i == |t| || !IsDigit(t[i]) then 0 else 1 + DigitRun(t, i + 1, cap - 1)
  }

  predicate IsDateSeparator(c: char) { c == '-' || c == '/' }

  /** Where the match of `\d{1,2}[-/]\d{1,2}[-/]\d{2,4}` that starts at position i ends, if there is one. */
  function DateTokenEnd(t: string, i: int): (e: Option<int>)
    requires 0 <= i <= |t|
    ensures e.Some? ==> i + 6 <= e.value <= i + 10 && e.value <= |t| && IsDigit(t[i])
  {
    var a := DigitRun(t, i, 2);
    if a == 0 || i + a >= |t| || !IsDateSeparator(t[i + a]) then None
    else
      var j := i + a + 1;
      var b := DigitRun(t, j, 2);
      if b == 0 || j + b >= |t| || !IsDateSeparator(t[j + b]) then None
      else
        var k := j + b + 1;
        var c := DigitRun(t, k, 4);
        if c < 2 then None else Some(k + c)
  }

  /** The match of `\d{1,2}[-/]\d{1,2}[-/]\d{2,4}` that starts at position i, if any. */
  function DateTokenAt(t: string, i: int): (r: Option<string>)
    requires 0 <= i <= |t|
    ensures r.Some? ==> 6 <= |r.value| <= 10 && IsDigit(r.value[0])
  {
    match DateTokenEnd(t, i)
    case None => None
    case Some(e) => Some(t[i..e])
  }

  /**
   * `\d{1,2}[-/]\d{1,2}[-/]\d{2,4}` matches t[i..e] with a first run of a digits and a second of b:
   * the third run is the rest, two to four digits.
   */
  predicate DateRuns(t: string, i: int, a: int, b: int, e: int)
  {
    0 <= i && 1 <= a <= 2 && 1 <= b <= 2 && i + a + b + 4 <= e <= i + a + b + 6 && e <= |t|
    && (forall k :: i <= k < i + a ==> IsDigit(t[k])) && IsDateSeparator(t[i + a])
    && (forall k :: i + a + 1 <= k < i + a + b + 1 ==> IsDigit(t[k])) && IsDateSeparator(t[i + a + b + 1])
    && (forall k :: i + a + b + 2 <= k < e ==> IsDigit(t[k]))
  }

  /** The numeric date pattern matches t[i..e]. */
  predicate DateMatch(t: string, i: int, e: int)
  {
    DateRuns(t, i, 1, 1, e) || DateRuns(t, i, 1, 2, e) || DateRuns(t, i, 2, 1, e) || DateRuns(t, i, 2, 2, e)
  }

  /** A run of at least n digits (n up to the cap) is measured as n or more. */
  lemma {:induction false} DigitRunAtLeast(t: string, i: int, n: nat, cap: nat)
    requires 0 <= i && i + n <= |t| && n <= cap
    requires forall j :: i <= j < i + n ==> IsDigit(t[j])
    ensures DigitRun(t, i, cap) >= n
    decreases n
  {
    if n > 0 {
      DigitRunAtLeast(t, i + 1, n - 1, cap - 1);
    }
  }

  /** A found date is the text from i to some e, and the pattern matches that text. */
  lemma DateTokenSound(t: string, i: int) returns (e: int)
    requires 0 <= i <= |t| && DateTokenAt(t, i).Some?
    ensures i <= e <= |t| && DateTokenAt(t, i) == Some(t[i..e]) && DateMatch(t, i, e)
  {
    var a, b, c := DateTokenRuns(t, i);
    e := i + a + b + 2 + c;
    MeasuredRuns(t, i, a, b, c, e);
  }

  /** A found date ends after the three runs the matcher measures. */
  lemma DateTokenRuns(t: string, i: int) returns (a: nat, b: nat, c: nat)
    requires 0 <= i <= |t| && DateTokenEnd(t, i).Some?
    ensures a == DigitRun(t, i, 2) && a > 0 && i + a < |t| && IsDateSeparator(t[i + a])
    ensures b == DigitRun(t, i + a + 1, 2) && b > 0 && i + a + b + 1 < |t| && IsDateSeparator(t[i + a + b + 1])
    ensures c == DigitRun(t, i + a + b + 2, 4) && c >= 2
    ensures DateTokenEnd(t, i) == Some(i + a + b + 2 + c)
  {
    a := DigitRun(t, i, 2);
    b := DigitRun(t, i + a + 1, 2);
    c := DigitRun(t, i + a + b + 2, 4);
  }

  /** Three runs measured by `DigitRun`, with separators after the first two, make a match. */
  lemma MeasuredRuns(t: string, i: int, a: nat, b: nat, c: nat, e: int)
    requires 0 <= i <= |t| && e == i + a + b + 2 + c
    requires a == DigitRun(t, i, 2) && a > 0 && i + a < |t| && IsDateSeparator(t[i + a])
    requires b == DigitRun(t, i + a + 1, 2) && b > 0 && i + a + b + 1 < |t| && IsDateSeparator(t[i + a + b + 1])
    requires c == DigitRun(t, i + a + b + 2, 4) && c >= 2
    ensures DateMatch(t, i, e)
  {
    assert DateRuns(t, i, a, b, e);
  }

  /** Where the matcher's match ends when the three digit runs it measures have the lengths a, b and c. */
  lemma DateTokenOfRuns(t: string, i: int, a: nat, b: nat, c: nat)
    requires 0 <= i <= |t|
    requires a == DigitRun(t, i, 2) && a > 0 && i + a < |t| && IsDateSeparator(t[i + a])
    requires b == DigitRun(t, i + a + 1, 2) && b > 0 && i + a + b + 1 < |t| && IsDateSeparator(t[i + a + b + 1])
    requires c == DigitRun(t, i + a + b + 2, 4) && c >= 2
    ensures DateTokenEnd(t, i) == Some(i + a + b + 2 + c)
  {
  }

  /** Whenever the pattern matches t[i..e], the matcher finds a match at i, and none shorter: `\d{2,4}` is greedy. */
  lemma DateTokenFinds(t: string, i: int, e: int)
    requires DateMatch(t, i, e)
    ensures DateTokenAt(t, i).Some? && e <= i + |DateTokenAt(t, i).value|
  {
    if DateRuns(t, i, 1, 1, e) {
      DateRunsFound(t, i, 1, 1, e);
    } else if DateRuns(t, i, 1, 2, e) {
      DateRunsFound(t, i, 1, 2, e);
    } else if DateRuns(t, i, 2, 1, e) {
      DateRunsFound(t, i, 2, 1, e);
    } else {
      DateRunsFound(t, i, 2, 2, e);
    }
  }

  /** `DateTokenFinds` for a match whose first two runs have a and b digits. */
  lemma DateRunsFound(t: string, i: int, a: int, b: int, e: int)
    requires DateRuns(t, i, a, b, e)
    ensures DateTokenAt(t, i).Some? && e <= i + |DateTokenAt(t, i).value|
  {
    DateRunsMeasured(t, i, a, b, e);
    DateTokenOfRuns(t, i, a, b, DigitRun(t, i + a + b + 2, 4));
  }

  /** The runs of a match are the ones the matcher measures, the last one perhaps longer. */
  lemma DateRunsMeasured(t: string, i: int, a: int, b: int, e: int)
    requires DateRuns(t, i, a, b, e)
    ensures DigitRun(t, i, 2) == a && DigitRun(t, i + a + 1, 2) == b && DigitRun(t, i + a + b + 2, 4) >= e - (i + a + b + 2)
  {
    DigitRunExact(t, i, a, 2);
    DigitRunExact(t, i + a + 1, b, 2);
    DigitRunAtLeast(t, i + a + b + 2, e - (i + a + b + 2), 4);
  }

  /** No match of the numeric date pattern starts at any position from i up to, not including, k. */
  predicate NoDateTokenBetween(t: string, i: int, k: int)
    requires 0 <= i <= k <= |t|
    decreases k - i
  {
    i == k || (DateTokenAt(t, i).None? && NoDateTokenBetween(t, i + 1, k))
  }

  /** `re.search` for the numeric date pattern: the leftmost match at or after i. */
  function SearchDateToken(t: string, i: int): (r: Option<string>)
    requires 0 <= i <= |t|
    ensures r.Some? ==> exists k | i <= k < |t| :: DateTokenAt(t, k) == r && NoDateTokenBetween(t, i, k)
    ensures r.None? ==> NoDateTokenBetween(t, i, |t|)
    decreases |t| - i
  {
    if i == |t| then None
    else
      var here := DateTokenAt(t, i);
      if here.Some? then here
      else
        var rest := SearchDateToken(t, i + 1);
        if rest.Some? then
          var k :| i + 1 <= k < |t| && DateTokenAt(t, k) == rest && NoDateTokenBetween(t, i + 1, k);
          assert NoDateTokenBetween(t, i, k);
          rest
        else rest
  }

  /** `NoDateTokenBetween` says what its name says: no position j in the range starts a match. */
  lemma {:induction false} NoDateTokenAt(t: string, i: int, k: int, j: int)
    requires 0 <= i <= j < k <= |t| && NoDateTokenBetween(t, i, k)
    ensures DateTokenAt(t, j).None?
    decreases j - i
  {
    if i < j {
      NoDateTokenAt(t, i + 1, k, j);
    }
  }

  /** The `date` `parse_date_from_text` settles on, before `.isoformat()`. */
  function ChosenDay(text: string, today: DayNumber, dayFirst: string -> Option<DayNumber>): Option<DayNumber>
    requires today + 7 <= MaxOrdinal
  {
    match KeywordOffset(ToLower(text), today)
    case Some(o) => Some(today + o)
    case None =>
      match SearchDateToken(text, 0)
      case None => None
      case Some(token) => dayFirst(token)
  }

  /**
   * `parse_date_from_text`, with `dayFirst` standing for `parser.parse(..., dayfirst=True).date()`:
   * whatever it returns is a real date in the `YYYY-MM-DD` shape.
   */
  function ParseDateFromText(text: string, today: DayNumber, dayFirst: string -> Option<DayNumber>): (r: Option<string>)
    requires today + 7 <= MaxOrdinal
    ensures r.Some? ==> IsCalendarDate(r.value)
    ensures r.Some? <==> ChosenDay(text, today, dayFirst).Some?
  {
    match ChosenDay(text, today, dayFirst)
    case None => None
    case Some(d) =>
      IsoFormatIsCalendarDate(d);
      Some(IsoFormat(d))
  }

  /** The date returned is the chosen day, written out. */
  lemma ParseDateWritesChosenDay(text: string, today: DayNumber, dayFirst: string -> Option<DayNumber>, d: DayNumber)
    requires today + 7 <= MaxOrdinal
    requires ChosenDay(text, today, dayFirst) == Some(d)
    ensures ParseDateFromText(text, today, dayFirst) == Some(IsoFormat(d))
  {
  }

  /** A relative phrase or a day name always gives a date in the coming week, whatever the numeric parser does. */
  lemma KeywordDateWithinWeek(text: string, today: DayNumber, dayFirst: string -> Option<DayNumber>)
    requires today + 7 <= MaxOrdinal
    requires ContainsAny(ToLower(text), ["today", "tomorrow", "day after tomorrow", "next week"] + DayNames)
    ensures exists d :: today <= d <= today + 7 && ParseDateFromText(text, today, dayFirst) == Some(IsoFormat(d))
  {
    var lower := ToLower(text);
    var words := ["today", "tomorrow", "day after tomorrow", "next week"] + DayNames;
    var k :| 0 <= k < |words| && Contains(lower, words[k]);
    if k >= 4 {
      assert words[k] == DayNames[k - 4];
      assert ContainsAny(lower, DayNames);
    }
    var o := KeywordOffset(lower, today);
    assert ChosenDay(text, today, dayFirst) == Some(today + o.value);
    ParseDateWritesChosenDay(text, today, dayFirst, today + o.value);
  }

  /** "today" wins over every other word. */
  lemma TodayWins(text: string, today: DayNumber, dayFirst: string -> Option<DayNumber>)
    requires today + 7 <= MaxOrdinal
    requires Contains(ToLower(text), "today")
    ensures ParseDateFromText(text, today, dayFirst) == Some(IsoFormat(today))
  {
    assert KeywordOffset(ToLower(text), today) == Some(0);
    assert ChosenDay(text, today, dayFirst) == Some(today);
    ParseDateWritesChosenDay(text, today, dayFirst, today);
  }

  /** "tomorrow", without "today", gives the next day. */
  lemma TomorrowGivesNextDay(text: string, today: DayNumber, dayFirst: string -> Option<DayNumber>)
    requires today + 7 <= MaxOrdinal
    requires Contains(ToLower(text), "tomorrow") && !Contains(ToLower(text), "today")
    ensures ParseDateFromText(text, today, dayFirst) == Some(IsoFormat(today + 1))
  {
    assert KeywordOffset(ToLower(text), today) == Some(1);
    assert ChosenDay(text, today, dayFirst) == Some(today + 1);
    ParseDateWritesChosenDay(text, today, dayFirst, today + 1);
  }

  /** "next week", without "today" or "tomorrow", gives the day a week from today. */
  lemma NextWeekGivesSevenDaysOn(text: string, today: DayNumber, dayFirst: string -> Option<DayNumber>)
    requires today + 7 <= MaxOrdinal
    requires Contains(ToLower(text), "next week")
    requires !Contains(ToLower(text), "today") && !Contains(ToLower(text), "tomorrow")
    ensures ParseDateFromText(text, today, dayFirst) == Some(IsoFormat(today + 7))
  {
    var lower := ToLower(text);
    if Contains(lower, "day after tomorrow") {
      assert OccursAt("day after tomorrow", "tomorrow", 10);
      ContainsAt("day after tomorrow", "tomorrow", 10);
      ContainsTransitive(lower, "day after tomorrow", "tomorrow");
      assert false;
    }
    assert KeywordOffset(lower, today) == Some(7);
    assert ChosenDay(text, today, dayFirst) == Some(today + 7);
    ParseDateWritesChosenDay(text, today, dayFirst, today + 7);
  }

  /**
   * "day after tomorrow" contains "tomorrow", which is checked first: the phrase
   * gives tomorrow's date, never the day after.
   */
  lemma DayAfterTomorrowGivesTomorrow(text: string, today: DayNumber, dayFirst: string -> Option<DayNumber>)
    requires today + 7 <= MaxOrdinal
    requires Contains(ToLower(text), "day after tomorrow") && !Contains(ToLower(text), "today")
    ensures ParseDateFromText(text, today, dayFirst) == Some(IsoFormat(today + 1))
  {
    var lower := ToLower(text);
    assert OccursAt("day after tomorrow", "tomorrow", 10);
    ContainsAt("day after tomorrow", "tomorrow", 10);
    ContainsTransitive(lower, "day after tomorrow", "tomorrow");
    assert KeywordOffset(lower, today) == Some(1);
    assert ChosenDay(text, today, dayFirst) == Some(today + 1);
    ParseDateWritesChosenDay(text, today, dayFirst, today + 1);
  }

  /**
   * A day name (without a relative phrase) selects the next day of that name after
   * today: one to seven days ahead, so its own name today means a week from now.
   */
  lemma DayNameGivesNextSuchDay(text: string, today: DayNumber, dayFirst: string -> Option<DayNumber>, k: nat)
    requires today + 7 <= MaxOrdinal
    requires !Contains(ToLower(text), "today") && !Contains(ToLower(text), "tomorrow")
    requires !Contains(ToLower(text), "day after tomorrow") && !Contains(ToLower(text), "next week")
    requires k == FirstIndexContained(ToLower(text), DayNames) && k < 7
    ensures exists d :: FirstWeekdayAfter(today, k, d) && ParseDateFromText(text, today, dayFirst) == Some(IsoFormat(d))
  {
    DayNameDate(text, today, dayFirst, k);
    ChosenWeekday(today, k, ParseDateFromText(text, today, dayFirst));
  }

  /** The date written for a day name is `DaysAhead` days on. */
  lemma DayNameDate(text: string, today: DayNumber, dayFirst: string -> Option<DayNumber>, k: nat)
    requires today + 7 <= MaxOrdinal
    requires !Contains(ToLower(text), "today") && !Contains(ToLower(text), "tomorrow")
    requires !Contains(ToLower(text), "day after tomorrow") && !Contains(ToLower(text), "next week")
    requires k == FirstIndexContained(ToLower(text), DayNames) && k < 7
    ensures ParseDateFromText(text, today, dayFirst) == Some(IsoFormat(today + DaysAhead(today, k)))
  {
    var ahead := DaysAhead(today, k);
    var d := today + ahead;
    assert KeywordOffset(ToLower(text), today) == Some(ahead);
    assert ChosenDay(text, today, dayFirst) == Some(d);
    ParseDateWritesChosenDay(text, today, dayFirst, d);
  }

  /** The date text of the day `DaysAhead` picks is that of the first day after `today` with weekday `k`. */
  lemma ChosenWeekday(today: DayNumber, k: nat, result: Option<string>)
    requires k < 7 && today + 7 <= MaxOrdinal && result == Some(IsoFormat(today + DaysAhead(today, k)))
    ensures exists d :: FirstWeekdayAfter(today, k, d) && result == Some(IsoFormat(d))
  {
    NoEarlierSuchDay(today, k);
  }

  /** `d` is the first day after `today`, at most a week on, whose weekday is `k`. */
  predicate FirstWeekdayAfter(today: int, k: int, d: int)
  {
    today < d <= today + 7 && Weekday(d) == k && forall e :: today < e < d ==> Weekday(e) != k
  }

  /** No day strictly between today and the chosen one has the wanted weekday. */
  lemma NoEarlierSuchDay(today: int, k: int)
    requires 0 <= k < 7
    ensures FirstWeekdayAfter(today, k, today + DaysAhead(today, k))
  {
    var d := today + DaysAhead(today, k);
    forall e | today < e < d
      ensures Weekday(e) != k
    {
      WeekdayShift(today, e - today);
      WeekdayShift(today, d - today);
    }
  }

  // ----- times -----

  /** The three `time_patterns`, in order. */
  datatype TimePattern =
    | HourMeridiem   // (\d{1,2})\s*(am|pm)
    | ClockMeridiem  // (\d{1,2}):(\d{2})\s*(am|pm)
    | Clock          // (\d{1,2}):(\d{2})

  const TimePatterns: seq<TimePattern> := [HourMeridiem, ClockMeridiem, Clock]

  function GroupCount(p: TimePattern): nat
  {
    if p == ClockMeridiem then 3 else 2
  }

  /** The groups a match of `p` captures: an hour of one or two digits, then minutes or "am"/"pm". */
  predicate WellFormedGroups(p: TimePattern, g: seq<string>)
  {
    |g| == GroupCount(p) && 1 <= |g[0]| <= 2 && AllDigits(g[0])
    && (p == HourMeridiem ==> g[1] in {"am", "pm"})
    && (p != HourMeridiem ==> |g[1]| == 2 && AllDigits(g[1]))
    && (p == ClockMeridiem ==> g[2] in {"am", "pm"})
  }

  /** `\s*` from position i on. */
  function SkipSpaces(t: string, i: int): (k: int)
    requires 0 <= i <= |t|
    ensures i <= k <= |t|
    ensures forall j :: i <= j < k ==> t[j] in Whitespace
    decreases |t| - i
  {
    if i < |t| && t[i] in Whitespace then SkipSpaces(t, i + 1) else i
  }

  /** `(am|pm)` at position k. */
  function MeridiemAt(t: string, k: int): (r: Option<string>)
    ensures r.Some? ==> r.value in {"am", "pm"} && OccursAt(t, r.value, k)
  {
    if OccursAt(t, "am", k) then Some("am") else if OccursAt(t, "pm", k) then Some("pm") else None
  }

  /** `(\d{1,2}):(\d{2})` at position i, the hour taking two digits where there are two. */
  predicate ClockAt(t: string, i: int)
    requires 0 <= i <= |t|
  {
    var d := DigitRun(t, i, 2);
    d > 0 && i + d + 3 <= |t| && t[i + d] == ':' && IsDigit(t[i + d + 1]) && IsDigit(t[i + d + 2])
  }

  /** The groups of a match of `p` starting at position i, if any. */
  function TimeMatchAt(t: string, p: TimePattern, i: int): (r: Option<seq<string>>)
    requires 0 <= i <= |t|
    ensures r.Some? ==> WellFormedGroups(p, r.value)
  {
    var d := DigitRun(t, i, 2);
    match p
    case HourMeridiem =>
      if d == 0 then None
      else
        (match MeridiemAt(t, SkipSpaces(t, i + d))
         case Some(m) => Some([t[i..i + d], m])
         case None => None)
    case Clock =>
      if ClockAt(t, i) then Some([t[i..i + d], t[i + d + 1..i + d + 3]]) else None
    case ClockMeridiem =>
      if ClockAt(t, i) then
        match MeridiemAt(t, SkipSpaces(t, i + d + 3))
        case Some(m) => Some([t[i..i + d], t[i + d + 1..i + d + 3], m])
        case None => None
      else None
  }

  /** `re.search(p, t)`: the leftmost match at or after position i. */
  function SearchTime(t: string, p: TimePattern, i: int): (r: Option<seq<string>>)
    requires 0 <= i <= |t|
    ensures r.Some? ==> WellFormedGroups(p, r.value)
    decreases |t| - i
  {
    if i == |t| then None
    else if TimeMatchAt(t, p, i).Some? then TimeMatchAt(t, p, i)
    else SearchTime(t, p, i + 1)
  }

  /** `f"{hour:02d}:{minute:02d}:00"` */
  function TimeString(hour: nat, minute: nat): (r: string)
    ensures |r| >= 8 && r[|r| - 3..] == ":00"
  {
    Pad2(hour) + ":" + Pad2(minute) + ":00"
  }

  /** The body of the loop for one match; None where `int(...)` raises and the loop continues. */
  function RenderTime(lower: string, g: seq<string>): (r: Option<string>)
    requires |g| >= 2
    ensures r.Some? ==> |r.value| >= 8
  {
    var hasAm := Contains(lower, "am");
    var hasPm := Contains(lower, "pm");
    match ParseNat(g[0])
    case None => None
    case Some(h) =>
      if hasAm || hasPm then
        var minute := if |g| > 2 then ParseNat(g[1]) else Some(0);
        match minute
        case None => None
        case Some(m) =>
          var hour := if hasPm && h != 12 then h + 12 else if hasAm && h == 12 then 0 else h;
          Some(TimeString(hour, m))
      else
        match ParseNat(g[1])
        case None => None
        case Some(m) => Some(TimeString(h, m))
  }

  /**
   * One match yields a time exactly when `int()` reads the hour and, unless the text has
   * "am" or "pm" and the match has no minutes group, the minutes: otherwise the loop goes on.
   */
  lemma RenderTimeDefined(lower: string, g: seq<string>)
    requires |g| >= 2
    ensures RenderTime(lower, g).Some?
            <==> ParseNat(g[0]).Some? && ((|g| == 2 && (Contains(lower, "am") || Contains(lower, "pm"))) || ParseNat(g[1]).Some?)
  {
  }

  /** The `for pattern in time_patterns` loop over the remaining patterns. */
  function TryPatterns(lower: string, ps: seq<TimePattern>): (r: Option<string>)
    ensures r.Some? ==> |r.value| >= 8
  {
    if ps == [] then None
    else
      match SearchTime(lower, ps[0], 0)
      case None => TryPatterns(lower, ps[1..])
      case Some(g) =>
        match RenderTime(lower, g)
        case Some(s) => Some(s)
        case None => TryPatterns(lower, ps[1..])
  }

  /** What one pattern's leftmost match renders to, None when it does not match or `int(...)` raises. */
  function Rendered(lower: string, p: TimePattern): Option<string>
  {
    match SearchTime(lower, p, 0)
    case None => None
    case Some(g) => RenderTime(lower, g)
  }

  /**
   * The loop returns the time the first pattern that renders one gives: every earlier
   * pattern failed to match or to render, and None means every pattern did.
   */
  lemma {:induction false} TryPatternsFirstRendered(lower: string, ps: seq<TimePattern>)
    ensures var r := TryPatterns(lower, ps);
            && (r.Some? ==> exists n | 0 <= n < |ps| :: Rendered(lower, ps[n]) == r && forall m | 0 <= m < n :: Rendered(lower, ps[m]).None?)
            && (r.None? ==> forall n | 0 <= n < |ps| :: Rendered(lower, ps[n]).None?)
  {
    if ps != [] {
      TryPatternsFirstRendered(lower, ps[1..]);
      if Rendered(lower, ps[0]).None? {
        assert TryPatterns(lower, ps) == TryPatterns(lower, ps[1..]);
        if TryPatterns(lower, ps).Some? {
          var n :| 0 <= n < |ps[1..]| && Rendered(lower, ps[1..][n]) == TryPatterns(lower, ps) && forall m | 0 <= m < n :: Rendered(lower, ps[1..][m]).None?;
          assert Rendered(lower, ps[n + 1]) == TryPatterns(lower, ps);
          assert forall m | 0 <= m < n + 1 :: Rendered(lower, ps[m]).None? by {
            forall m | 0 <= m < n + 1 ensures Rendered(lower, ps[m]).None? {
              if m > 0 { assert ps[m] == ps[1..][m - 1]; }
            }
          }
        } else {
          forall n | 0 <= n < |ps| ensures Rendered(lower, ps[n]).None? {
            if n > 0 { assert ps[n] == ps[1..][n - 1]; }
          }
        }
      } else {
        assert Rendered(lower, ps[0]) == TryPatterns(lower, ps);
      }
    }
  }

  /** `parse_time_from_text` */
  function ParseTimeFromText(text: string): (r: Option<string>)
    ensures r.Some? ==> |r.value| >= 8
  {
    TryPatterns(ToLower(text), TimePatterns)
  }

  /** A run of n digits ended by a non-digit (or by the cap) is measured as n. */
  lemma {:induction false} DigitRunExact(t: string, i: int, n: nat, cap: nat)
    requires 0 <= i && i + n <= |t| && n <= cap
    requires forall j :: i <= j < i + n ==> IsDigit(t[j])
    requires n == cap || i + n == |t| || !IsDigit(t[i + n])
    ensures DigitRun(t, i, cap) == n
    decreases n
  {
    if n > 0 {
      DigitRunExact(t, i + 1, n - 1, cap - 1);
    }
  }

  /** One or two digits, optional spaces, then "am" or "pm": a match of the first pattern at i. */
  lemma HourMeridiemMatch(t: string, i: int, n: nat, k: int, suffix: string)
    requires 0 <= i && 1 <= n <= 2 && i + n <= k <= |t|
    requires forall j :: i <= j < i + n ==> IsDigit(t[j])
    requires n == 2 || (i + n < |t| && !IsDigit(t[i + n]))
    requires forall j :: i + n <= j < k ==> t[j] in Whitespace
    requires suffix in {"am", "pm"} && OccursAt(t, suffix, k)
    ensures TimeMatchAt(t, HourMeridiem, i) == Some([t[i..i + n], suffix])
  {
    DigitRunExact(t, i, n, 2);
    assert t[k] == suffix[0];
    SkipSpacesExact(t, i + n, k);
    if suffix == "pm" {
      assert !OccursAt(t, "am", k);
    }
  }

  /** `\s*` stops at the first character that is not a space. */
  lemma {:induction false} SkipSpacesExact(t: string, i: int, k: int)
    requires 0 <= i <= k < |t|
    requires forall j :: i <= j < k ==> t[j] in Whitespace
    requires t[k] !in Whitespace
    ensures SkipSpaces(t, i) == k
    decreases k - i
  {
    if i < k {
      SkipSpacesExact(t, i + 1, k);
    }
  }

  /** Digits running into a ':' are no match of the first pattern. */
  lemma HourMeridiemFailsAtColon(t: string, i: int, c: int)
    requires 0 <= i <= c < |t| && c - i <= 2 && t[c] == ':'
    requires forall j :: i <= j < c ==> IsDigit(t[j])
    ensures TimeMatchAt(t, HourMeridiem, i).None?
  {
    DigitRunExact(t, i, c - i, 2);
    if i < c {
      SkipSpacesExact(t, c, c);
      assert !OccursAt(t, "am", c) && !OccursAt(t, "pm", c) by {
        if c + 2 <= |t| {
          assert t[c..c + 2][0] == ':';
        }
      }
    }
  }

  /** `\s*(am|pm)` from position k: whitespace up to m, then the group s at m. */
  predicate MeridiemFrom(t: string, k: int, m: int, s: string)
  {
    0 <= k <= m && s in {"am", "pm"} && OccursAt(t, s, m) && forall j :: k <= j < m ==> t[j] in Whitespace
  }

  /**
   * `p` matches at position i with the groups g: an hour of one or two digits read from the text at i,
   * then for the `H:MM` patterns a ':' and two more digits, and for the am/pm patterns the `(am|pm)`
   * group at m, after nothing but whitespace.
   */
  predicate TimeMatch(t: string, p: TimePattern, i: int, g: seq<string>, m: int)
  {
    0 <= i && |g| == GroupCount(p) && 1 <= |g[0]| <= 2 && AllDigits(g[0]) && OccursAt(t, g[0], i)
    && var h := i + |g[0]|;
    && (p == HourMeridiem ==> MeridiemFrom(t, h, m, g[1]))
    && (p != HourMeridiem ==> h < |t| && t[h] == ':' && |g[1]| == 2 && AllDigits(g[1]) && OccursAt(t, g[1], h + 1))
    && (p == ClockMeridiem ==> MeridiemFrom(t, h + 3, m, g[2]))
  }

  /** Digits at each position from i up to j make the slice all digits. */
  lemma DigitsSlice(t: string, i: int, j: int)
    requires 0 <= i <= j <= |t|
    requires forall k :: i <= k < j ==> IsDigit(t[k])
    ensures AllDigits(t[i..j])
  {
    assert forall k | 0 <= k < j - i :: t[i..j][k] == t[i + k];
  }

  /** A slice of digits has a digit at each of its positions in the text. */
  lemma SliceDigits(t: string, i: int, j: int)
    requires 0 <= i <= j <= |t| && AllDigits(t[i..j])
    ensures forall k :: i <= k < j ==> IsDigit(t[k])
  {
    assert forall k | i <= k < j :: t[i..j][k - i] == t[k];
  }

  /** Whatever the matcher returns at i is a match of `p` there, read from the text. */
  lemma TimeMatchSound(t: string, p: TimePattern, i: int) returns (m: int)
    requires 0 <= i <= |t| && TimeMatchAt(t, p, i).Some?
    ensures TimeMatch(t, p, i, TimeMatchAt(t, p, i).value, m)
  {
    var d := DigitRun(t, i, 2);
    DigitsSlice(t, i, i + d);
    match p
    case HourMeridiem =>
      m := SkipSpaces(t, i + d);
      HourMeridiemSound(t, i, m);
    case Clock =>
      m := 0;
      ClockSound(t, i);
    case ClockMeridiem =>
      m := SkipSpaces(t, i + d + 3);
      ClockMeridiemSound(t, i, m);
  }

  lemma HourMeridiemSound(t: string, i: int, m: int)
    requires 0 <= i <= |t| && TimeMatchAt(t, HourMeridiem, i).Some?
    requires m == SkipSpaces(t, i + DigitRun(t, i, 2)) && AllDigits(t[i..i + DigitRun(t, i, 2)])
    ensures TimeMatch(t, HourMeridiem, i, TimeMatchAt(t, HourMeridiem, i).value, m)
  {
  }

  lemma ClockSound(t: string, i: int)
    requires 0 <= i <= |t| && TimeMatchAt(t, Clock, i).Some? && AllDigits(t[i..i + DigitRun(t, i, 2)])
    ensures TimeMatch(t, Clock, i, TimeMatchAt(t, Clock, i).value, 0)
  {
    var d := DigitRun(t, i, 2);
    DigitsSlice(t, i + d + 1, i + d + 3);
  }

  lemma ClockMeridiemSound(t: string, i: int, m: int)
    requires 0 <= i <= |t| && TimeMatchAt(t, ClockMeridiem, i).Some?
    requires m == SkipSpaces(t, i + DigitRun(t, i, 2) + 3) && AllDigits(t[i..i + DigitRun(t, i, 2)])
    ensures TimeMatch(t, ClockMeridiem, i, TimeMatchAt(t, ClockMeridiem, i).value, m)
  {
    var d := DigitRun(t, i, 2);
    DigitsSlice(t, i + d + 1, i + d + 3);
  }

  /** Whenever `p` matches at i with the groups g, the matcher returns exactly g. */
  lemma TimeMatchComplete(t: string, p: TimePattern, i: int, g: seq<string>, m: int)
    requires i <= |t| && TimeMatch(t, p, i, g, m)
    ensures TimeMatchAt(t, p, i) == Some(g)
  {
    SliceDigits(t, i, i + |g[0]|);
    match p
    case HourMeridiem => HourMeridiemComplete(t, i, g, m);
    case Clock => ClockComplete(t, i, g);
    case ClockMeridiem => ClockMeridiemComplete(t, i, g, m);
  }

  lemma HourMeridiemComplete(t: string, i: int, g: seq<string>, m: int)
    requires i <= |t| && TimeMatch(t, HourMeridiem, i, g, m)
    requires forall k :: i <= k < i + |g[0]| ==> IsDigit(t[k])
    ensures TimeMatchAt(t, HourMeridiem, i) == Some(g)
  {
    assert t[m] == g[1][0];
    HourMeridiemMatch(t, i, |g[0]|, m, g[1]);
    assert g == [g[0], g[1]];
  }

  lemma ClockComplete(t: string, i: int, g: seq<string>)
    requires i <= |t| && TimeMatch(t, Clock, i, g, 0)
    requires forall k :: i <= k < i + |g[0]| ==> IsDigit(t[k])
    ensures TimeMatchAt(t, Clock, i) == Some(g)
  {
    var n := |g[0]|;
    SliceDigits(t, i + n + 1, i + n + 3);
    DigitRunExact(t, i, n, 2);
    assert g == [g[0], g[1]];
  }

  lemma ClockMeridiemComplete(t: string, i: int, g: seq<string>, m: int)
    requires i <= |t| && TimeMatch(t, ClockMeridiem, i, g, m)
    requires forall k :: i <= k < i + |g[0]| ==> IsDigit(t[k])
    ensures TimeMatchAt(t, ClockMeridiem, i) == Some(g)
  {
    var n := |g[0]|;
    SliceDigits(t, i + n + 1, i + n + 3);
    DigitRunExact(t, i, n, 2);
    assert t[m] == g[2][0];
    SkipSpacesExact(t, i + n + 3, m);
    if g[2] == "pm" {
      assert !OccursAt(t, "am", m);
    }
    assert g == [g[0], g[1], g[2]];
  }

  /** A search passes over positions where the pattern does not match. */
  lemma {:induction false} SearchTimeSkips(t: string, p: TimePattern, i: int, j: int)
    requires 0 <= i <= j <= |t|
    requires forall k :: i <= k < j ==> TimeMatchAt(t, p, k).None?
    ensures SearchTime(t, p, i) == SearchTime(t, p, j)
    decreases j - i
  {
    if i < j {
      SearchTimeSkips(t, p, i + 1, j);
    }
  }

  /** A search returns the first position where the pattern matches. */
  lemma SearchTimeFinds(t: string, p: TimePattern, i: int, j: int)
    requires 0 <= i <= j < |t| && TimeMatchAt(t, p, j).Some?
    requires forall k :: i <= k < j ==> TimeMatchAt(t, p, k).None?
    ensures SearchTime(t, p, i) == TimeMatchAt(t, p, j)
  {
    SearchTimeSkips(t, p, i, j);
  }

  /** When the first pattern finds a match, that match decides the time. */
  lemma FirstPatternDecides(lower: string, g: seq<string>)
    requires SearchTime(lower, HourMeridiem, 0) == Some(g) && RenderTime(lower, g).Some?
    ensures TryPatterns(lower, TimePatterns) == RenderTime(lower, g)
  {
  }

  /** A match of `p` at position j is found by every search that starts at or before j. */
  lemma {:induction false} SearchTimeReaches(t: string, p: TimePattern, i: int, j: int)
    requires 0 <= i <= j < |t| && TimeMatchAt(t, p, j).Some?
    ensures SearchTime(t, p, i).Some?
    decreases j - i
  {
    if i < j && TimeMatchAt(t, p, i).None? {
      SearchTimeReaches(t, p, i + 1, j);
    }
  }

  /** A search that succeeds found a match at some position. */
  lemma {:induction false} SearchTimeWitness(t: string, p: TimePattern, i: int) returns (j: int)
    requires 0 <= i <= |t| && SearchTime(t, p, i).Some?
    ensures i <= j < |t| && TimeMatchAt(t, p, j) == SearchTime(t, p, i)
    decreases |t| - i
  {
    if TimeMatchAt(t, p, i).Some? {
      j := i;
    } else {
      j := SearchTimeWitness(t, p, i + 1);
    }
  }

  /** Inside a match of `H:MMam`, the minutes and the "am"/"pm" are a match of `Ham`. */
  lemma ClockMeridiemHoldsHourMeridiem(t: string, i: int) returns (j: int)
    requires 0 <= i <= |t| && TimeMatchAt(t, ClockMeridiem, i).Some?
    ensures 0 <= j < |t| && TimeMatchAt(t, HourMeridiem, j).Some?
  {
    var d := DigitRun(t, i, 2);
    assert ClockAt(t, i);
    j := i + d + 1;
    var k := SkipSpaces(t, j + 2);
    var m := MeridiemAt(t, k);
    assert m.Some?;
    assert k < |t| && !IsDigit(t[k]) by {
      assert OccursAt(t, m.value, k);
      assert t[k] == m.value[0];
    }
    assert j + 2 < |t| && !IsDigit(t[j + 2]) by {
      if k > j + 2 {
        assert t[j + 2] in Whitespace;
      }
    }
    HourMeridiemMatch(t, j, 2, k, m.value);
  }

  /** Whenever the second pattern matches, the first one does too: the second never decides. */
  lemma ClockMeridiemNeverDecides(text: string)
    ensures ParseTimeFromText(text) == TryPatterns(ToLower(text), [HourMeridiem, Clock])
  {
    var lower := ToLower(text);
    assert TimePatterns[1..] == [ClockMeridiem, Clock];
    assert TimePatterns[1..][1..] == [Clock];
    assert [HourMeridiem, Clock][1..] == [Clock];
    match SearchTime(lower, HourMeridiem, 0)
    case Some(g) =>
      HourMeridiemRenders(lower, g);
    case None =>
      if SearchTime(lower, ClockMeridiem, 0).Some? {
        var j := SearchTimeWitness(lower, ClockMeridiem, 0);
        var j' := ClockMeridiemHoldsHourMeridiem(lower, j);
        SearchTimeReaches(lower, HourMeridiem, 0, j');
        assert false;
      }
      assert TryPatterns(lower, TimePatterns) == TryPatterns(lower, [ClockMeridiem, Clock]);
      assert TryPatterns(lower, [ClockMeridiem, Clock]) == TryPatterns(lower, [Clock]);
      assert TryPatterns(lower, [HourMeridiem, Clock]) == TryPatterns(lower, [Clock]);
  }

  /** A match of the first pattern always yields a time: it names "am" or "pm", so the 12-hour branch runs. */
  lemma HourMeridiemRenders(lower: string, g: seq<string>)
    requires SearchTime(lower, HourMeridiem, 0) == Some(g)
    ensures RenderTime(lower, g).Some?
    ensures Contains(lower, "am") || Contains(lower, "pm")
  {
    var j := SearchTimeWitness(lower, HourMeridiem, 0);
    var k := SkipSpaces(lower, j + DigitRun(lower, j, 2));
    assert OccursAt(lower, g[1], k);
    ContainsAt(lower, g[1], k);
  }

  /** With "am" or "pm" in the text, a two-group match renders with zero minutes. */
  lemma TwoGroupsRenderOnTheHour(lower: string, g: seq<string>)
    requires |g| == 2 && RenderTime(lower, g).Some?
    requires Contains(lower, "am") || Contains(lower, "pm")
    ensures var r := RenderTime(lower, g).value; r[|r| - 6..] == ":00:00"
  {
    var h := ParseNat(g[0]).value;
    var hour := if Contains(lower, "pm") && h != 12 then h + 12 else if Contains(lower, "am") && h == 12 then 0 else h;
    assert RenderTime(lower, g).value == TimeString(hour, 0);
    TimeOnTheHourEnds(hour);
  }

  /** A time with zero minutes ends in ":00:00". */
  lemma TimeOnTheHourEnds(hour: nat)
    ensures var r := TimeString(hour, 0); r[|r| - 6..] == ":00:00"
  {
    var p := Pad2(hour);
    assert Pad2(0) == "00";
    assert TimeString(hour, 0) == p + ":00:00";
  }

  /**
   * Once "am" or "pm" appears anywhere in the message, the minutes are dropped:
   * every time read from it is on the hour.
   */
  lemma MeridiemTimesAreOnTheHour(text: string)
    requires Contains(ToLower(text), "am") || Contains(ToLower(text), "pm")
    requires ParseTimeFromText(text).Some?
    ensures var r := ParseTimeFromText(text).value; r[|r| - 6..] == ":00:00"
  {
    var g := TimeFromTwoGroups(text);
    TwoGroupsRenderOnTheHour(ToLower(text), g);
  }

  /** Every time read comes from a two-group match: `Ham` or `H:MM`, since `H:MMam` never decides. */
  lemma TimeFromTwoGroups(text: string) returns (g: seq<string>)
    requires ParseTimeFromText(text).Some?
    ensures |g| == 2 && ParseTimeFromText(text) == RenderTime(ToLower(text), g)
  {
    ClockMeridiemNeverDecides(text);
    var lower := ToLower(text);
    assert [HourMeridiem, Clock][1..] == [Clock];
    if SearchTime(lower, HourMeridiem, 0).Some? {
      g := SearchTime(lower, HourMeridiem, 0).value;
      HourMeridiemRenders(lower, g);
    } else {
      assert TryPatterns(lower, [HourMeridiem, Clock]) == TryPatterns(lower, [Clock]);
      assert [Clock][0] == Clock && [Clock][1..] == [];
      assert TryPatterns(lower, []) == None;
      g := SearchTime(lower, Clock, 0).value;
    }
  }

  /** Without "am" or "pm" in the message, only the `H:MM` pattern can decide the time. */
  lemma NoMeridiemLeavesClock(text: string)
    requires !Contains(ToLower(text), "am") && !Contains(ToLower(text), "pm")
    ensures ParseTimeFromText(text) == TryPatterns(ToLower(text), [Clock])
  {
    ClockMeridiemNeverDecides(text);
    var lower := ToLower(text);
    if SearchTime(lower, HourMeridiem, 0).Some? {
      HourMeridiemRenders(lower, SearchTime(lower, HourMeridiem, 0).value);
      assert false;
    }
    assert [HourMeridiem, Clock][1..] == [Clock];
  }

  /** The 24-hour branch: without "am"/"pm", the leftmost `H:MM` is kept as written. */
  lemma TwentyFourHourClock(text: string, g: seq<string>)
    requires !Contains(ToLower(text), "am") && !Contains(ToLower(text), "pm")
    requires SearchTime(ToLower(text), Clock, 0) == Some(g)
    ensures ParseTimeFromText(text) == Some(TimeString(DigitsValue(g[0]), DigitsValue(g[1])))
  {
    NoMeridiemLeavesClock(text);
  }

  /** Without "am"/"pm" and without any `H:MM`, no time is read. */
  lemma NoClockNoTime(text: string)
    requires !Contains(ToLower(text), "am") && !Contains(ToLower(text), "pm")
    requires SearchTime(ToLower(text), Clock, 0).None?
    ensures ParseTimeFromText(text).None?
  {
    NoMeridiemLeavesClock(text);
    assert [Clock][1..] == [];
  }

  /** In "3:30pm" the first pattern's leftmost match is "30pm". */
  lemma HalfPastThreePmFirstMatch()
    ensures SearchTime("3:30pm", HourMeridiem, 0) == Some(["30", "pm"])
  {
    var t := "3:30pm";
    HourMeridiemFailsAtColon(t, 0, 1);
    assert DigitRun(t, 1, 2) == 0;
    assert TimeMatchAt(t, HourMeridiem, 1).None?;
    assert t[4..6] == "pm" && t[2..4] == "30";
    HourMeridiemMatch(t, 2, 2, 4, "pm");
  }

  lemma HalfPastThreePmHasNoAm()
    ensures !Contains("3:30pm", "am") && Contains("3:30pm", "pm")
  {
    var t := "3:30pm";
    forall i | 0 <= i <= |t| - 2
      ensures !OccursAt(t, "am", i)
    {
      assert t[i] != 'a';
      assert t[i..i + 2][0] == t[i];
    }
    assert t[4..6] == "pm";
    ContainsAt(t, "pm", 4);
  }

  lemma HalfPastThreePmRenders()
    ensures RenderTime("3:30pm", ["30", "pm"]) == Some("42:00:00")
  {
    HalfPastThreePmHasNoAm();
    assert ParseNat("30") == Some(30) by {
      assert "30"[..1] == "3";
      assert DigitsValue("3") == 3 by { assert "3"[..0] == ""; }
    }
    assert Pad2(42) == "42" by {
      assert NatToString(42) == NatToString(4) + "2";
    }
    assert Pad2(0) == "00";
    assert TimeString(42, 0) == "42" + ":" + "00" + ":00" == "42:00:00";
  }

  /** The source's own example: "3:30pm" is read as hour 30 in the afternoon. */
  lemma HalfPastThreePmReadsAsFortyTwo()
    ensures ParseTimeFromText("3:30pm") == Some("42:00:00")
  {
    var t := "3:30pm";
    ToLowerNoUpper(t);
    assert ParseTimeFromText(t) == TryPatterns(t, TimePatterns);
    HalfPastThreePmFirstMatch();
    HalfPastThreePmRenders();
  }

  // ----- booking details -----

  /**
   * `extract_booking_info`: reads a date and a time from the message, each only
   * when the context has no truthy value for it yet.
   */
  function ExtractBookingInfo(message: string, context: Context, today: DayNumber, dayFirst: string -> Option<DayNumber>): (updates: Context)
    requires today + 7 <= MaxOrdinal
    ensures updates.Keys <= {"date", "time"}
    ensures forall k :: k in updates ==> updates[k].Str? && Truthy(updates[k])
  {
    SlotUpdates(context, ParseDateFromText(message, today, dayFirst), ParseTimeFromText(message))
  }

  /**
   * The updates `extract_booking_info` builds from what the parsers found: each slot
   * only when the context has no truthy value for it and the parser found a non-empty one.
   */
  function SlotUpdates(context: Context, date: Option<string>, time: Option<string>): (updates: Context)
    ensures updates.Keys <= {"date", "time"}
    ensures forall k :: k in updates ==> updates[k].Str? && Truthy(updates[k])
  {
    var date := if Filled(context, "date") then None else date;
    var time := if Filled(context, "time") then None else time;
    var withDate: Context := if date.Some? && date.value != "" then map["date" := Str(date.value)] else map[];
    if time.Some? && time.value != "" then withDate["time" := Str(time.value)] else withDate
  }

  /** Merging the updates keeps every filled slot and fills an empty one exactly when a non-empty value was found. */
  lemma SlotUpdatesFillOnlyEmpty(context: Context, date: Option<string>, time: Option<string>)
    ensures var merged := context + SlotUpdates(context, date, time);
            (forall k :: Filled(context, k) ==> k in merged && merged[k] == context[k])
            && (!Filled(context, "date") ==>
                  (Filled(merged, "date") <==> date.Some? && date.value != "")
                  && (Filled(merged, "date") ==> merged["date"] == Str(date.value)))
            && (!Filled(context, "time") ==>
                  (Filled(merged, "time") <==> time.Some? && time.value != "")
                  && (Filled(merged, "time") ==> merged["time"] == Str(time.value)))
  {
    var u := SlotUpdates(context, date, time);
    var merged := context + u;
    forall k | Filled(context, k)
      ensures k in merged && merged[k] == context[k]
    {
      assert k !in u;
    }
  }

  /**
   * Merging what was extracted never replaces a date or time the booking already
   * has, and fills an empty one exactly when the message names one.
   */
  lemma ExtractionFillsOnlyEmptySlots(message: string, context: Context, today: DayNumber, dayFirst: string -> Option<DayNumber>)
    requires today + 7 <= MaxOrdinal
    ensures var merged := context + ExtractBookingInfo(message, context, today, dayFirst);
            (forall k :: Filled(context, k) ==> k in merged && merged[k] == context[k])
            && (!Filled(context, "date") ==>
                  (Filled(merged, "date") <==> ParseDateFromText(message, today, dayFirst).Some?)
                  && (Filled(merged, "date") ==> merged["date"] == Str(ParseDateFromText(message, today, dayFirst).value)))
            && (!Filled(context, "time") ==>
                  (Filled(merged, "time") <==> ParseTimeFromText(message).Some?)
                  && (Filled(merged, "time") ==> merged["time"] == Str(ParseTimeFromText(message).value)))
  {
    var date := ParseDateFromText(message, today, dayFirst);
    var time := ParseTimeFromText(message);
    SlotUpdatesFillOnlyEmpty(context, date, time);
    assert date.Some? ==> date.value != "" by {
      if date.Some? {
        assert IsCalendarDate(date.value);
      }
    }
    assert time.Some? ==> time.value != "";
  }
}
