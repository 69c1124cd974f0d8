/**
 * The display helpers of `AppointmentManager` (appointment_manager.py):
 * `_format_time_12hr`, `format_available_slots` and `format_doctor_info`.
 */
module Formatting {
  import opened Wrappers
  import opened Text
  import opened Gateway
  import opened Extraction

  /** The hour shown on a 12-hour clock for a 24-hour hour. */
  function Hour12(hour: nat): nat
  {
    if hour == 0 then 12 else if hour <= 12 then hour else hour - 12
  }

  /** The 12-hour to 24-hour conversion `parse_time_from_text` applies ("pm" and not 12: add 12; "am" and 12: midnight). */
  function To24Hour(hour: nat, pm: bool): nat
  {
    if pm && hour != 12 then hour + 12 else if !pm && hour == 12 then 0 else hour
  }

  /** Writing an hour of the day on a 12-hour clock and reading it back with the parser's rule is the identity. */
  lemma TwelveHourClockRoundTrip(hour: nat)
    requires hour < 24
    ensures 1 <= Hour12(hour) <= 12
    ensures To24Hour(Hour12(hour), hour >= 12) == hour
  {
  }

  /** The 12-hour text `_format_time_12hr` builds from an hour and the minutes as written. */
  function Clock12(hour: int, minute: string): (r: string)
    ensures |r| >= 3 && r[|r| - 3..] in {" AM", " PM"}
  {
    if hour == 0 then "12:" + minute + " AM"
    else if hour < 12 then IntToString(hour) + ":" + minute + " AM"
    else if hour == 12 then "12:" + minute + " PM"
    else IntToString(hour - 12) + ":" + minute + " PM"
  }

  /** `_format_time_12hr`; None where the unpacking or `int(hour)` raises. */
  function FormatTime12(time24: string): (r: Option<string>)
    ensures r.Some? ==> |r.value| >= 3 && r.value[|r.value| - 3..] in {" AM", " PM"}
  {
    var parts := SplitOn(time24, ':');
    if |parts| != 3 then None
    else
      match ParseInt(parts[0])
      case None => None
      case Some(hour) => Some(Clock12(hour, parts[1]))
  }

  /** Splitting "H:M:S" at ':' gives its three fields back when none of them holds a ':'. */
  lemma SplitThreeFields(h: string, m: string, sec: string)
    requires ':' !in h && ':' !in m && ':' !in sec
    ensures SplitOn(h + ":" + m + ":" + sec, ':') == [h, m, sec]
  {
    assert h + ":" + m + ":" + sec == h + [':'] + (m + [':'] + sec);
    SplitOnFirst(h, ':', m + [':'] + sec);
    SplitOnFirst(m, ':', sec);
  }

  lemma TwelveText()
    ensures NatToString(12) == "12"
  {
    assert NatToString(12) == NatToString(1) + [DigitChar(2)];
  }

  /**
   * A slot time "HH:MM:SS" is shown as the same instant on a 12-hour clock: the
   * hour `Hour12`, the minutes untouched, AM before noon and PM from noon on.
   */
  lemma FormatTime12Shows(hour: nat, minute: string, second: string)
    requires hour < 24 && ':' !in minute && ':' !in second
    ensures FormatTime12(Pad2(hour) + ":" + minute + ":" + second)
            == Some(NatToString(Hour12(hour)) + ":" + minute + (if hour < 12 then " AM" else " PM"))
  {
    var hh := Pad2(hour);
    SplitThreeFields(hh, minute, second);
    ParseIntDigits(hh);
    FormatTime12Fields(hh + ":" + minute + ":" + second, hh, minute, second, hour);
  }

  /** `_format_time_12hr` on a time whose three fields are known and whose hour reads as `hour`. */
  lemma FormatTime12Fields(time24: string, hh: string, minute: string, second: string, hour: nat)
    requires hour < 24 && SplitOn(time24, ':') == [hh, minute, second] && ParseInt(hh) == Some(hour)
    ensures FormatTime12(time24) == Some(NatToString(Hour12(hour)) + ":" + minute + (if hour < 12 then " AM" else " PM"))
  {
    FormatTime12Read(time24, hh, minute, second, hour);
    Clock12Shows(hour, minute);
  }

  /** For an hour of the day, the 12-hour text is `Hour12` of it, the minutes, then AM before noon and PM from noon on. */
  lemma Clock12Shows(hour: nat, minute: string)
    requires hour < 24
    ensures Clock12(hour, minute) == NatToString(Hour12(hour)) + ":" + minute + (if hour < 12 then " AM" else " PM")
  {
    TwelveText();
    var shown := NatToString(Hour12(hour)) + ":" + minute + (if hour < 12 then " AM" else " PM");
    if hour == 0 {
      assert shown == "12:" + minute + " AM";
    } else if hour == 12 {
      assert shown == "12:" + minute + " PM";
    }
  }

  /**
   * `int` takes a sign, so a slot whose hour is negative ("-1:30:00") is shown
   * as a morning time ("-1:30 AM") rather than rejected.
   */
  lemma NegativeHourShownAsMorning(n: nat, minute: string, second: string)
    requires n >= 1 && ':' !in minute && ':' !in second
    ensures FormatTime12("-" + NatToString(n) + ":" + minute + ":" + second)
            == Some("-" + NatToString(n) + ":" + minute + " AM")
  {
    var digits := NatToString(n);
    var hh := "-" + digits;
    assert ':' !in hh by {
      forall i | 0 <= i < |hh|
        ensures hh[i] != ':'
      {
        if i > 0 {
          assert hh[i] == digits[i - 1] && IsDigit(digits[i - 1]);
        }
      }
    }
    SplitThreeFields(hh, minute, second);
    NegativeHourRead(n, hh);
    FormatTime12Read(hh + ":" + minute + ":" + second, hh, minute, second, -(n as int));
    assert IntToString(-(n as int)) == hh;
  }

  lemma NegativeHourRead(n: nat, hh: string)
    requires hh == "-" + NatToString(n)
    ensures ParseInt(hh) == Some(-(n as int))
  {
    ParseIntNegative(NatToString(n));
    NatToStringRoundTrip(n);
  }

  /** `_format_time_12hr` on three fields whose hour `int` reads as `hour`. */
  lemma FormatTime12Read(time24: string, hh: string, minute: string, second: string, hour: int)
    requires SplitOn(time24, ':') == [hh, minute, second] && ParseInt(hh) == Some(hour)
    ensures FormatTime12(time24) == Some(Clock12(hour, minute))
  {
  }

  /** The hour `int(s.split(':')[0])` reads from a slot; None where it raises. */
  function SlotHour(slot: string): Option<int>
  {
    ParseInt(SplitOn(slot, ':')[0])
  }

  /** The `am_slots` and `pm_slots` lists, in the slots' order; None where a slot has no readable hour. */
  function SplitAtNoon(slots: seq<string>): (r: Option<(seq<string>, seq<string>)>)
    ensures r.Some? <==> forall i :: 0 <= i < |slots| ==> SlotHour(slots[i]).Some?
  {
    if slots == [] then Some(([], []))
    else
      match SplitAtNoon(slots[1..])
      case None => None
      case Some((am, pm)) =>
        match SlotHour(slots[0])
        case None => None
        case Some(h) =>
          if h < 12 then Some(([slots[0]] + am, pm)) else Some((am, [slots[0]] + pm))
  }

  /** Every slot lands in exactly one of the two lists. */
  lemma {:induction false} SplitAtNoonPermutes(slots: seq<string>)
    requires SplitAtNoon(slots).Some?
    ensures multiset(SplitAtNoon(slots).value.0) + multiset(SplitAtNoon(slots).value.1) == multiset(slots)
  {
    if slots != [] {
      var rest := SplitAtNoon(slots[1..]).value;
      SplitAtNoonPermutes(slots[1..]);
      var r := SplitAtNoon(slots).value;
      assert r == ([slots[0]] + rest.0, rest.1) || r == (rest.0, [slots[0]] + rest.1);
      FirstJoinsOneSide(slots, rest.0, rest.1, r.0, r.1);
    }
  }

  lemma FirstJoinsOneSide(slots: seq<string>, am: seq<string>, pm: seq<string>, am': seq<string>, pm': seq<string>)
    requires slots != [] && multiset(am) + multiset(pm) == multiset(slots[1..])
    requires (am', pm') == ([slots[0]] + am, pm) || (am', pm') == (am, [slots[0]] + pm)
    ensures multiset(am') + multiset(pm') == multiset(slots)
  {
    assert slots == [slots[0]] + slots[1..];
  }

  /** The morning list holds only slots whose hour is before 12. */
  lemma {:induction false} MorningBeforeNoon(slots: seq<string>)
    requires SplitAtNoon(slots).Some?
    ensures forall s :: s in SplitAtNoon(slots).value.0 ==> SlotHour(s).Some? && SlotHour(s).value < 12
  {
    if slots != [] {
      MorningBeforeNoon(slots[1..]);
    }
  }

  /** The afternoon/evening list holds only slots whose hour is 12 or later. */
  lemma {:induction false} AfternoonFromNoon(slots: seq<string>)
    requires SplitAtNoon(slots).Some?
    ensures forall s :: s in SplitAtNoon(slots).value.1 ==> SlotHour(s).Some? && SlotHour(s).value >= 12
  {
    if slots != [] {
      AfternoonFromNoon(slots[1..]);
    }
  }

  /** The 12-hour renderings of a list of slots; None where one of them raises. */
  function FormatAll(slots: seq<string>): (r: Option<seq<string>>)
    ensures r.Some? ==> |r.value| == |slots| && forall i :: 0 <= i < |slots| ==> FormatTime12(slots[i]) == Some(r.value[i])
  {
    if slots == [] then Some([])
    else
      match FormatTime12(slots[0])
      case None => None
      case Some(first) =>
        match FormatAll(slots[1..])
        case None => None
        case Some(rest) =>
          assert forall i :: 1 <= i < |slots| ==> slots[i] == slots[1..][i - 1];
          Some([first] + rest)
  }

  /** The renderings exist exactly when every slot can be shown on a 12-hour clock. */
  lemma {:induction false} FormatAllDefined(slots: seq<string>)
    ensures FormatAll(slots).Some? <==> forall i :: 0 <= i < |slots| ==> FormatTime12(slots[i]).Some?
  {
    if slots != [] {
      FormatAllDefined(slots[1..]);
      assert forall i :: 1 <= i < |slots| ==> slots[i] == slots[1..][i - 1];
    }
  }

  /** The first five of `slots` (all of them when fewer) can each be shown on a 12-hour clock. */
  predicate Displayable(slots: seq<string>)
  {
    forall i :: 0 <= i < |slots| && i < 5 ==> FormatTime12(slots[i]).Some?
  }

  /** `shown` lists the first five of `slots` (all of them when fewer), each on a 12-hour clock. */
  predicate ShowsFirstFive(slots: seq<string>, shown: seq<string>)
  {
    |shown| == |Take(slots, 5)| && forall i :: 0 <= i < |shown| ==> FormatTime12(slots[i]) == Some(shown[i])
  }

  /** The display line of a half of the day: none for no slots, else the heading and the slots shown. */
  function Line(heading: string, shown: seq<string>): seq<string>
  {
    if shown == [] then [] else [heading + Join(", ", shown)]
  }

  /** One display line: a label and the first five slots of its half of the day. */
  function SlotLine(heading: string, slots: seq<string>): (r: Option<seq<string>>)
    ensures r.Some? <==> Displayable(slots)
    ensures r.Some? ==> |r.value| == if slots == [] then 0 else 1
  {
    if slots == [] then Some([])
    else
      var first := Take(slots, 5);
      assert forall i :: 0 <= i < |first| ==> first[i] == slots[i];
      assert |first| == |slots| || |first| == 5;
      FormatAllDefined(first);
      match FormatAll(first)
      case None => None
      case Some(shown) => Some([heading + Join(", ", shown)])
  }

  /** A half of the day is shown as its heading followed by its first five slots on a 12-hour clock, joined by ", ". */
  lemma SlotLineShows(heading: string, slots: seq<string>, shown: seq<string>)
    requires ShowsFirstFive(slots, shown)
    ensures SlotLine(heading, slots) == Some(Line(heading, shown))
  {
    if slots != [] {
      var first := Take(slots, 5);
      assert forall i :: 0 <= i < |first| ==> first[i] == slots[i];
      FormatAllDefined(first);
      var v := FormatAll(first).value;
      assert v == shown;
    }
  }

  const MorningHeading := "Morning: "
  const EveningHeading := "Afternoon/Evening: "

  /** The display lines for a non-empty list of slots: a morning line and an afternoon line, each when there is one. */
  function SlotLines(slots: seq<string>): (r: Option<seq<string>>)
    ensures r.Some? <==> SplitAtNoon(slots).Some? && Displayable(SplitAtNoon(slots).value.0) && Displayable(SplitAtNoon(slots).value.1)
  {
    match SplitAtNoon(slots)
    case None => None
    case Some((am, pm)) =>
      match SlotLine(MorningHeading, am)
      case None => None
      case Some(morning) =>
        match SlotLine(EveningHeading, pm)
        case None => None
        case Some(afternoon) => Some(morning + afternoon)
  }

  /**
   * `format_available_slots`; None where a slot is not an "H:M:S" time with a numeric hour,
   * or one of the first five of a half of the day cannot be shown on a 12-hour clock.
   */
  function FormatAvailableSlots(slots: seq<string>): (r: Option<string>)
    ensures r.Some? <==> slots == [] || SlotLines(slots).Some?
  {
    if slots == [] then Some("No available slots")
    else
      match SlotLines(slots)
      case None => None
      case Some(lines) => Some(Join("\n", lines))
  }

  /**
   * The text for slots split at noon into `am` and `pm`: the morning line when there are
   * morning slots, then the afternoon/evening line when there are later ones, on separate lines.
   */
  lemma AvailableSlotsText(slots: seq<string>, am: seq<string>, pm: seq<string>, amShown: seq<string>, pmShown: seq<string>)
    requires slots != [] && SplitAtNoon(slots) == Some((am, pm))
    requires ShowsFirstFive(am, amShown) && ShowsFirstFive(pm, pmShown)
    ensures FormatAvailableSlots(slots) == Some(Join("\n", Line(MorningHeading, amShown) + Line(EveningHeading, pmShown)))
  {
    SlotLineShows(MorningHeading, am, amShown);
    SlotLineShows(EveningHeading, pm, pmShown);
  }

  /** A non-empty display line begins with its heading. */
  lemma SlotLineStartsWithHeading(heading: string, slots: seq<string>)
    requires slots != [] && SlotLine(heading, slots).Some?
    ensures |SlotLine(heading, slots).value| == 1
    ensures var line := SlotLine(heading, slots).value[0]; |line| >= |heading| && line[..|heading|] == heading
  {
  }

  /** The joined text begins with the first part. */
  lemma {:induction false} JoinStartsWithFirst(lines: seq<string>)
    requires |lines| > 0
    ensures |Join("\n", lines)| >= |lines[0]| && Join("\n", lines)[..|lines[0]|] == lines[0]
  {
    if |lines| > 1 {
      assert Join("\n", lines) == lines[0] + "\n" + Join("\n", lines[1..]);
    }
  }

  /** For slots there is a first line: the morning line when there are morning slots, else the afternoon/evening line. */
  lemma SlotLinesOpenWithHeading(slots: seq<string>)
    requires slots != [] && SlotLines(slots).Some?
    ensures |SlotLines(slots).value| > 0
    ensures var line := SlotLines(slots).value[0];
            (SplitAtNoon(slots).value.0 != [] ==> OccursAt(line, MorningHeading, 0))
            && (SplitAtNoon(slots).value.0 == [] ==> OccursAt(line, EveningHeading, 0))
  {
    var halves := SplitAtNoon(slots).value;
    SplitAtNoonPermutes(slots);
    assert slots[0] in multiset(slots);
    var morning := SlotLine(MorningHeading, halves.0).value;
    var afternoon := SlotLine(EveningHeading, halves.1).value;
    assert SlotLines(slots).value == morning + afternoon;
    if halves.0 != [] {
      SlotLineStartsWithHeading(MorningHeading, halves.0);
      assert (morning + afternoon)[0] == morning[0];
    } else {
      SlotLineStartsWithHeading(EveningHeading, halves.1);
      assert (morning + afternoon)[0] == afternoon[0];
    }
  }

  /** The placeholder text appears exactly when there are no slots. */
  lemma NoSlotsTextOnlyForNoSlots(slots: seq<string>)
    ensures FormatAvailableSlots(slots) == Some("No available slots") <==> slots == []
  {
    if slots != [] && SlotLines(slots).Some? {
      var lines := SlotLines(slots).value;
      SlotLinesOpenWithHeading(slots);
      JoinStartsWithFirst(lines);
      assert Join("\n", lines)[0] == lines[0][0];
      assert lines[0][0] == MorningHeading[0] || lines[0][0] == EveningHeading[0];
      assert "No available slots"[0] == 'N';
    }
  }

  /** The specialty shown for a doctor record without one. */
  const DefaultSpecialty := "General Practitioner"

  /** `format_doctor_info`: "Dr. <first> <last> (<specialty>)", General Practitioner when none is given. */
  function FormatDoctorInfo(doctor: Json): (r: string)
    ensures |r| >= 7 && r[..4] == "Dr. "
    ensures EndsWith(r, "(" + Field(doctor, "specialist", DefaultSpecialty) + ")")
    ensures "specialist" !in doctor ==> EndsWith(r, "(" + DefaultSpecialty + ")")
  {
    var head := "Dr. " + Field(doctor, "firstName", "") + " " + Field(doctor, "lastName", "") + " ";
    var tail := "(" + Field(doctor, "specialist", DefaultSpecialty) + ")";
    assert (head + tail)[..4] == head[..4];
    assert (head + tail)[|head|..] == tail;
    head + tail
  }

  /** Between "Dr. " and the space before the specialty stand the first name, a space and the last name. */
  lemma DoctorInfoNames(doctor: Json)
    ensures var r := FormatDoctorInfo(doctor);
            var tail := "(" + Field(doctor, "specialist", DefaultSpecialty) + ")";
            |r| >= |tail| + 5 && r[|r| - |tail| - 1] == ' '
            && r[4..|r| - |tail| - 1] == Field(doctor, "firstName", "") + " " + Field(doctor, "lastName", "")
  {
    var names := Field(doctor, "firstName", "") + " " + Field(doctor, "lastName", "");
    var tail := "(" + Field(doctor, "specialist", DefaultSpecialty) + ")";
    assert FormatDoctorInfo(doctor) == "Dr. " + names + " " + tail;
    BetweenPrefixAndSpace("Dr. ", names, tail);
  }

  /** In p + m + " " + q, the middle part sits between p and the space before q. */
  lemma BetweenPrefixAndSpace(p: string, m: string, q: string)
    ensures var r := p + m + " " + q;
            |r| >= |p| + |q| + 1 && r[|r| - |q| - 1] == ' ' && r[|p|..|r| - |q| - 1] == m
  {
    var r := p + m + " " + q;
    assert r == (p + m) + ([' '] + q);
    assert r[|p|..|p| + |m|] == m;
  }

  /** `s.endswith(suffix)` */
  predicate EndsWith(s: string, suffix: string)
  {
    |suffix| <= |s| && s[|s| - |suffix|..] == suffix
  }

  // ----- reading times back -----

  /** The time `parse_time_from_text` returns for a match whose hour group reads h in a text naming only `suffix`. */
  lemma RenderSingleMeridiem(lower: string, digits: string, h: nat, pm: bool)
    requires ParseNat(digits) == Some(h)
    requires pm ==> Contains(lower, "pm") && !Contains(lower, "am")
    requires !pm ==> Contains(lower, "am") && !Contains(lower, "pm")
    ensures RenderTime(lower, [digits, if pm then "pm" else "am"]) == Some(TimeString(To24Hour(h, pm), 0))
  {
  }

  /** `TimeString(hour, 0)` is the hour, then ":00:00". */
  lemma OnTheHourText(hour: nat)
    ensures TimeString(hour, 0) == Pad2(hour) + ":" + "00" + ":" + "00"
  {
    assert Pad2(0) == "00";
  }

  /** A lower-case text whose first-pattern match reads h, and that names only one of "am"/"pm", parses to that hour. */
  lemma ParsesSingleMeridiem(t: string, digits: string, h: nat, pm: bool)
    requires ToLower(t) == t
    requires SearchTime(t, HourMeridiem, 0) == Some([digits, if pm then "pm" else "am"])
    requires ParseNat(digits) == Some(h)
    requires pm ==> Contains(t, "pm") && !Contains(t, "am")
    requires !pm ==> Contains(t, "am") && !Contains(t, "pm")
    ensures ParseTimeFromText(t) == Some(TimeString(To24Hour(h, pm), 0))
  {
    RenderSingleMeridiem(t, digits, h, pm);
    FirstPatternDecides(t, [digits, if pm then "pm" else "am"]);
  }

  /** "3pm" and the like: the text, its first-pattern match and the meridiem it names. */
  lemma TypedHourFacts(h: nat, pm: bool)
    requires 1 <= h <= 12
    ensures var t := NatToString(h) + (if pm then "pm" else "am");
            ToLower(t) == t
            && SearchTime(t, HourMeridiem, 0) == Some([NatToString(h), if pm then "pm" else "am"])
            && (pm ==> Contains(t, "pm") && !Contains(t, "am"))
            && (!pm ==> Contains(t, "am") && !Contains(t, "pm"))
  {
    var n := NatToString(h);
    NatToStringLength(h);
    HourThenSuffix(n, if pm then "pm" else "am");
  }

  /** Digits followed by "am" (or "pm"): lower-case, matched whole by the first pattern, naming only that suffix. */
  lemma HourThenSuffix(n: string, suffix: string)
    requires 1 <= |n| <= 2 && AllDigits(n) && suffix in {"am", "pm"}
    ensures var t := n + suffix;
            ToLower(t) == t
            && SearchTime(t, HourMeridiem, 0) == Some([n, suffix])
            && Contains(t, suffix) && !Contains(t, if suffix == "pm" then "am" else "pm")
  {
    var t := n + suffix;
    HourThenSuffixLower(t, n, suffix);
    HourThenSuffixMatch(t, n, suffix);
    SuffixOccurs(n, suffix);
  }

  lemma SuffixOccurs(n: string, suffix: string)
    ensures Contains(n + suffix, suffix)
  {
    assert (n + suffix)[|n|..|n| + |suffix|] == suffix;
    ContainsAt(n + suffix, suffix, |n|);
  }

  lemma HourThenSuffixLower(t: string, n: string, suffix: string)
    requires AllDigits(n) && suffix in {"am", "pm"} && t == n + suffix
    ensures ToLower(t) == t && !Contains(t, if suffix == "pm" then "am" else "pm")
  {
    var other := if suffix == "pm" then "am" else "pm";
    forall i | 0 <= i < |t|
      ensures !('A' <= t[i] <= 'Z') && t[i] != other[0]
    {
      if i < |n| {
        assert t[i] == n[i] && IsDigit(n[i]);
      } else {
        assert t[i] == suffix[i - |n|];
      }
    }
    ToLowerNoUpper(t);
    MissingFirstChar(t, other);
  }

  lemma HourThenSuffixMatch(t: string, n: string, suffix: string)
    requires 1 <= |n| <= 2 && AllDigits(n) && suffix in {"am", "pm"} && t == n + suffix
    ensures SearchTime(t, HourMeridiem, 0) == Some([n, suffix])
  {
    assert t[|n|..|n| + 2] == suffix;
    assert forall j :: 0 <= j < |n| ==> t[j] == n[j];
    HourMeridiemMatch(t, 0, |n|, |n|, suffix);
    assert t[0..|n|] == n;
  }

  /** An hour typed with "am"/"pm" is read as the matching 24-hour time on the hour. */
  lemma TypedHourParses(h: nat, pm: bool)
    requires 1 <= h <= 12
    ensures ParseTimeFromText(NatToString(h) + (if pm then "pm" else "am")) == Some(TimeString(To24Hour(h, pm), 0))
  {
    TypedHourFacts(h, pm);
    NatToStringRoundTrip(h);
    ParsesSingleMeridiem(NatToString(h) + (if pm then "pm" else "am"), NatToString(h), h, pm);
  }

  /** A time on the hour is shown as its 12-hour hour followed by ":00". */
  lemma OnTheHourShown(hour: nat)
    requires hour < 24
    ensures FormatTime12(TimeString(hour, 0)) == Some(NatToString(Hour12(hour)) + ":00" + (if hour < 12 then " AM" else " PM"))
  {
    OnTheHourText(hour);
    FormatTime12Shows(hour, "00", "00");
    ColonZeros(NatToString(Hour12(hour)));
  }

  lemma ColonZeros(n: string)
    ensures n + ":" + "00" == n + ":00"
  {
    assert ":" + "00" == ":00";
  }

  /** The 24-hour time of a 12-hour hour is shown as that hour again. */
  lemma TypedHourShown(h: nat, pm: bool)
    requires 1 <= h <= 12
    ensures FormatTime12(TimeString(To24Hour(h, pm), 0)) == Some(NatToString(h) + ":00" + (if pm then " PM" else " AM"))
  {
    var hour := To24Hour(h, pm);
    assert Hour12(hour) == h && (hour < 12 <==> !pm);
    OnTheHourShown(hour);
  }

  /**
   * Typing an hour with "am" or "pm" ("3pm", "12am") gives the matching 24-hour
   * time on the hour, and that time is shown back as the same hour on a 12-hour clock.
   */
  lemma TypedHourRoundTrip(h: nat, pm: bool)
    requires 1 <= h <= 12
    ensures var typed := NatToString(h) + (if pm then "pm" else "am");
            ParseTimeFromText(typed) == Some(TimeString(To24Hour(h, pm), 0))
            && FormatTime12(ParseTimeFromText(typed).value) == Some(NatToString(h) + ":00" + (if pm then " PM" else " AM"))
  {
    TypedHourParses(h, pm);
    TypedHourShown(h, pm);
  }

  /** The text a displayed slot time consists of: "H:MM am" or "H:MM pm" once lower-cased. */
  lemma DisplayedSlotLowered(n: string, mm: string, pm: bool)
    requires AllDigits(n) && AllDigits(mm)
    ensures ToLower(n + ":" + mm + (if pm then " PM" else " AM")) == n + ":" + mm + (if pm then " pm" else " am")
  {
    var body := n + ":" + mm;
    assert forall i :: 0 <= i < |body| ==> !('A' <= body[i] <= 'Z') by {
      forall i | 0 <= i < |body|
        ensures !('A' <= body[i] <= 'Z')
      {
        if i < |n| {
          assert IsDigit(n[i]);
        } else if i > |n| {
          assert IsDigit(mm[i - |n| - 1]);
        }
      }
    }
    ToLowerNoUpper(body);
    ToLowerConcat(body, if pm then " PM" else " AM");
  }

  /**
   * In a displayed slot time "H:MM am" (or pm), the first pattern's leftmost match
   * is the minutes with the "am"/"pm": the hour before the colon is never read.
   */
  lemma DisplayedSlotFirstMatch(n: string, mm: string, pm: bool)
    requires 1 <= |n| <= 2 && AllDigits(n) && |mm| == 2 && AllDigits(mm)
    ensures var t := n + ":" + mm + (if pm then " pm" else " am");
            SearchTime(t, HourMeridiem, 0) == Some([mm, if pm then "pm" else "am"])
  {
    var suffix := if pm then "pm" else "am";
    var t := n + ":" + mm + (if pm then " pm" else " am");
    var c := |n|;
    assert forall j :: 0 <= j < c ==> t[j] == n[j];
    assert t[c] == ':';
    assert t[c + 1..c + 3] == mm && t[c + 3] == ' ' && t[c + 4..c + 6] == suffix;
    MinutesMatchFirst(t, c, mm, suffix);
  }

  /** In "H:MM am", the hour digits run into the colon, so the first match is at the minutes. */
  lemma MinutesMatchFirst(t: string, c: int, mm: string, suffix: string)
    requires 1 <= c <= 2 && |t| == c + 6 && suffix in {"am", "pm"}
    requires forall j :: 0 <= j < c ==> IsDigit(t[j])
    requires t[c] == ':' && t[c + 3] == ' '
    requires |mm| == 2 && AllDigits(mm) && t[c + 1..c + 3] == mm && t[c + 4..c + 6] == suffix
    ensures SearchTime(t, HourMeridiem, 0) == Some([mm, suffix])
  {
    var m := [mm, suffix];
    assert TimeMatchAt(t, HourMeridiem, c + 1) == Some(m) by {
      MinutesMatch(t, c, mm, suffix);
    }
    assert forall k :: 0 <= k < c + 1 ==> TimeMatchAt(t, HourMeridiem, k).None? by {
      HourDigitsNeverMatch(t, c);
    }
    FirstMatchAt(t, HourMeridiem, c + 1, m);
  }

  /** A match with no match before it is what the search finds. */
  lemma FirstMatchAt(t: string, p: TimePattern, j: int, m: seq<string>)
    requires 0 <= j < |t| && TimeMatchAt(t, p, j) == Some(m)
    requires forall k :: 0 <= k < j ==> TimeMatchAt(t, p, k).None?
    ensures SearchTime(t, p, 0) == Some(m)
  {
    SearchTimeFinds(t, p, 0, j);
  }

  /** In "H:MM am", the minutes with the "am" are a match of the first pattern. */
  lemma MinutesMatch(t: string, c: int, mm: string, suffix: string)
    requires 1 <= c <= 2 && |t| == c + 6 && suffix in {"am", "pm"}
    requires t[c + 3] == ' '
    requires |mm| == 2 && AllDigits(mm) && t[c + 1..c + 3] == mm && t[c + 4..c + 6] == suffix
    ensures TimeMatchAt(t, HourMeridiem, c + 1) == Some([mm, suffix])
  {
    assert forall j :: c + 1 <= j < c + 3 ==> IsDigit(t[j]) by {
      assert t[c + 1] == mm[0] && t[c + 2] == mm[1];
    }
    assert forall j :: c + 3 <= j < c + 4 ==> t[j] in Whitespace by {
      assert ' ' in Whitespace;
    }
    assert OccursAt(t, suffix, c + 4);
    HourMeridiemMatch(t, c + 1, 2, c + 4, suffix);
  }

  /** No position in the hour digits, nor the colon after them, starts a match of the first pattern. */
  lemma HourDigitsNeverMatch(t: string, c: int)
    requires 1 <= c <= 2 && c < |t| && t[c] == ':'
    requires forall j :: 0 <= j < c ==> IsDigit(t[j])
    ensures forall k :: 0 <= k <= c ==> TimeMatchAt(t, HourMeridiem, k).None?
  {
    forall k | 0 <= k <= c
      ensures TimeMatchAt(t, HourMeridiem, k).None?
    {
      HourMeridiemFailsAtColon(t, k, c);
    }
  }

  /** "H:MM am" names "am" and not "pm" (and the other way round). */
  lemma DisplayedSlotMeridiem(n: string, mm: string, pm: bool)
    requires 1 <= |n| <= 2 && AllDigits(n) && |mm| == 2 && AllDigits(mm)
    ensures var t := n + ":" + mm + (if pm then " pm" else " am");
            (pm ==> Contains(t, "pm") && !Contains(t, "am"))
            && (!pm ==> Contains(t, "am") && !Contains(t, "pm"))
  {
    var t := n + ":" + mm + (if pm then " pm" else " am");
    var suffix := if pm then "pm" else "am";
    assert t[|n| + 4..|n| + 6] == suffix;
    ContainsAt(t, suffix, |n| + 4);
    forall i | 0 <= i < |t|
      ensures t[i] != (if pm then 'a' else 'p')
    {
      if i < |n| {
        assert IsDigit(n[i]);
      } else if |n| < i < |n| + 3 {
        assert IsDigit(mm[i - |n| - 1]);
      }
    }
    MissingFirstChar(t, if pm then "am" else "pm");
  }

  /** How a slot "HH:MM:00" is displayed: the 12-hour hour, the two minute digits, AM or PM. */
  lemma DisplayedSlotText(hour: nat, minute: nat)
    requires hour < 24 && minute < 60
    ensures |Pad2(minute)| == 2 && 1 <= |NatToString(Hour12(hour))| <= 2
    ensures FormatTime12(Pad2(hour) + ":" + Pad2(minute) + ":00")
            == Some(NatToString(Hour12(hour)) + ":" + Pad2(minute) + (if hour >= 12 then " PM" else " AM"))
  {
    var mm := Pad2(minute);
    if minute >= 10 {
      NatToStringLength(minute);
    }
    NatToStringLength(Hour12(hour));
    assert ':' !in mm by {
      forall i | 0 <= i < |mm|
        ensures mm[i] != ':'
      {
        assert IsDigit(mm[i]);
      }
    }
    assert Pad2(hour) + ":" + mm + ":00" == Pad2(hour) + ":" + mm + ":" + "00";
    FormatTime12Shows(hour, mm, "00");
  }

  /**
   * A slot time shown to the user as "H:MM AM/PM" and typed back is read with its
   * minutes as the hour: "3:30 PM" gives "42:00:00" and "3:00 PM" gives "12:00:00".
   */
  lemma DisplayedSlotReadsMinutesAsHour(hour: nat, minute: nat)
    requires hour < 24 && minute < 60
    ensures FormatTime12(Pad2(hour) + ":" + Pad2(minute) + ":00").Some?
    ensures ParseTimeFromText(FormatTime12(Pad2(hour) + ":" + Pad2(minute) + ":00").value)
            == Some(TimeString(To24Hour(minute, hour >= 12), 0))
  {
    var pm := hour >= 12;
    var mm := Pad2(minute);
    var n := NatToString(Hour12(hour));
    DisplayedSlotText(hour, minute);
    DisplayedSlotLowered(n, mm, pm);
    var t := n + ":" + mm + (if pm then " pm" else " am");
    DisplayedSlotFirstMatch(n, mm, pm);
    DisplayedSlotMeridiem(n, mm, pm);
    ToLowerNoUpperLower(t, n, mm, pm);
    ParsesSingleMeridiem(t, mm, minute, pm);
    assert ParseTimeFromText(n + ":" + mm + (if pm then " PM" else " AM")) == ParseTimeFromText(t);
  }

  lemma ToLowerNoUpperLower(t: string, n: string, mm: string, pm: bool)
    requires AllDigits(n) && AllDigits(mm) && t == n + ":" + mm + (if pm then " pm" else " am")
    ensures ToLower(t) == t
  {
    forall i | 0 <= i < |t|
      ensures !('A' <= t[i] <= 'Z')
    {
      if i < |n| {
        assert IsDigit(n[i]);
      } else if |n| < i < |n| + 1 + |mm| {
        assert IsDigit(mm[i - |n| - 1]);
      }
    }
    ToLowerNoUpper(t);
  }
}
