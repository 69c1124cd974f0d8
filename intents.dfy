/**
 * How `AIAgentService` (service.py) reads a message: the `IntentType` labels
 * (models.py), the validation of a language model's label, the rule-based intent
 * classifier and the extraction of a doctor-search keyword.
 */
module Intents {
  import opened Wrappers
  import opened Text

  /** `IntentType` */
  datatype Intent =
    | Greeting | PatientQuery | CheckAvailability | SearchDoctor | BookAppointment
    | CancelAppointment | RescheduleAppointment | ViewAppointments | SymptomCheck
    | CancelPolicy | InsuranceQuery | Farewell | Unknown

  /** The value of each `IntentType` member. */
  function IntentName(i: Intent): string
  {
    match i
    case Greeting => "GREETING"
    case PatientQuery => "PATIENT_QUERY"
    case CheckAvailability => "CHECK_AVAILABILITY"
    case SearchDoctor => "SEARCH_DOCTOR"
    case BookAppointment => "BOOK_APPOINTMENT"
    case CancelAppointment => "CANCEL_APPOINTMENT"
    case RescheduleAppointment => "RESCHEDULE_APPOINTMENT"
    case ViewAppointments => "VIEW_APPOINTMENTS"
    case SymptomCheck => "SYMPTOM_CHECK"
    case CancelPolicy => "CANCEL_POLICY"
    case InsuranceQuery => "INSURANCE_QUERY"
    case Farewell => "FAREWELL"
    case Unknown => "UNKNOWN"
  }

  /** `[e.value for e in IntentType]`, in declaration order. */
  const AllIntents: seq<Intent> := [
    Greeting, PatientQuery, CheckAvailability, SearchDoctor, BookAppointment,
    CancelAppointment, RescheduleAppointment, ViewAppointments, SymptomCheck,
    CancelPolicy, InsuranceQuery, Farewell, Unknown
  ]

  /** The member among `intents` whose value is `text`. */
  function FindIntent(text: string, intents: seq<Intent>): (r: Option<Intent>)
    ensures r.Some? ==> r.value in intents && IntentName(r.value) == text
    ensures r.None? ==> forall i | i in intents :: IntentName(i) != text
  {
    if intents == [] then None
    else if IntentName(intents[0]) == text then Some(intents[0])
    else FindIntent(text, intents[1..])
  }

  /** `intent in valid_intents`, giving the member whose value the text is. */
  function ParseIntent(text: string): (r: Option<Intent>)
  {
    FindIntent(text, AllIntents)
  }

  /** Every intent is in the list of valid ones. */
  lemma AllIntentsComplete(i: Intent)
    ensures i in AllIntents
  {
    match i
    case Greeting => assert AllIntents[0] == i;
    case PatientQuery => assert AllIntents[1] == i;
    case CheckAvailability => assert AllIntents[2] == i;
    case SearchDoctor => assert AllIntents[3] == i;
    case BookAppointment => assert AllIntents[4] == i;
    case CancelAppointment => assert AllIntents[5] == i;
    case RescheduleAppointment => assert AllIntents[6] == i;
    case ViewAppointments => assert AllIntents[7] == i;
    case SymptomCheck => assert AllIntents[8] == i;
    case CancelPolicy => assert AllIntents[9] == i;
    case InsuranceQuery => assert AllIntents[10] == i;
    case Farewell => assert AllIntents[11] == i;
    case Unknown => assert AllIntents[12] == i;
  }

  /** Two different intents have different values. */
  lemma IntentNameInjective(i: Intent, j: Intent)
    requires IntentName(i) == IntentName(j)
    ensures i == j
  {
    var a := IntentName(i);
    var b := IntentName(j);
    assert |a| == |b| && a[0] == b[0] && a[|a| - 1] == b[|b| - 1];
  }

  /** Reading a label back: the labels accepted are exactly the values of the members. */
  lemma ParseIntentRoundTrip(i: Intent, text: string)
    ensures ParseIntent(IntentName(i)) == Some(i)
    ensures ParseIntent(text).Some? ==> IntentName(ParseIntent(text).value) == text
  {
    AllIntentsComplete(i);
    var r := ParseIntent(IntentName(i));
    assert r.Some?;
    IntentNameInjective(r.value, i);
  }

  // ----- _fallback_intent_classification -----

  const GreetingWords: seq<string> := ["hello", "hi", "hey", "good morning", "good evening"]
  const SymptomWords: seq<string> := ["pain", "fever", "sick", "symptom", "ache", "hurt", "cough", "cold"]
  const BookingWords: seq<string> := ["book", "appointment", "schedule", "reserve"]
  const SearchWords: seq<string> := ["doctor", "specialist", "find", "search", "cardiologist", "dermatologist"]
  const PolicyWords: seq<string> := ["cancel", "refund", "policy"]
  const ClosingWords: seq<string> := ["bye", "goodbye", "see you", "thanks", "thank you"]
  const GoodbyeWords: seq<string> := ["bye", "goodbye", "see you"]

  /** `_fallback_intent_classification`: the first keyword group the lower-cased message contains decides. */
  function FallbackIntent(message: string): (r: Intent)
    ensures r in {Greeting, SymptomCheck, BookAppointment, SearchDoctor, CancelPolicy, Farewell, PatientQuery}
  {
    var lower := ToLower(message);
    if ContainsAny(lower, GreetingWords) then Greeting
    else if ContainsAny(lower, SymptomWords) then SymptomCheck
    else if ContainsAny(lower, BookingWords) then BookAppointment
    else if ContainsAny(lower, SearchWords) then SearchDoctor
    else if ContainsAny(lower, PolicyWords) then CancelPolicy
    else if ContainsAny(lower, ClosingWords) && ContainsAny(lower, GoodbyeWords) then Farewell
    else PatientQuery
  }

  /** No earlier keyword group occurs in the lower-cased message. */
  predicate NoEarlierGroup(lower: string)
  {
    !ContainsAny(lower, GreetingWords) && !ContainsAny(lower, SymptomWords) && !ContainsAny(lower, BookingWords)
    && !ContainsAny(lower, SearchWords) && !ContainsAny(lower, PolicyWords)
  }

  /**
   * FAREWELL is chosen exactly when no earlier group matches and the message says bye,
   * goodbye or "see you": "thanks" or "thank you" on its own is never enough.
   */
  lemma FarewellNeedsGoodbye(message: string)
    ensures FallbackIntent(message) == Farewell <==>
              NoEarlierGroup(ToLower(message)) && ContainsAny(ToLower(message), GoodbyeWords)
  {
    var lower := ToLower(message);
    if ContainsAny(lower, GoodbyeWords) {
      var k :| 0 <= k < |GoodbyeWords| && Contains(lower, GoodbyeWords[k]);
      assert ClosingWords[k] == GoodbyeWords[k];
      assert ContainsAny(lower, ClosingWords);
    }
  }

  /** The keyword groups checked before the farewell check, in order, with the intent each selects. */
  const KeywordGroups: seq<(seq<string>, Intent)> :=
    [(GreetingWords, Greeting), (SymptomWords, SymptomCheck), (BookingWords, BookAppointment),
     (SearchWords, SearchDoctor), (PolicyWords, CancelPolicy)]

  /**
   * A group's intent is chosen exactly when the message contains one of its words and
   * none of an earlier group's, whatever later groups it also contains.
   */
  lemma FirstMatchingGroupDecides(message: string, j: nat)
    requires j < |KeywordGroups|
    ensures FallbackIntent(message) == KeywordGroups[j].1 <==>
              ContainsAny(ToLower(message), KeywordGroups[j].0)
              && forall i | 0 <= i < j :: !ContainsAny(ToLower(message), KeywordGroups[i].0)
  {
    var lower := ToLower(message);
    if j == 0 {
    } else if j == 1 {
      assert KeywordGroups[0].0 == GreetingWords;
    } else if j == 2 {
      assert KeywordGroups[0].0 == GreetingWords && KeywordGroups[1].0 == SymptomWords;
    } else if j == 3 {
      assert KeywordGroups[0].0 == GreetingWords && KeywordGroups[1].0 == SymptomWords;
      assert KeywordGroups[2].0 == BookingWords;
    } else {
      assert KeywordGroups[0].0 == GreetingWords && KeywordGroups[1].0 == SymptomWords;
      assert KeywordGroups[2].0 == BookingWords && KeywordGroups[3].0 == SearchWords;
    }
  }

  /** When no group and no goodbye word occurs, the message is a patient query. */
  lemma NoKeywordIsPatientQuery(message: string)
    ensures FallbackIntent(message) == PatientQuery <==>
              NoEarlierGroup(ToLower(message)) && !ContainsAny(ToLower(message), GoodbyeWords)
  {
    FarewellNeedsGoodbye(message);
  }

  /** Substring matching: "this" contains "hi", so it is read as a greeting. */
  lemma ThisIsAGreeting()
    ensures FallbackIntent("this") == Greeting
  {
    ToLowerNoUpper("this");
    assert "this"[1..3] == "hi";
    ContainsAt("this", "hi", 1);
    assert Contains(ToLower("this"), GreetingWords[1]);
  }

  // ----- _classify_intent -----

  /**
   * `_classify_intent`. `classifier` is the configured language model (None without an
   * API key); given the message and the recent context it answers with the reply text,
   * or None where `generate_content` raises.
   */
  function ClassifyIntent(message: string, context: string, classifier: Option<(string, string) -> Option<string>>): (r: Intent)
    ensures r == FallbackIntent(message)
            || (classifier.Some? && classifier.value(message, context).Some?
                && ParseIntent(Strip(classifier.value(message, context).value)) == Some(r))
  {
    if classifier.None? then FallbackIntent(message)
    else
      match classifier.value(message, context)
      case None => FallbackIntent(message)
      case Some(reply) =>
        match ParseIntent(Strip(reply))
        case Some(i) => i
        case None => FallbackIntent(message)
  }

  /**
   * When the model answers, its stripped reply is taken exactly when it is the value of
   * an intent; any other reply gives the rule-based answer.
   */
  lemma ModelLabelValidated(message: string, context: string, f: (string, string) -> Option<string>, reply: string)
    requires f(message, context) == Some(reply)
    ensures forall i :: IntentName(i) == Strip(reply) ==> ClassifyIntent(message, context, Some(f)) == i
    ensures var r := ClassifyIntent(message, context, Some(f));
            IntentName(r) == Strip(reply) || r == FallbackIntent(message)
  {
    forall i | IntentName(i) == Strip(reply)
      ensures ClassifyIntent(message, context, Some(f)) == i
    {
      ParseIntentRoundTrip(i, Strip(reply));
    }
  }

  /** Without a model, or when the call raises, the rule-based classifier decides. */
  lemma NoModelFallsBack(message: string, context: string, classifier: Option<(string, string) -> Option<string>>)
    requires classifier.None? || classifier.value(message, context).None?
    ensures ClassifyIntent(message, context, classifier) == FallbackIntent(message)
  {
  }

  // ----- _extract_search_keyword -----

  const Specialties: seq<string> := [
    "cardiologist", "dermatologist", "orthopedic", "pediatrician",
    "dentist", "gynecologist", "neurologist", "psychiatrist",
    "ophthalmologist", "ent", "gastroenterologist"
  ]

  const StopWords: seq<string> := ["doctor", "specialist", "find", "search", "need", "want"]

  /** The characters `strip('.,!?')` removes. */
  const Punctuation: set<char> := {'.', ',', '!', '?'}

  /** `"([^"]+)"` matches at i and closes at e: a quote at i, a quote at e, and no quote, but at least one character, between. */
  predicate QuotedMatch(t: string, i: nat, e: nat)
  {
    i + 1 < e < |t| && t[i] == '"' && t[e] == '"' && '"' !in t[i + 1..e]
  }

  /** The match of `"([^"]+)"` starting at position i: the text between a quote and the next one, if not empty. */
  function QuotedAt(t: string, i: nat): (r: Option<string>)
    requires i < |t|
    ensures r.Some? ==> |r.value| >= 1 && QuotedMatch(t, i, i + 1 + |r.value|) && r.value == t[i + 1..i + 1 + |r.value|]
  {
    if t[i] != '"' || '"' !in t[i + 1..] then None
    else
      var j := IndexOf(t[i + 1..], '"');
      if j == 0 then None
      else
        assert t[i + 1..i + 1 + j] == t[i + 1..][..j];
        Some(t[i + 1..i + 1 + j])
  }

  /** When `QuotedAt` finds nothing, the regular expression does not match at i, whatever closing quote one tries. */
  lemma QuotedAtNoMatch(t: string, i: nat)
    requires i < |t| && QuotedAt(t, i).None?
    ensures forall e: nat :: !QuotedMatch(t, i, e)
  {
    if t[i] == '"' {
      if '"' in t[i + 1..] {
        assert t[i + 1] == '"';
        forall e: nat | i + 1 < e < |t|
          ensures !QuotedMatch(t, i, e)
        {
          assert t[i + 1..e][0] == '"';
        }
      } else {
        forall e: nat | i + 1 < e < |t|
          ensures !QuotedMatch(t, i, e)
        {
          assert t[i + 1..][e - i - 1] == t[e];
        }
      }
    }
  }

  /** `re.search(r'"([^"]+)"', t)` from position i on, giving group 1 of the leftmost match. */
  function SearchQuoted(t: string, i: nat): (r: Option<string>)
    requires i <= |t|
    ensures r.Some? ==> |r.value| >= 1 && Contains(t, r.value)
    ensures r.None? ==> forall k | i <= k < |t| :: QuotedAt(t, k).None?
    decreases |t| - i
  {
    if i == |t| then None
    else
      var here := QuotedAt(t, i);
      if here.Some? then ContainsAt(t, here.value, i + 1); here else SearchQuoted(t, i + 1)
  }

  /** What `SearchQuoted` finds is the match at the leftmost position from i on where there is one. */
  lemma {:induction false} SearchQuotedLeftmost(t: string, i: nat)
    requires i <= |t| && SearchQuoted(t, i).Some?
    ensures exists k | i <= k < |t| :: QuotedAt(t, k) == SearchQuoted(t, i) && forall j | i <= j < k :: QuotedAt(t, j).None?
    decreases |t| - i
  {
    if QuotedAt(t, i).Some? {
      assert QuotedAt(t, i) == SearchQuoted(t, i);
    } else {
      var r := SearchQuoted(t, i + 1);
      assert SearchQuoted(t, i) == r;
      SearchQuotedLeftmost(t, i + 1);
      var k :| i + 1 <= k < |t| && QuotedAt(t, k) == r && forall j | i + 1 <= j < k :: QuotedAt(t, j).None?;
      assert forall j | i <= j < k :: QuotedAt(t, j).None?;
    }
  }

  /** The length of the run of characters satisfying `inClass` that starts at position i. */
  function RunLength(t: string, i: nat, inClass: char -> bool): (n: nat)
    requires i <= |t|
    ensures i + n <= |t|
    ensures forall k | i <= k < i + n :: inClass(t[k])
    ensures i + n < |t| ==> !inClass(t[i + n])
    decreases |t| - i
  {
    if i < |t| && inClass(t[i]) then 1 + RunLength(t, i + 1, inClass) else 0
  }

  predicate IsSpace(c: char) { c in Whitespace }

  /** `for\s+(\w+)` matches at i with its group from s to e: "for", whitespace up to s, word characters from s to e. */
  predicate ForMatch(t: string, i: nat, s: nat, e: nat)
  {
    OccursAt(t, "for", i) && i + 3 < s < e <= |t|
    && (forall k | i + 3 <= k < s :: IsSpace(t[k]))
    && (forall k | s <= k < e :: IsWordChar(t[k]))
  }

  /** The group of the greedy match at i is `w`, starting at s: the whole run of word characters there. */
  predicate ForGroupAt(t: string, i: nat, s: nat, w: string)
  {
    ForMatch(t, i, s, s + |w|) && t[s..s + |w|] == w && (s + |w| == |t| || !IsWordChar(t[s + |w|]))
  }

  /**
   * The match of `for\s+(\w+)` starting at position i. A word character cannot be
   * whitespace, so the greedy `\s+` never gives anything back: the group is the
   * whole run of word characters after the whitespace.
   */
  function ForWordAt(t: string, i: nat): (r: Option<string>)
    requires i < |t|
    ensures r.Some? ==> |r.value| >= 1 && Contains(t, r.value)
    ensures r.Some? ==> forall k | 0 <= k < |r.value| :: IsWordChar(r.value[k])
  {
    if !OccursAt(t, "for", i) then None
    else
      var spaces := RunLength(t, i + 3, IsSpace);
      if spaces == 0 then None
      else
        var start := i + 3 + spaces;
        var n := RunLength(t, start, IsWordChar);
        if n == 0 then None
        else
          ContainsAt(t, t[start..start + n], start);
          Some(t[start..start + n])
  }

  /** When `ForWordAt` finds a word, the regular expression matches at i with exactly that word as its whole group. */
  lemma ForWordAtMatches(t: string, i: nat)
    requires i < |t| && ForWordAt(t, i).Some?
    ensures exists s :: ForGroupAt(t, i, s, ForWordAt(t, i).value)
  {
    var start := i + 3 + RunLength(t, i + 3, IsSpace);
    var n := RunLength(t, start, IsWordChar);
    assert ForWordAt(t, i).value == t[start..start + n];
    assert ForGroupAt(t, i, start, t[start..start + n]);
  }

  /** When `ForWordAt` finds nothing, the regular expression does not match at i. */
  lemma ForWordAtNoMatch(t: string, i: nat)
    requires i < |t| && ForWordAt(t, i).None?
    ensures forall s: nat, e: nat :: !ForMatch(t, i, s, e)
  {
    if OccursAt(t, "for", i) {
      NoForMatch(t, i);
    }
  }

  /** Without whitespace after "for", or without a word character after that whitespace, nothing matches at i. */
  lemma NoForMatch(t: string, i: nat)
    requires OccursAt(t, "for", i)
    requires var spaces := RunLength(t, i + 3, IsSpace);
             spaces == 0 || RunLength(t, i + 3 + spaces, IsWordChar) == 0
    ensures forall s: nat, e: nat :: !ForMatch(t, i, s, e)
  {
    var start := i + 3 + RunLength(t, i + 3, IsSpace);
    forall s: nat, e: nat
      ensures !ForMatch(t, i, s, e)
    {
      if i + 3 < s < e <= |t| {
        if s < start {
          assert IsSpace(t[s]) && !IsWordChar(t[s]);
        } else if s > start {
          assert !IsSpace(t[start]);
        } else {
          assert !IsWordChar(t[start]);
        }
      }
    }
  }

  /** `re.search(r'for\s+(\w+)', t)` from position i on, giving group 1 of the leftmost match. */
  function SearchForWord(t: string, i: nat): (r: Option<string>)
    requires i <= |t|
    ensures r.Some? ==> |r.value| >= 1 && Contains(t, r.value)
    ensures r.None? ==> forall k | i <= k < |t| :: ForWordAt(t, k).None?
    decreases |t| - i
  {
    if i == |t| then None
    else
      var here := ForWordAt(t, i);
      if here.Some? then here else SearchForWord(t, i + 1)
  }

  /** What `SearchForWord` finds is the match at the leftmost position from i on where there is one. */
  lemma {:induction false} SearchForWordLeftmost(t: string, i: nat)
    requires i <= |t| && SearchForWord(t, i).Some?
    ensures exists k | i <= k < |t| :: ForWordAt(t, k) == SearchForWord(t, i) && forall j | i <= j < k :: ForWordAt(t, j).None?
    decreases |t| - i
  {
    if ForWordAt(t, i).Some? {
      assert ForWordAt(t, i) == SearchForWord(t, i);
    } else {
      var r := SearchForWord(t, i + 1);
      assert SearchForWord(t, i) == r;
      SearchForWordLeftmost(t, i + 1);
      var k :| i + 1 <= k < |t| && ForWordAt(t, k) == r && forall j | i + 1 <= j < k :: ForWordAt(t, j).None?;
      assert forall j | i <= j < k :: ForWordAt(t, j).None?;
    }
  }

  /** The keyword the last word gives: the word stripped of `.,!?`, or "" when that is a stop word. */
  function WordKeyword(word: string): (r: string)
    ensures r == "" || Contains(word, r)
  {
    var last := StripChars(word, Punctuation);
    if ToLower(last) in StopWords then ""
    else
      StripCharsOccurs(word, Punctuation);
      last
  }

  /** The last step of `_extract_search_keyword`: the keyword of the last word, "" without words. */
  function LastWordKeyword(message: string): (r: string)
    ensures r == "" || Contains(message, r)
  {
    var words := Words(message);
    if words == [] then ""
    else
      var r := WordKeyword(words[|words| - 1]);
      if r != "" then
        WordsOccur(message);
        ContainsTransitive(message, words[|words| - 1], r);
        r
      else r
  }

  /** Without words there is no keyword. */
  lemma NoWordsNoKeyword(message: string)
    ensures Words(message) == [] ==> LastWordKeyword(message) == ""
  {
  }

  /** With words, the keyword is that of the last word (a word by the contract of `Words`). */
  lemma LastWordKeywordValue(message: string)
    requires Words(message) != []
    ensures var ws := Words(message);
            LastWordKeyword(message) == WordKeyword(ws[|ws| - 1])
  {
  }

  /**
   * A word's keyword is the word stripped of `.,!?` unless that is a stop word, when it is "".
   * A keyword is never a stop word, holds no whitespace when the word holds none, and neither
   * starts nor ends with `.,!?`.
   */
  lemma WordKeywordShape(word: string)
    requires IsWord(word)
    ensures var last := StripChars(word, Punctuation);
            (ToLower(last) in StopWords ==> WordKeyword(word) == "")
            && (ToLower(last) !in StopWords ==> WordKeyword(word) == last)
    ensures var r := WordKeyword(word);
            (r != "" ==> ToLower(r) !in StopWords && r[0] !in Punctuation && r[|r| - 1] !in Punctuation)
            && forall k | 0 <= k < |r| :: r[k] !in Whitespace
  {
    StripCharsFacts(word, Punctuation);
  }

  /**
   * `_extract_search_keyword`: the first specialty in list order that the lower-cased
   * message contains, else the first quoted text, else the word after "for", else the
   * last word unless it is a stop word, else "".
   */
  function ExtractSearchKeyword(message: string): (r: string)
    ensures var k := FirstIndexContained(ToLower(message), Specialties);
            k < |Specialties| ==> r == Specialties[k]
    ensures !ContainsAny(ToLower(message), Specialties) ==> r == "" || Contains(ToLower(message), ToLower(r))
    ensures !ContainsAny(ToLower(message), Specialties) && SearchQuoted(message, 0).Some? ==>
              r == SearchQuoted(message, 0).value
    ensures !ContainsAny(ToLower(message), Specialties) && SearchQuoted(message, 0).None? && SearchForWord(ToLower(message), 0).Some? ==>
              r == SearchForWord(ToLower(message), 0).value
    ensures !ContainsAny(ToLower(message), Specialties) && SearchQuoted(message, 0).None? && SearchForWord(ToLower(message), 0).None? ==>
              r == LastWordKeyword(message)
  {
    var lower := ToLower(message);
    var k := FirstIndexContained(lower, Specialties);
    if k < |Specialties| then Specialties[k]
    else
      match SearchQuoted(message, 0)
      case Some(q) => ContainsLower(message, q); q
      case None =>
        match SearchForWord(lower, 0)
        case Some(w) =>
          assert ToLower(w) == w by { LowerIsLower(lower, w); }
          w
        case None =>
          var last := LastWordKeyword(message);
          assert last == "" || Contains(lower, ToLower(last)) by {
            if last != "" {
              ContainsLower(message, last);
            }
          }
          last
  }

  /** A piece of a lower-cased string is left as it is by lower-casing. */
  lemma LowerIsLower(lower: string, w: string)
    requires (exists s :: lower == ToLower(s)) && Contains(lower, w)
    ensures ToLower(w) == w
  {
    var s :| lower == ToLower(s);
    var i :| 0 <= i <= |lower| - |w| && OccursAt(lower, w, i);
    forall j | 0 <= j < |w|
      ensures LowerChar(w[j]) == w[j]
    {
      assert w[j] == lower[i + j];
    }
  }

  /** "gastroenterologist" contains "ent", the specialty listed before it. */
  lemma GastroenterologistContainsEnt()
    ensures Contains("gastroenterologist", "ent")
    ensures ToLower("gastroenterologist") == "gastroenterologist"
  {
    assert "gastroenterologist"[6..9] == "ent";
    ContainsAt("gastroenterologist", "ent", 6);
    ToLowerNoUpper("gastroenterologist");
  }

  /**
   * "gastroenterologist" is never the search keyword: wherever a message holds it,
   * the earlier specialty "ent" is found first.
   */
  lemma GastroenterologistNeverChosen(message: string)
    ensures ExtractSearchKeyword(message) != "gastroenterologist"
  {
    var lower := ToLower(message);
    var r := ExtractSearchKeyword(message);
    GastroenterologistContainsEnt();
    assert Specialties[9] == "ent";
    if r == "gastroenterologist" {
      ContainsTransitive(lower, "gastroenterologist", "ent");
      assert false;
    }
  }

  /** Any message with "appointment" in it searches for one of the first ten specialties, "ent" at the latest. */
  lemma AppointmentSearchesEnt(message: string)
    requires Contains(ToLower(message), "appointment")
    ensures ExtractSearchKeyword(message) in Specialties[..10]
  {
    var lower := ToLower(message);
    assert "appointment"[8..11] == "ent";
    ContainsAt("appointment", "ent", 8);
    ContainsTransitive(lower, "appointment", "ent");
    assert Contains(lower, Specialties[9]);
    var k := FirstIndexContained(lower, Specialties);
    assert k <= 9;
    assert Specialties[k] == Specialties[..10][k];
  }
}
