/**
 * `SymptomTriageService` (symptom_triage.py): the rule-based triage used when no
 * language model is configured, the emergency short-circuit that runs before any
 * model call, the reading of the model's reply and the normalisation of its urgency.
 * The model call and `json.loads` are parameters.
 */
module Triage {
  import opened Wrappers
  import opened Text

  /** A triage result: the dictionary with `urgency`, `recommended_specialty`, `advice` and `disclaimer`. */
  type Assessment = map<string, string>

  /** The values of `UrgencyLevel`. */
  const UrgencyLevels: seq<string> := ["EMERGENCY", "URGENT", "ROUTINE"]

  /** The four keys every rule-based result carries. */
  const AssessmentKeys: set<string> := {"urgency", "recommended_specialty", "advice", "disclaimer"}

  /** The warning every emergency advice opens with. */
  const EmergencyPrefix: string := "\U{26A0}\U{FE0F} EMERGENCY: "

  /** The keywords checked before any model call. */
  const PrefilterKeywords: seq<string> := [
    "chest pain", "difficulty breathing", "can't breathe", "severe bleeding",
    "stroke", "unconscious", "seizure", "severe headache", "suicide",
    "overdose", "severe burn", "choking", "heart attack"
  ]

  /** The emergency keywords of the rule-based triage. */
  const FallbackEmergencyKeywords: seq<string> := [
    "chest pain", "difficulty breathing", "severe bleeding", "stroke",
    "unconscious", "seizure", "heart attack"
  ]

  const UrgentKeywords: seq<string> := [
    "high fever", "severe pain", "vomiting", "can't eat", "severe", "acute"
  ]

  const NonEmergencyDisclaimer: string := "This is an automated assessment and does not replace professional medical diagnosis."
  const ModelDisclaimer: string := NonEmergencyDisclaimer + " Please consult with a healthcare provider."

  predicate WellFormed(a: Assessment)
  {
    AssessmentKeys <= a.Keys && a["urgency"] in UrgencyLevels
  }

  // ----- _fallback_triage -----

  /** `_fallback_triage`: emergency keywords first, then urgent ones, else routine. */
  function FallbackTriage(symptoms: string): (r: Assessment)
    ensures WellFormed(r) && r.Keys == AssessmentKeys
    ensures r["urgency"] == "EMERGENCY" <==> ContainsAny(ToLower(symptoms), FallbackEmergencyKeywords)
    ensures r["urgency"] == "URGENT" <==>
              !ContainsAny(ToLower(symptoms), FallbackEmergencyKeywords) && ContainsAny(ToLower(symptoms), UrgentKeywords)
    ensures r["recommended_specialty"] == (if r["urgency"] == "EMERGENCY" then "Emergency Medicine" else "General Practice")
    ensures r["urgency"] == "EMERGENCY" ==> EmergencyPrefix <= r["advice"]
  {
    var lower := ToLower(symptoms);
    if ContainsAny(lower, FallbackEmergencyKeywords) then
      map[
        "urgency" := "EMERGENCY",
        "recommended_specialty" := "Emergency Medicine",
        "advice" := EmergencyPrefix + "Call emergency services immediately.",
        "disclaimer" := "This is an automated assessment. When in doubt, seek immediate medical attention."
      ]
    else if ContainsAny(lower, UrgentKeywords) then
      map[
        "urgency" := "URGENT",
        "recommended_specialty" := "General Practice",
        "advice" := "Please schedule an appointment within 24 hours.",
        "disclaimer" := NonEmergencyDisclaimer
      ]
    else
      map[
        "urgency" := "ROUTINE",
        "recommended_specialty" := "General Practice",
        "advice" := "Please schedule a regular appointment to discuss your symptoms.",
        "disclaimer" := NonEmergencyDisclaimer
      ]
  }

  /** Emergency wins over urgent: "severe bleeding" also contains the urgent keyword "severe". */
  lemma SevereBleedingIsEmergency()
    ensures FallbackTriage("severe bleeding")["urgency"] == "EMERGENCY"
    ensures Contains("severe bleeding", "severe")
  {
    ToLowerNoUpper("severe bleeding");
    ContainsAt("severe bleeding", "severe bleeding", 0);
    ContainsAt("severe bleeding", "severe", 0);
    assert Contains(ToLower("severe bleeding"), FallbackEmergencyKeywords[2]);
  }

  // ----- _parse_ai_response -----

  /**
   * The match of `\{[^}]+\}` that starts at position i: a `{`, one or more characters
   * other than `}`, then the first `}` after them.
   */
  function BraceObjectAt(t: string, i: nat): (r: Option<string>)
    requires i < |t|
    ensures r.Some? ==> t[i] == '{' && 3 <= |r.value| && OccursAt(t, r.value, i)
    ensures r.Some? ==> r.value[|r.value| - 1] == '}' && '}' !in r.value[..|r.value| - 1]
  {
    if t[i] != '{' || '}' !in t[i + 1..] then None
    else
      var j := IndexOf(t[i + 1..], '}');
      if j == 0 then None
      else
        assert t[i..i + j + 2][..j + 1] == t[i..i + 1] + t[i + 1..][..j];
        Some(t[i..i + j + 2])
  }

  /** `\{[^}]+\}` matches from i to e: a `{` at i, a `}` at e, and at least one character, none of them `}`, between. */
  predicate BraceMatch(t: string, i: nat, e: nat)
  {
    i + 1 < e < |t| && t[i] == '{' && t[e] == '}' && '}' !in t[i + 1..e]
  }

  /** Whenever the pattern matches at i, the matcher finds exactly that match. */
  lemma BraceObjectAtFindsMatch(t: string, i: nat, e: nat)
    requires BraceMatch(t, i, e)
    ensures BraceObjectAt(t, i) == Some(t[i..e + 1])
  {
    var s := t[i + 1..];
    assert s[e - i - 1] == '}';
    var j := IndexOf(s, '}');
    assert forall m | 0 <= m < e - i - 1 :: s[m] != '}' by {
      forall m | 0 <= m < e - i - 1 ensures s[m] != '}' {
        assert s[m] == t[i + 1..e][m];
      }
    }
    assert forall m | 0 <= m < j :: s[m] != '}' by {
      forall m | 0 <= m < j ensures s[m] != '}' {
        assert s[m] == s[..j][m];
      }
    }
  }

  /** `re.search(r'\{[^}]+\}', text, re.DOTALL)` from position i on: the leftmost match. */
  function SearchBraceObject(t: string, i: nat): (r: Option<string>)
    requires i <= |t|
    ensures r.Some? ==> exists k | i <= k < |t| :: BraceObjectAt(t, k) == r && forall j | i <= j < k :: BraceObjectAt(t, j).None?
    ensures r.None? ==> forall k | i <= k < |t| :: BraceObjectAt(t, k).None?
    decreases |t| - i
  {
    if i == |t| then None
    else
      var here := BraceObjectAt(t, i);
      if here.Some? then here
      else
        var rest := SearchBraceObject(t, i + 1);
        if rest.Some? then
          var k :| i + 1 <= k < |t| && BraceObjectAt(t, k) == rest && forall j | i + 1 <= j < k :: BraceObjectAt(t, j).None?;
          assert forall j | i <= j < k :: BraceObjectAt(t, j).None?;
          rest
        else rest
  }

  /** The text `_parse_ai_response` hands to `json.loads`, if any. */
  function JsonCandidate(text: string): (r: Option<string>)
    ensures r.Some? ==> 3 <= |r.value| && r.value[0] == '{' && r.value[|r.value| - 1] == '}' && Contains(text, r.value)
    ensures r.None? ==> forall k | 0 <= k < |text| :: BraceObjectAt(text, k).None?
  {
    var r := SearchBraceObject(text, 0);
    if r.Some? then
      var k :| 0 <= k < |text| && BraceObjectAt(text, k) == r;
      BraceObjectFacts(text, k);
      r
    else r
  }

  /** A brace object found at k opens with '{', closes with '}' and is a piece of the text. */
  lemma BraceObjectFacts(text: string, k: nat)
    requires k < |text| && BraceObjectAt(text, k).Some?
    ensures var o := BraceObjectAt(text, k).value;
            3 <= |o| && o[0] == '{' && o[|o| - 1] == '}' && Contains(text, o)
  {
    var o := BraceObjectAt(text, k).value;
    assert text[k..k + |o|][0] == o[0];
    ContainsAt(text, o, k);
  }

  /** The record used when the reply holds no JSON object or it does not parse. */
  const DefaultAssessment: Assessment := map[
    "urgency" := "ROUTINE",
    "recommended_specialty" := "General Practice",
    "advice" := "Please schedule an appointment with a doctor to discuss your symptoms."
  ]

  /**
   * `_parse_ai_response`; `loads` is `json.loads` restricted to objects with string
   * values, None where it raises.
   */
  function ParseAiResponse(reply: string, loads: string -> Option<Assessment>): (r: Assessment)
    ensures "urgency" in r && r["urgency"] in UrgencyLevels
  {
    match JsonCandidate(reply)
    case None => DefaultAssessment
    case Some(candidate) =>
      match loads(candidate)
      case None => DefaultAssessment
      case Some(obj) =>
        if "urgency" in obj && obj["urgency"] in UrgencyLevels then obj
        else obj["urgency" := "ROUTINE"]
  }

  /** The parsed object is kept as the model wrote it, except for an urgency outside the three levels, which becomes ROUTINE. */
  lemma ParsedUrgencyNormalised(reply: string, loads: string -> Option<Assessment>)
    ensures var r := ParseAiResponse(reply, loads);
            match JsonCandidate(reply)
            case None => r == DefaultAssessment
            case Some(c) =>
              if loads(c).None? then r == DefaultAssessment
              else
                var obj := loads(c).value;
                r.Keys == obj.Keys + {"urgency"}
                && (forall k | k in obj && k != "urgency" :: r[k] == obj[k])
                && r["urgency"] == (if "urgency" in obj && obj["urgency"] in UrgencyLevels then obj["urgency"] else "ROUTINE")
  {
  }

  // ----- analyze_symptoms -----

  /** The answer given at once when a prefilter keyword occurs. */
  const EmergencyNotice: Assessment := map[
    "urgency" := "EMERGENCY",
    "recommended_specialty" := "Emergency Medicine",
    "advice" := EmergencyPrefix + "Please call emergency services (911/108) immediately or go to the nearest emergency room. Do not wait for an appointment.",
    "disclaimer" := "This is an automated triage system and does not replace professional medical judgment."
  ]

  /**
   * `analyze_symptoms`. `model` is the configured language model (None without an API key);
   * it maps the symptoms to the reply text, or to None where `generate_content` raises.
   */
  function AnalyzeSymptoms(symptoms: string, model: Option<string -> Option<string>>, loads: string -> Option<Assessment>): (r: Assessment)
    ensures "urgency" in r && r["urgency"] in UrgencyLevels && "disclaimer" in r
    ensures r["urgency"] == "EMERGENCY" ==> "advice" in r && EmergencyPrefix <= r["advice"]
  {
    if model.None? then FallbackTriage(symptoms)
    else if ContainsAny(ToLower(symptoms), PrefilterKeywords) then EmergencyNotice
    else
      match model.value(symptoms)
      case None => FallbackTriage(symptoms)
      case Some(reply) => ModelAnswer(symptoms, ParseAiResponse(reply, loads))
  }

  /**
   * What `analyze_symptoms` makes of the model's parsed answer: the model disclaimer is added,
   * and an EMERGENCY answer has its advice wrapped in the warning.
   */
  function ModelAnswer(symptoms: string, p: Assessment): (r: Assessment)
    requires "urgency" in p && p["urgency"] in UrgencyLevels
    ensures "urgency" in r && r["urgency"] in UrgencyLevels && "disclaimer" in r
    ensures r["urgency"] == "EMERGENCY" ==> "advice" in r && EmergencyPrefix <= r["advice"]
  {
    var parsed := p["disclaimer" := ModelDisclaimer];
    if parsed["urgency"] == "EMERGENCY" then
      if "advice" in parsed then
        parsed["advice" := EmergencyPrefix + parsed["advice"] + " Call emergency services immediately."]
      else
        FallbackTriage(symptoms)  // the KeyError on `result['advice']` falls back
    else parsed
  }

  /** The three outcomes of `ModelAnswer`, over any parsed answer. */
  lemma ModelAnswerCases(symptoms: string, p: Assessment)
    requires "urgency" in p && p["urgency"] in UrgencyLevels
    ensures var r := ModelAnswer(symptoms, p);
            && (p["urgency"] != "EMERGENCY" ==> r == p["disclaimer" := ModelDisclaimer])
            && (p["urgency"] == "EMERGENCY" && "advice" in p ==>
                  r.Keys == p.Keys + {"disclaimer"}
                  && r["advice"] == EmergencyPrefix + p["advice"] + " Call emergency services immediately."
                  && r["disclaimer"] == ModelDisclaimer
                  && forall k | k in p && k != "advice" && k != "disclaimer" :: r[k] == p[k])
            && (p["urgency"] == "EMERGENCY" && "advice" !in p ==> r == FallbackTriage(symptoms))
  {
    assert "urgency"[0] != "disclaimer"[0] && "advice"[0] != "disclaimer"[0];
  }

  /**
   * With a model configured and no prefilter keyword, the model's parsed answer is returned with
   * the model disclaimer; an EMERGENCY answer has its own advice wrapped in the warning, and one
   * without advice falls back to the rule-based triage.
   */
  lemma ModelAnswerReturned(symptoms: string, model: string -> Option<string>, loads: string -> Option<Assessment>, reply: string)
    requires !ContainsAny(ToLower(symptoms), PrefilterKeywords) && model(symptoms) == Some(reply)
    ensures var p := ParseAiResponse(reply, loads);
            var r := AnalyzeSymptoms(symptoms, Some(model), loads);
            && (p["urgency"] != "EMERGENCY" ==> r == p["disclaimer" := ModelDisclaimer])
            && (p["urgency"] == "EMERGENCY" && "advice" in p ==>
                  r.Keys == p.Keys + {"disclaimer"}
                  && r["advice"] == EmergencyPrefix + p["advice"] + " Call emergency services immediately."
                  && r["disclaimer"] == ModelDisclaimer
                  && forall k | k in p && k != "advice" && k != "disclaimer" :: r[k] == p[k])
            && (p["urgency"] == "EMERGENCY" && "advice" !in p ==> r == FallbackTriage(symptoms))
  {
    ModelAnswerCases(symptoms, ParseAiResponse(reply, loads));
  }

  /** With a model configured and no prefilter keyword, a failing model call falls back to the rule-based triage. */
  lemma ModelFailureFallsBack(symptoms: string, model: string -> Option<string>, loads: string -> Option<Assessment>)
    requires !ContainsAny(ToLower(symptoms), PrefilterKeywords) && model(symptoms).None?
    ensures AnalyzeSymptoms(symptoms, Some(model), loads) == FallbackTriage(symptoms)
  {
  }

  /** With a model configured, a prefilter keyword decides before the model is asked, whatever it would answer. */
  lemma PrefilterOverridesModel(symptoms: string, model: string -> Option<string>, loads: string -> Option<Assessment>)
    requires ContainsAny(ToLower(symptoms), PrefilterKeywords)
    ensures AnalyzeSymptoms(symptoms, Some(model), loads) == EmergencyNotice
  {
  }

  /** Every emergency keyword of the rule-based triage is also a prefilter keyword. */
  lemma FallbackKeywordsArePrefiltered()
    ensures forall k | 0 <= k < |FallbackEmergencyKeywords| :: FallbackEmergencyKeywords[k] in PrefilterKeywords
  {
    assert FallbackEmergencyKeywords[0] == PrefilterKeywords[0];
    assert FallbackEmergencyKeywords[1] == PrefilterKeywords[1];
    assert FallbackEmergencyKeywords[2] == PrefilterKeywords[3];
    assert FallbackEmergencyKeywords[3] == PrefilterKeywords[4];
    assert FallbackEmergencyKeywords[4] == PrefilterKeywords[5];
    assert FallbackEmergencyKeywords[5] == PrefilterKeywords[6];
    assert FallbackEmergencyKeywords[6] == PrefilterKeywords[12];
  }

  /**
   * A symptom the rule-based triage calls an emergency is an emergency whether or not a
   * model is configured and whatever the model would say.
   */
  lemma FallbackEmergencyAlwaysEmergency(symptoms: string, model: Option<string -> Option<string>>, loads: string -> Option<Assessment>)
    requires ContainsAny(ToLower(symptoms), FallbackEmergencyKeywords)
    ensures AnalyzeSymptoms(symptoms, model, loads)["urgency"] == "EMERGENCY"
  {
    if model.Some? {
      FallbackKeywordsArePrefiltered();
      var k :| 0 <= k < |FallbackEmergencyKeywords| && Contains(ToLower(symptoms), FallbackEmergencyKeywords[k]);
      var w := FallbackEmergencyKeywords[k];
      var j :| 0 <= j < |PrefilterKeywords| && PrefilterKeywords[j] == w;
      assert ContainsAny(ToLower(symptoms), PrefilterKeywords);
    }
  }

  /**
   * Without a model, "suicide" is triaged ROUTINE: it is only a prefilter keyword, and the
   * prefilter runs only when a model is configured.
   */
  lemma SuicideRoutineWithoutModel(model: string -> Option<string>, loads: string -> Option<Assessment>)
    ensures AnalyzeSymptoms("suicide", None, loads)["urgency"] == "ROUTINE"
    ensures AnalyzeSymptoms("suicide", Some(model), loads)["urgency"] == "EMERGENCY"
  {
    ToLowerNoUpper("suicide");
    SuicideIsNoRuleKeyword();
    SuicideIsPrefilterKeyword();
  }

  /** "suicide" holds none of the rule-based emergency or urgent keywords. */
  lemma SuicideIsNoRuleKeyword()
    ensures !ContainsAny("suicide", FallbackEmergencyKeywords) && !ContainsAny("suicide", UrgentKeywords)
  {
    var s := "suicide";
    MissingFirstChar(s, "acute");
    MissingFirstChar(s, "vomiting");
    assert !Contains(s, "seizure") by {
      assert s[0..7][1] != "seizure"[1];
    }
    assert !Contains(s, "stroke") by {
      assert s[0..6][1] != "stroke"[1];
      assert s[1..7][0] != "stroke"[0];
    }
    assert !Contains(s, "severe") by {
      assert s[0..6][1] != "severe"[1];
      assert s[1..7][0] != "severe"[0];
    }
    forall k | 0 <= k < |FallbackEmergencyKeywords|
      ensures !Contains(s, FallbackEmergencyKeywords[k])
    {
      if k != 3 && k != 5 {
        assert |FallbackEmergencyKeywords[k]| > |s|;
      }
    }
    forall k | 0 <= k < |UrgentKeywords|
      ensures !Contains(s, UrgentKeywords[k])
    {
      if k != 2 && k != 4 && k != 5 {
        assert |UrgentKeywords[k]| > |s|;
      }
    }
  }

  lemma SuicideIsPrefilterKeyword()
    ensures ContainsAny("suicide", PrefilterKeywords)
  {
    ContainsAt("suicide", "suicide", 0);
    assert Contains("suicide", PrefilterKeywords[8]);
  }

  // ----- get_specialty_keywords -----

  /** `get_specialty_keywords`: each specialty with the symptom words that point to it, in declaration order. */
  function SpecialtyKeywords(): (r: seq<(string, seq<string>)>)
    ensures |r| == 8
    ensures forall i, j | 0 <= i < j < |r| :: r[i].0 != r[j].0
    ensures forall i | 0 <= i < |r| :: |r[i].1| >= 4
  {
    [
      ("Cardiology", ["chest pain", "heart", "palpitation", "irregular heartbeat", "shortness of breath"]),
      ("Dermatology", ["skin", "rash", "acne", "mole", "itching", "eczema"]),
      ("Orthopedics", ["bone", "joint", "fracture", "sprain", "back pain", "knee pain"]),
      ("ENT", ["ear", "nose", "throat", "sinus", "hearing", "tinnitus"]),
      ("Gastroenterology", ["stomach", "digestion", "abdominal pain", "diarrhea", "constipation"]),
      ("Neurology", ["headache", "migraine", "dizziness", "numbness", "tingling"]),
      ("Ophthalmology", ["eye", "vision", "blurry", "eye pain"]),
      ("Psychiatry", ["anxiety", "depression", "stress", "mental health", "sleep problems"])
    ]
  }

  /** "chest pain" is both a Cardiology keyword and an emergency keyword of both lists. */
  lemma ChestPainIsCardiologyAndEmergency()
    ensures SpecialtyKeywords()[0].0 == "Cardiology" && "chest pain" in SpecialtyKeywords()[0].1
    ensures "chest pain" in FallbackEmergencyKeywords && "chest pain" in PrefilterKeywords
  {
    assert SpecialtyKeywords()[0].1[0] == "chest pain";
    assert FallbackEmergencyKeywords[0] == "chest pain";
    assert PrefilterKeywords[0] == "chest pain";
  }
}
