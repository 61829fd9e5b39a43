/** The deterministic post-processing llm_utils.py applies to the language
    model's replies. A reply is an `Option<string>`: `None` when the call raised,
    otherwise its content (a missing or empty content is ""). The parts of a
    reply that are parsed as JSON arrive already decoded. */
module Oracle {
  import opened Wrappers
  import opened Text
  import opened Responses

  /** The intent whose label is `spelled`, if any (`Intent._value2member_map_`). */
  function IntentOf(spelled: string): (r: Option<Intent>)
    ensures r.Some? ==> IntentLabel(r.value) == spelled
    ensures forall i :: IntentLabel(i) == spelled ==> r == Some(i)
  {
    if spelled == "GET_MANIFESTS" then Some(GetManifests)
    else if spelled == "HELP" then Some(Intent.Help)
    else if spelled == "CHAT" then Some(Chat)
    else if spelled == "CANCEL" then Some(Intent.Cancel)
    else None
  }

  /** `llm_classify_intent`: the stripped, upper-cased reply when it names an
      intent, `Chat` for anything else and when the call raised. */
  function ClassifyIntent(reply: Option<string>): (i: Intent)
    ensures reply.None? ==> i == Chat
    ensures reply.Some? ==> i == Chat || IntentLabel(i) == Upper(Trim(reply.value))
    ensures reply.Some? ==> forall j :: IntentLabel(j) == Upper(Trim(reply.value)) ==> i == j
  {
    match reply
    case None => Chat
    case Some(c) => IntentOf(Upper(Trim(c))).GetOr(Chat)
  }

  lemma LabelIsUpperAndTrimmed(i: Intent)
    ensures Upper(IntentLabel(i)) == IntentLabel(i)
    ensures Trim(IntentLabel(i)) == IntentLabel(i)
  {
    var l := IntentLabel(i);
    assert forall k :: 0 <= k < |l| ==> !IsSpace(l[k]) && !('a' <= l[k] <= 'z');
    assert Upper(l) == l;
    TrimOfTrimmed(l);
  }

  /** A reply that is exactly a label, padded with whitespace, selects that intent. */
  lemma ClassifyLabelRoundTrip(p: string, i: Intent, q: string)
    requires AllSpace(p) && AllSpace(q)
    ensures ClassifyIntent(Some(p + IntentLabel(i) + q)) == i
  {
    TrimPadded(p, IntentLabel(i), q);
    LabelIsUpperAndTrimmed(i);
  }

  /** Classification does not depend on letter case. */
  lemma ClassifyIgnoresCase(c: string)
    ensures ClassifyIntent(Some(Upper(c))) == ClassifyIntent(Some(c))
  {
    TrimUpper(c);
    UpperIdempotent(Trim(c));
  }

  /** One field of a decoded JSON object: missing, present with a value of the
      declared type, or present with a value of the wrong type. */
  datatype Field<T> = Absent | Given(value: T) | WrongType

  /** The decoded JSON object of a specificity reply. */
  datatype SpecificityReply = SpecificityReply(
    isSpecific: Field<bool>,
    rephrasedQuery: Field<string>,
    followups: Field<seq<string>>)

  /** `SpecificityModel` after validation. */
  datatype Assessment = Assessment(isSpecific: bool, rephrasedQuery: string, followups: seq<string>)

  const FallbackQuestion: string := "С каким сервисом вы хотите интегрировать istio service mesh?"

  /** What `llm_assess_specificity` answers when the reply cannot be used. */
  const FallbackAssessment: Assessment := Assessment(false, "", [FallbackQuestion])

  /** `SpecificityModel.model_validate`: `is_specific` is required, the other two
      fields are optional but must have the right type when present. */
  predicate Validates(r: SpecificityReply) {
    r.isSpecific.Given? && !r.rephrasedQuery.WrongType? && !r.followups.WrongType?
  }

  /** `llm_assess_specificity`; `parsed` is `None` when the call raised or the
      reply was not a JSON object. */
  function AssessSpecificity(parsed: Option<SpecificityReply>): (a: Assessment)
    ensures (parsed.None? || !Validates(parsed.value)) ==> a == FallbackAssessment
    ensures parsed.Some? && Validates(parsed.value) ==>
              a.isSpecific == parsed.value.isSpecific.value
              && a.rephrasedQuery == (if parsed.value.rephrasedQuery.Given? then parsed.value.rephrasedQuery.value else "")
              && a.followups == (if parsed.value.followups.Given? then parsed.value.followups.value else [])
  {
    match parsed
    case Some(r) =>
      if Validates(r) then
        Assessment(r.isSpecific.value,
                   match r.rephrasedQuery case Given(q) => q case _ => "",
                   match r.followups case Given(f) => f case _ => [])
      else FallbackAssessment
    case None => FallbackAssessment
  }

  /** An unusable reply never reads as specific and asks exactly one question. */
  lemma AssessFallbackShape(parsed: Option<SpecificityReply>)
    requires parsed.None? || !Validates(parsed.value)
    ensures !AssessSpecificity(parsed).isSpecific
    ensures AssessSpecificity(parsed).rephrasedQuery == ""
    ensures |AssessSpecificity(parsed).followups| == 1
  {
  }

  /** The stripped messages that are not blank, in order. */
  function Kept(ms: seq<string>): (r: seq<string>)
    ensures |r| <= |ms|
    ensures forall i :: 0 <= i < |r| ==> r[i] != "" && Trim(r[i]) == r[i]
    decreases |ms|
  {
    if ms == [] then []
    else
      TrimIdempotent(ms[0]);
      (if Trim(ms[0]) != "" then [Trim(ms[0])] else []) + Kept(ms[1..])
  }

  /** Every message strips to the empty string. */
  predicate AllBlank(ms: seq<string>)
    decreases |ms|
  {
    ms == [] || (Trim(ms[0]) == "" && AllBlank(ms[1..]))
  }

  lemma {:induction false} KeptEmptyIff(ms: seq<string>)
    ensures Kept(ms) == [] <==> AllBlank(ms)
    decreases |ms|
  {
    if ms != [] {
      KeptEmptyIff(ms[1..]);
      var head := if Trim(ms[0]) != "" then [Trim(ms[0])] else [];
      assert Kept(ms) == head + Kept(ms[1..]);
    }
  }

  /** The history text of `llm_rephrase_history`: the kept messages joined by " | ". */
  function History(ms: seq<string>): string {
    Join(Kept(ms), " | ")
  }

  /** The history is empty exactly when every message is blank. */
  lemma HistoryEmptyIff(ms: seq<string>)
    ensures History(ms) == "" <==> AllBlank(ms)
  {
    JoinEmptyIff(Kept(ms), " | ");
    KeptEmptyIff(ms);
  }

  lemma KeptOne(b: string)
    requires Trim(b) != ""
    ensures Kept([b]) == [Trim(b)]
  {
    assert [b][1..] == [];
  }

  /** Two messages that are both kept are joined with the separator. */
  lemma HistoryOfTwo(a: string, b: string)
    requires Trim(a) != "" && Trim(b) != ""
    ensures History([a, b]) == Trim(a) + " | " + Trim(b)
  {
    assert [a, b][1..] == [b];
    KeptOne(b);
    assert Kept([a, b]) == [Trim(a)] + [Trim(b)];
    JoinAppend([Trim(a)], Trim(b), " | ");
  }

  /** `llm_rephrase_history`: the stripped reply, or when it is empty or the call
      raised, the last message stripped (or "" when there are none). The result
      is always stripped. */
  function RephraseHistory(ms: seq<string>, reply: Option<string>): (r: string)
    ensures Trim(r) == r
    ensures reply.Some? && Trim(reply.value) != "" ==> r == Trim(reply.value)
    ensures (reply.None? || Trim(reply.value) == "") ==>
              r == (if ms == [] then "" else Trim(ms[|ms| - 1]))
  {
    var fallback := if ms == [] then "" else Trim(ms[|ms| - 1]);
    TrimIdempotent(if ms == [] then "" else ms[|ms| - 1]);
    match reply
    case Some(c) =>
      TrimIdempotent(c);
      if Trim(c) != "" then Trim(c) else fallback
    case None => fallback
  }

  /** The verdicts of the fill-stage meta classifier (`MetaIntentModel`). */
  datatype MetaIntent = HowManyLeft | ListPlaceholders | Help | Cancel | Other

  function MetaLabel(m: MetaIntent): string {
    match m
    case HowManyLeft => "HOW_MANY_LEFT"
    case ListPlaceholders => "LIST_PLACEHOLDERS"
    case Help => "HELP"
    case Cancel => "CANCEL"
    case Other => "OTHER"
  }

  /** `llm_detect_meta_intent`; `field` is the "intent" string of the decoded
      reply, `None` when the call raised or the reply was not an object with one.
      A verdict other than `Other` is only given for an exact label. */
  function DetectMetaIntent(field: Option<string>): (m: MetaIntent)
    ensures m != Other ==> field == Some(MetaLabel(m))
    ensures forall k :: field == Some(MetaLabel(k)) ==> m == k
  {
    match field
    case None => Other
    case Some(f) =>
      if f == "HOW_MANY_LEFT" then HowManyLeft
      else if f == "LIST_PLACEHOLDERS" then ListPlaceholders
      else if f == "HELP" then MetaIntent.Help
      else if f == "CANCEL" then MetaIntent.Cancel
      else Other
  }

  /** `llm_detect_meta_in_scenario_mode`: "HELP" anywhere in the upper-cased
      stripped reply wins, then "CANCEL"; anything else, or a call that raised,
      is `Other`. */
  function DetectMetaInScenarioMode(reply: Option<string>): (m: MetaIntent)
    ensures m == MetaIntent.Help || m == MetaIntent.Cancel || m == Other
    ensures reply.None? ==> m == Other
    ensures reply.Some? ==> (m == MetaIntent.Help <==> Contains(Upper(Trim(reply.value)), "HELP"))
    ensures reply.Some? ==> (m == MetaIntent.Cancel <==>
              !Contains(Upper(Trim(reply.value)), "HELP") && Contains(Upper(Trim(reply.value)), "CANCEL"))
  {
    match reply
    case None => Other
    case Some(c) =>
      var text := Upper(Trim(c));
      if Contains(text, "HELP") then MetaIntent.Help
      else if Contains(text, "CANCEL") then MetaIntent.Cancel
      else Other
  }

  /** The scenario-stage classifier does not depend on letter case. */
  lemma ScenarioMetaIgnoresCase(c: string)
    ensures DetectMetaInScenarioMode(Some(Upper(c))) == DetectMetaInScenarioMode(Some(c))
  {
    TrimUpper(c);
    UpperIdempotent(Trim(c));
  }

  /** A reply naming both verdicts is read as help. */
  lemma ScenarioHelpWins()
    ensures DetectMetaInScenarioMode(Some("cancel help")) == MetaIntent.Help
  {
    var c := "cancel help";
    TrimOfTrimmed(c);
    assert Upper(c) == "CANCEL " + "HELP" + "";
    ContainsMiddle("CANCEL ", "HELP", "");
  }
}
