/** The chat endpoint of routes/chat.py: one user turn, dispatched on whether
    the session exists, on its stage, and for a new conversation on the
    classified intent.

    Every call to the language model or the vector store is an input: the
    fields of `Oracles` are the replies the turn receives. The invariant the
    endpoint keeps over the store is `StoreInvariant`: every fill-stage session
    is partitioned. */
module Router {
  import opened Wrappers
  import opened Text
  import opened Placeholders
  import opened Sessions
  import opened Responses
  import opened Oracle
  import opened Dialogue
  import opened ManifestEngine

  /** The replies of the external services during one turn. */
  datatype Oracles = Oracles(
    scenarioMeta: Option<string>,              // `llm_detect_meta_in_scenario_mode`
    gibberish: bool,                           // `llm_detect_gibberish`
    rephraseReply: Option<string>,             // the rephrasing call of `llm_rephrase_history`
    specificity: Option<SpecificityReply>,     // the decoded reply of `llm_assess_specificity`
    metaField: Option<string>,                 // the fill-stage meta classifier
    nextReply: Option<string>,                 // the question about the next placeholder
    intentReply: Option<string>,               // the intent classifier
    search: string -> Search,                  // the vector store, per query
    fileText: Option<string>,                  // the selected template's file, if it could be read
    greeting: Option<string>,                  // the greeting of a new fill stage
    smallTalk: Option<string>)                 // the free-chat reply

  const RestartNotice: string := "Предыдущая сессия завершена. Начнем заново\n"
  const ScenarioHelpText: string :=
    "Вы сейчас на этапе уточнения запроса.\n"
    + "- Опишите, какую интеграцию вы хотите настроить.\n"
    + " - Или напишите 'отмена', чтобы завершить процесс."
  const ScenarioCancelText: string := "Хорошо, отменяю процесс. Вы можете начать заново."
  const GibberishText: string := "Похоже, вы ввели случайный или непонятный текст. Попробуйте снова."
  const MoreDetailsPrefix: string := "Спасибо. Нужны еще детали: "
  const UnknownStateText: string := "Сессия в неизвестном состоянии. Начните сначала."
  const ClarifyTitle: string := "Уточните, пожалуйста, " + "какую интеграцию вы хотите настроить:"
  const HelpText: string := "Я помогаю сгенерировать YAML-манифесты для интеграции istio service mesh с другими сервисами"
  const SmallTalkFallback: string := "Привет! Опишите, какой сценарий вас интересует."

  /** The follow-up questions as bullet lines. */
  function FollowupLines(qs: seq<string>): (r: seq<string>)
    ensures |r| == |qs|
    ensures forall i :: 0 <= i < |qs| ==> r[i] == "- " + qs[i]
  {
    seq(|qs|, i requires 0 <= i < |qs| => "- " + qs[i])
  }

  /** The reply that opens a clarification: a title line, then one bullet line
      per question. */
  function ClarifyText(qs: seq<string>): string {
    ClarifyTitle + "\n" + Join(FollowupLines(qs), "\n")
  }

  /** The reply that asks for more details within a clarification. */
  function MoreDetailsText(qs: seq<string>): string {
    MoreDetailsPrefix + Join(FollowupLines(qs), "\n")
  }

  /** When no question holds a newline, the clarification reads as the title and
      then exactly one bullet line per question, in order. */
  lemma ClarifyTextLines(qs: seq<string>)
    requires qs != []
    requires forall i :: 0 <= i < |qs| ==> '\n' !in qs[i]
    ensures SplitLines(ClarifyText(qs)) == [ClarifyTitle] + FollowupLines(qs)
  {
    var lines := [ClarifyTitle] + FollowupLines(qs);
    var a, b := "Уточните, пожалуйста, ", "какую интеграцию вы хотите настроить:";
    assert forall i :: 0 <= i < |a| ==> a[i] != '\n';
    assert forall i :: 0 <= i < |b| ==> b[i] != '\n';
    assert '\n' !in ClarifyTitle;
    forall i | 0 <= i < |lines| ensures '\n' !in lines[i] {
      if i > 0 {
        assert lines[i] == "- " + qs[i - 1];
      }
    }
    SplitJoinLines(lines);
    assert Join(lines, "\n") == ClarifyTitle + "\n" + Join(FollowupLines(qs), "\n");
  }

  /** An unusable specificity reply asks the one fallback question. */
  lemma FallbackClarification()
    ensures ClarifyText(FallbackAssessment.followups) == ClarifyTitle + "\n- " + FallbackQuestion
    ensures MoreDetailsText(FallbackAssessment.followups) == MoreDetailsPrefix + "- " + FallbackQuestion
  {
    assert FollowupLines([FallbackQuestion]) == ["- " + FallbackQuestion];
  }

  /** The query a specific clarification searches for: the model's rephrased
      query, or when that is empty the stripped rephrasing of the history. */
  function ScenarioQuery(a: Assessment, rephrased: string): (q: string)
    ensures q == "" <==> a.rephrasedQuery == "" && Trim(rephrased) == ""
    ensures a.rephrasedQuery != "" ==> q == a.rephrasedQuery
  {
    if a.rephrasedQuery != "" then a.rephrasedQuery else Trim(rephrased)
  }

  /** The free-chat reply: the model's stripped reply, or a fixed greeting when
      it is empty or the call raised. It is never empty. */
  function SmallTalk(reply: Option<string>): (r: string)
    ensures r != ""
    ensures reply.Some? && Trim(reply.value) != "" ==> r == Trim(reply.value)
    ensures (reply.None? || Trim(reply.value) == "") ==> r == SmallTalkFallback
  {
    if reply.Some? && Trim(reply.value) != "" then Trim(reply.value) else SmallTalkFallback
  }

  /** Every fill-stage session in the store is partitioned. */
  predicate StoreInvariant(mem: map<string, SessionState>) {
    forall k :: k in mem && mem[k].mode == Manifest ==> Partitioned(mem[k])
  }

  lemma InvariantPut(mem: map<string, SessionState>, k: string, s: SessionState)
    requires StoreInvariant(mem)
    requires s.mode == Manifest ==> Partitioned(s)
    ensures StoreInvariant(mem[k := s])
  {
  }

  lemma InvariantRemove(mem: map<string, SessionState>, k: string)
    requires StoreInvariant(mem)
    ensures StoreInvariant(mem - {k})
  {
  }

  /** The selection flow only ever adds a partitioned fill-stage session. */
  lemma FlowKeepsInvariant(m0: map<string, SessionState>, m1: map<string, SessionState>, search: Search,
                           fileText: Option<string>, greeting: Option<string>, reuse: Option<string>,
                           resp: ChatResponse)
    requires StoreInvariant(m0)
    requires FlowResult(m0, m1, search, fileText, greeting, reuse, resp)
    ensures StoreInvariant(m1)
  {
    if Selected(search).Some? {
      var hit := Selected(search).value;
      InvariantPut(m0, resp.sessionId.value, InitialState(fileText.GetOr(hit.pageContent), SourceOf(hit)));
    }
  }

  /** A turn without a session: the classified intent decides. An
      under-specified manifest request opens a clarification session holding the
      message under a new id; a specific one starts the selection flow with no
      id to reuse; help and free chat touch nothing. */
  predicate NewConversationResult(m0: map<string, SessionState>, m1: map<string, SessionState>,
                                  message: string, o: Oracles, resp: ChatResponse)
  {
    var intent := ClassifyIntent(o.intentReply);
    if intent == GetManifests then
      var a := AssessSpecificity(o.specificity);
      if !a.isSpecific then
        && resp.intent == GetManifests && resp.action == Action.AskScenario
        && resp.reply == ClarifyText(a.followups)
        && resp.sessionId.Some? && resp.sessionId.value !in m0
        && m1 == m0[resp.sessionId.value := AskState([message])]
      else
        var query := Trim(RephraseHistory([message], o.rephraseReply));
        FlowResult(m0, m1, o.search(query), o.fileText, o.greeting, None, resp)
    else if intent == Intent.Help then
      resp == ChatResponse(Intent.Help, NoAction, HelpText, None) && m1 == m0
    else
      resp == ChatResponse(Chat, NoAction, SmallTalk(o.smallTalk), None) && m1 == m0
  }

  /** A clarification-stage turn for session `sid`: help keeps the session,
      cancel ends it, gibberish is not recorded. Otherwise the message is
      appended to the stored session at once, and the assessment of the whole
      history decides between asking for more details under the same id and
      starting the selection flow reusing that id. */
  predicate ScenarioResult(m0: map<string, SessionState>, m1: map<string, SessionState>, sid: string,
                           message: string, o: Oracles, resp: ChatResponse)
    requires sid in m0
  {
    var meta := DetectMetaInScenarioMode(o.scenarioMeta);
    if meta == MetaIntent.Help then
      resp == ChatResponse(Intent.Help, NoAction, ScenarioHelpText, Some(sid)) && m1 == m0
    else if meta == MetaIntent.Cancel then
      resp == ChatResponse(Intent.Cancel, NoAction, ScenarioCancelText, None) && m1 == m0 - {sid}
    else if o.gibberish then
      resp == ChatResponse(GetManifests, Action.AskScenario, GibberishText, Some(sid)) && m1 == m0
    else
      var appended := m0[sid := m0[sid].(collectedMessages := m0[sid].collectedMessages + [message])];
      AssessResult(appended, m1, sid, o, resp)
  }

  /** The rest of a clarification turn, once the message is in the stored
      session: the assessment of its whole history decides between asking for
      more details under the same id and starting the selection flow reusing
      that id. */
  predicate AssessResult(m0: map<string, SessionState>, m1: map<string, SessionState>, sid: string,
                         o: Oracles, resp: ChatResponse)
    requires sid in m0
  {
    var a := AssessSpecificity(o.specificity);
    if !a.isSpecific then
      resp == ChatResponse(GetManifests, Action.AskScenario, MoreDetailsText(a.followups), Some(sid))
      && m1 == m0
    else
      var query := ScenarioQuery(a, RephraseHistory(m0[sid].collectedMessages, o.rephraseReply));
      FlowResult(m0, m1, o.search(query), o.fileText, o.greeting, Some(sid), resp)
  }

  /** A fill-stage turn for session `sid`: the turn `Step` describes; a finished
      turn also ends the session, and only an unfinished one hands the id back. */
  predicate FillResult(m0: map<string, SessionState>, m1: map<string, SessionState>, sid: string,
                       message: string, metaField: Option<string>, nextReply: Option<string>,
                       resp: ChatResponse)
    requires sid in m0 && m0[sid].originalDocText.Some?
  {
    var t := Step(m0[sid], message, DetectMetaIntent(metaField), nextReply);
    && resp.intent == GetManifests && resp.action == NoAction
    && resp.sessionId == (if t.done then None else Some(sid))
    && m1 == (if t.done then m0 - {sid} else Apply(m0, sid, t.effect))
    && (resp.reply == Spell(t.reply) || (t.reply.Rendered? && !Clean(t.reply.doc, t.reply.values)))
  }

  /** A fill-stage turn hands the id back exactly when the session is still
      stored, so a client never holds an id the store has forgotten. */
  lemma FillIdIffKept(m0: map<string, SessionState>, m1: map<string, SessionState>, sid: string,
                      message: string, metaField: Option<string>, nextReply: Option<string>,
                      resp: ChatResponse)
    requires sid in m0 && m0[sid].originalDocText.Some?
    requires FillResult(m0, m1, sid, message, metaField, nextReply, resp)
    ensures resp.sessionId.Some? <==> sid in m1
    ensures resp.sessionId.Some? ==> resp.sessionId == Some(sid)
  {
    var meta := DetectMetaIntent(metaField);
    if meta != Other {
      StepMeta(m0[sid], message, meta, nextReply);
    }
  }

  lemma UpdateKeepsKeys(m: map<string, SessionState>, k: string, v: SessionState)
    requires k in m
    ensures m[k := v].Keys == m.Keys
  {
  }

  /** The selection flow with a reuse id that finds a template stores its
      fill-stage session under that id. */
  lemma FlowReusesId(m0: map<string, SessionState>, m1: map<string, SessionState>, search: Search,
                     fileText: Option<string>, greeting: Option<string>, sid: string, resp: ChatResponse)
    requires sid in m0 && sid != ""
    requires FlowResult(m0, m1, search, fileText, greeting, Some(sid), resp)
    requires Selected(search).Some?
    ensures resp.sessionId == Some(sid) && m1.Keys == m0.Keys
    ensures m1[sid] == InitialState(fileText.GetOr(Selected(search).value.pageContent), SourceOf(Selected(search).value))
    ensures m1[sid].mode == Manifest && Partitioned(m1[sid]) && m1[sid].collectedMessages == []
  {
  }

  /** The history a clarification turn assesses, and the query it searches for
      once the assessment is specific. */
  function ScenarioSearchQuery(m0: map<string, SessionState>, sid: string, message: string, o: Oracles): string
    requires sid in m0
  {
    var messages := m0[sid].collectedMessages + [message];
    ScenarioQuery(AssessSpecificity(o.specificity), RephraseHistory(messages, o.rephraseReply))
  }

  /** A clarification turn that is neither a meta request nor gibberish and is
      assessed as specific is the selection flow over the store with the message
      appended, reusing the session's id. */
  lemma ScenarioGoesToFlow(m0: map<string, SessionState>, m1: map<string, SessionState>, sid: string,
                           message: string, o: Oracles, resp: ChatResponse)
    requires sid in m0
    requires ScenarioResult(m0, m1, sid, message, o, resp)
    requires DetectMetaInScenarioMode(o.scenarioMeta) == Other && !o.gibberish
    requires AssessSpecificity(o.specificity).isSpecific
    ensures var appended := m0[sid := m0[sid].(collectedMessages := m0[sid].collectedMessages + [message])];
            FlowResult(appended, m1, o.search(ScenarioSearchQuery(m0, sid, message, o)), o.fileText, o.greeting,
                       Some(sid), resp)
  {
  }

  /** A clarification that becomes specific and finds a template turns the same
      session into a fill-stage session under the same id: the store keeps its
      keys, and the collected messages are dropped. */
  lemma ScenarioHandsOver(m0: map<string, SessionState>, m1: map<string, SessionState>, sid: string,
                          message: string, o: Oracles, resp: ChatResponse)
    requires sid in m0 && sid != ""
    requires ScenarioResult(m0, m1, sid, message, o, resp)
    requires DetectMetaInScenarioMode(o.scenarioMeta) == Other && !o.gibberish
    requires AssessSpecificity(o.specificity).isSpecific
    requires Selected(o.search(ScenarioSearchQuery(m0, sid, message, o))).Some?
    ensures resp.sessionId == Some(sid) && m1.Keys == m0.Keys
    ensures m1[sid].mode == Manifest && Partitioned(m1[sid]) && m1[sid].collectedMessages == []
  {
    var appended := m0[sid := m0[sid].(collectedMessages := m0[sid].collectedMessages + [message])];
    ScenarioGoesToFlow(m0, m1, sid, message, o, resp);
    UpdateKeepsKeys(m0, sid, appended[sid]);
    FlowReusesId(appended, m1, o.search(ScenarioSearchQuery(m0, sid, message, o)), o.fileText, o.greeting, sid, resp);
  }

  /** `chat` (routes/chat.py). A truthy id that names no session restarts the
      turn once, without an id and with the restart notice before the message. */
  method ChatTurn(store: SessionStore, message: string, sessionId: Option<string>, o: Oracles)
    returns (resp: ChatResponse)
    modifies store
    requires StoreInvariant(store.mem)
    ensures StoreInvariant(store.mem)
    ensures !Truthy(sessionId) ==> NewConversationResult(old(store.mem), store.mem, message, o, resp)
    ensures Truthy(sessionId) && sessionId.value !in old(store.mem) ==>
              NewConversationResult(old(store.mem), store.mem, RestartNotice + message, o, resp)
    ensures Truthy(sessionId) && sessionId.value in old(store.mem) ==>
              var sid := sessionId.value;
              match old(store.mem)[sid].mode
              case AskScenario => ScenarioResult(old(store.mem), store.mem, sid, message, o, resp)
              case Manifest =>
                FillResult(old(store.mem), store.mem, sid, message, o.metaField, o.nextReply, resp)
              case Unset =>
                resp == ChatResponse(Chat, NoAction, UnknownStateText, None) && store.mem == old(store.mem)
    decreases if Truthy(sessionId) then 1 else 0
  {
    if Truthy(sessionId) {
      var sid := sessionId.value;
      var session := store.Get(sid);
      if session.None? {
        resp := ChatTurn(store, RestartNotice + message, None, o);
        return;
      }
      match session.value.mode
      case AskScenario =>
        resp := ScenarioTurn(store, sid, message, o);
      case Manifest =>
        resp := FillTurn(store, sid, message, o.metaField, o.nextReply);
      case Unset =>
        resp := ChatResponse(Chat, NoAction, UnknownStateText, None);
    } else {
      resp := NewConversation(store, message, o);
    }
  }

  /** The clarification branch of `chat`. */
  method ScenarioTurn(store: SessionStore, sid: string, message: string, o: Oracles)
    returns (resp: ChatResponse)
    modifies store
    requires sid in store.mem && store.mem[sid].mode == Mode.AskScenario
    requires StoreInvariant(store.mem)
    ensures StoreInvariant(store.mem)
    ensures ScenarioResult(old(store.mem), store.mem, sid, message, o, resp)
  {
    var session := store.mem[sid];
    var metaIntent := DetectMetaInScenarioMode(o.scenarioMeta);
    if metaIntent == MetaIntent.Help {
      return ChatResponse(Intent.Help, NoAction, ScenarioHelpText, Some(sid));
    }
    if metaIntent == MetaIntent.Cancel {
      store.End(sid);
      InvariantRemove(old(store.mem), sid);
      return ChatResponse(Intent.Cancel, NoAction, ScenarioCancelText, None);
    }
    if o.gibberish {
      return ChatResponse(GetManifests, Action.AskScenario, GibberishText, Some(sid));
    }
    // The stored session object is the one appended to, so the new message is
    // in the store from here on, whichever way the turn ends.
    session := session.(collectedMessages := session.collectedMessages + [message]);
    store.Save(sid, session);
    InvariantPut(old(store.mem), sid, session);
    resp := AssessTurn(store, sid, o);
  }

  /** The part of the clarification branch after the message is appended. */
  method AssessTurn(store: SessionStore, sid: string, o: Oracles) returns (resp: ChatResponse)
    modifies store
    requires sid in store.mem && StoreInvariant(store.mem)
    ensures StoreInvariant(store.mem)
    ensures AssessResult(old(store.mem), store.mem, sid, o, resp)
  {
    var session := store.mem[sid];
    var rephrased := RephraseHistory(session.collectedMessages, o.rephraseReply);
    var assess := AssessSpecificity(o.specificity);
    if !assess.isSpecific {
      var bulletQuestions := Join(FollowupLines(assess.followups), "\n");
      store.Save(sid, session);
      assert store.mem == old(store.mem);
      return ChatResponse(GetManifests, Action.AskScenario, MoreDetailsPrefix + bulletQuestions, Some(sid));
    }
    var query := if assess.rephrasedQuery != "" then assess.rephrasedQuery else Trim(rephrased);
    resp := StartManifestFlow(store, o.search(query), o.fileText, o.greeting, Some(sid));
    FlowKeepsInvariant(old(store.mem), store.mem, o.search(query), o.fileText, o.greeting, Some(sid), resp);
  }

  /** The fill-stage branch of `chat`: delegates to `handle_placeholder_reply`
      and ends the session when the turn is finished. */
  method FillTurn(store: SessionStore, sid: string, message: string, metaField: Option<string>,
                  nextReply: Option<string>)
    returns (resp: ChatResponse)
    modifies store
    requires sid in store.mem && store.mem[sid].mode == Manifest
    requires StoreInvariant(store.mem)
    ensures StoreInvariant(store.mem)
    ensures FillResult(old(store.mem), store.mem, sid, message, metaField, nextReply, resp)
  {
    ghost var t := Step(store.mem[sid], message, DetectMetaIntent(metaField), nextReply);
    var text, done := HandlePlaceholderReply(store, sid, message, metaField, nextReply);
    if done {
      store.End(sid);
      assert store.mem == old(store.mem) - {sid};
      InvariantRemove(old(store.mem), sid);
    } else {
      StepPreservesPartition(old(store.mem)[sid], message, DetectMetaIntent(metaField), nextReply);
      if t.effect.Update? {
        InvariantPut(old(store.mem), sid, t.effect.state);
      }
    }
    resp := ChatResponse(GetManifests, NoAction, text, if done then None else Some(sid));
  }

  /** The branch of `chat` for a turn without a session. */
  method NewConversation(store: SessionStore, message: string, o: Oracles) returns (resp: ChatResponse)
    modifies store
    requires StoreInvariant(store.mem)
    ensures StoreInvariant(store.mem)
    ensures NewConversationResult(old(store.mem), store.mem, message, o, resp)
  {
    var intent := ClassifyIntent(o.intentReply);
    if intent == GetManifests {
      var rephrased := RephraseHistory([message], o.rephraseReply);
      var assess := AssessSpecificity(o.specificity);
      if !assess.isSpecific {
        var bulletQuestions := Join(FollowupLines(assess.followups), "\n");
        var sessionId := store.Create(AskState([message]), None);
        InvariantPut(old(store.mem), sessionId, AskState([message]));
        return ChatResponse(GetManifests, Action.AskScenario, ClarifyTitle + "\n" + bulletQuestions, Some(sessionId));
      }
      var query := Trim(rephrased);
      resp := StartManifestFlow(store, o.search(query), o.fileText, o.greeting, None);
      FlowKeepsInvariant(old(store.mem), store.mem, o.search(query), o.fileText, o.greeting, None, resp);
      return;
    }
    if intent == Intent.Help {
      return ChatResponse(Intent.Help, NoAction, HelpText, None);
    }
    return ChatResponse(Chat, NoAction, SmallTalk(o.smallTalk), None);
  }
}
