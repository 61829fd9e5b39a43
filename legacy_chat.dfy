/** The older chat endpoint of chat.py, over the module-level `sessions`
    dictionary (modelled by the same `SessionStore`: a dictionary insert, `pop`
    and `get` are `Save`, `End` and `Get`). Compared with routes/chat.py it has
    no restart on an unknown id, no meta intents and no gibberish check while
    clarifying, and it selects templates with the flow of manifest_flow.py,
    whose greeting call may raise. */
module LegacyChat {
  import opened Wrappers
  import opened Text
  import opened Sessions
  import opened Responses
  import opened Oracle
  import opened ManifestEngine
  import opened Router

  const SessionGoneText: string := "Сессия не найдена или завершена. Попробуйте начать сначала."

  /** The legacy flow only ever adds a partitioned fill-stage session. */
  lemma LegacyFlowKeepsInvariant(m0: map<string, SessionState>, m1: map<string, SessionState>, search: Search,
                                 greeting: Option<string>, reuse: Option<string>, out: Outcome<ChatResponse>)
    requires StoreInvariant(m0)
    requires LegacyFlowResult(m0, m1, search, greeting, reuse, out)
    ensures StoreInvariant(m1)
  {
    if Selected(search).Some? && out.Returned? {
      var hit := Selected(search).value;
      InvariantPut(m0, out.value.sessionId.value, InitialState(hit.pageContent, SourceOf(hit)));
    }
  }

  /** A turn without a session, as chat.py answers it: as in routes/chat.py, but
      a specific request goes through the legacy flow, which may raise. */
  predicate LegacyNewConversationResult(m0: map<string, SessionState>, m1: map<string, SessionState>,
                                        message: string, o: Oracles, out: Outcome<ChatResponse>)
  {
    var intent := ClassifyIntent(o.intentReply);
    if intent == GetManifests then
      var a := AssessSpecificity(o.specificity);
      if !a.isSpecific then
        && out.Returned?
        && out.value.intent == GetManifests && out.value.action == Action.AskScenario
        && out.value.reply == ClarifyText(a.followups)
        && out.value.sessionId.Some? && out.value.sessionId.value !in m0
        && m1 == m0[out.value.sessionId.value := AskState([message])]
      else
        var query := Trim(RephraseHistory([message], o.rephraseReply));
        LegacyFlowResult(m0, m1, o.search(query), o.greeting, None, out)
    else if intent == Intent.Help then
      out == Returned(ChatResponse(Intent.Help, NoAction, HelpText, None)) && m1 == m0
    else
      out == Returned(ChatResponse(Chat, NoAction, SmallTalk(o.smallTalk), None)) && m1 == m0
  }

  /** A clarification-stage turn in chat.py: the message is always appended,
      then the assessment of the whole history decides. When the legacy flow
      raises, the appended message stays. */
  predicate LegacyScenarioResult(m0: map<string, SessionState>, m1: map<string, SessionState>, sid: string,
                                 message: string, o: Oracles, out: Outcome<ChatResponse>)
    requires sid in m0
  {
    var messages := m0[sid].collectedMessages + [message];
    var appended := m0[sid := m0[sid].(collectedMessages := messages)];
    var a := AssessSpecificity(o.specificity);
    if !a.isSpecific then
      out == Returned(ChatResponse(GetManifests, Action.AskScenario, MoreDetailsText(a.followups), Some(sid)))
      && m1 == appended
    else
      var query := ScenarioQuery(a, RephraseHistory(messages, o.rephraseReply));
      LegacyFlowResult(appended, m1, o.search(query), o.greeting, Some(sid), out)
  }

  /** `chat` (chat.py). */
  method LegacyChatTurn(store: SessionStore, message: string, sessionId: Option<string>, o: Oracles)
    returns (out: Outcome<ChatResponse>)
    modifies store
    requires StoreInvariant(store.mem)
    ensures StoreInvariant(store.mem)
    ensures !Truthy(sessionId) ==> LegacyNewConversationResult(old(store.mem), store.mem, message, o, out)
    ensures Truthy(sessionId) && sessionId.value !in old(store.mem) ==>
              out == Returned(ChatResponse(Chat, NoAction, SessionGoneText, None)) && store.mem == old(store.mem)
    ensures Truthy(sessionId) && sessionId.value in old(store.mem) ==>
              var sid := sessionId.value;
              match old(store.mem)[sid].mode
              case AskScenario => LegacyScenarioResult(old(store.mem), store.mem, sid, message, o, out)
              case Manifest =>
                out.Returned? && FillResult(old(store.mem), store.mem, sid, message, o.metaField, o.nextReply, out.value)
              case Unset =>
                out == Returned(ChatResponse(Chat, NoAction, UnknownStateText, None)) && store.mem == old(store.mem)
  {
    if Truthy(sessionId) {
      var sid := sessionId.value;
      var session := store.Get(sid);
      if session.None? {
        return Returned(ChatResponse(Chat, NoAction, SessionGoneText, None));
      }
      match session.value.mode
      case AskScenario =>
        out := LegacyScenarioTurn(store, sid, message, o);
      case Manifest =>
        var resp := FillTurn(store, sid, message, o.metaField, o.nextReply);
        out := Returned(resp);
      case Unset =>
        out := Returned(ChatResponse(Chat, NoAction, UnknownStateText, None));
    } else {
      out := LegacyNewConversation(store, message, o);
    }
  }

  /** The clarification branch of chat.py's `chat`. */
  method LegacyScenarioTurn(store: SessionStore, sid: string, message: string, o: Oracles)
    returns (out: Outcome<ChatResponse>)
    modifies store
    requires sid in store.mem && store.mem[sid].mode == Mode.AskScenario
    requires StoreInvariant(store.mem)
    ensures StoreInvariant(store.mem)
    ensures LegacyScenarioResult(old(store.mem), store.mem, sid, message, o, out)
  {
    var session := store.mem[sid];
    // The dictionary in the store is the one appended to.
    session := session.(collectedMessages := session.collectedMessages + [message]);
    store.Save(sid, session);
    InvariantPut(old(store.mem), sid, session);
    var rephrased := RephraseHistory(session.collectedMessages, o.rephraseReply);
    var assess := AssessSpecificity(o.specificity);
    if !assess.isSpecific {
      var bulletQuestions := Join(FollowupLines(assess.followups), "\n");
      return Returned(ChatResponse(GetManifests, Action.AskScenario, MoreDetailsPrefix + bulletQuestions, Some(sid)));
    }
    var query := if assess.rephrasedQuery != "" then assess.rephrasedQuery else Trim(rephrased);
    ghost var appended := store.mem;
    out := StartManifestFlowLegacy(store, o.search(query), o.greeting, Some(sid));
    LegacyFlowKeepsInvariant(appended, store.mem, o.search(query), o.greeting, Some(sid), out);
  }

  /** The branch of chat.py's `chat` for a turn without a session. */
  method LegacyNewConversation(store: SessionStore, message: string, o: Oracles)
    returns (out: Outcome<ChatResponse>)
    modifies store
    requires StoreInvariant(store.mem)
    ensures StoreInvariant(store.mem)
    ensures LegacyNewConversationResult(old(store.mem), store.mem, message, o, out)
  {
    var intent := ClassifyIntent(o.intentReply);
    if intent == GetManifests {
      var rephrased := RephraseHistory([message], o.rephraseReply);
      var assess := AssessSpecificity(o.specificity);
      if !assess.isSpecific {
        var bulletQuestions := Join(FollowupLines(assess.followups), "\n");
        var sessionId := store.Create(AskState([message]), None);
        InvariantPut(old(store.mem), sessionId, AskState([message]));
        return Returned(ChatResponse(GetManifests, Action.AskScenario, ClarifyTitle + "\n" + bulletQuestions, Some(sessionId)));
      }
      var query := Trim(rephrased);
      out := StartManifestFlowLegacy(store, o.search(query), o.greeting, None);
      LegacyFlowKeepsInvariant(old(store.mem), store.mem, o.search(query), o.greeting, None, out);
      return;
    }
    if intent == Intent.Help {
      return Returned(ChatResponse(Intent.Help, NoAction, HelpText, None));
    }
    return Returned(ChatResponse(Chat, NoAction, SmallTalk(o.smallTalk), None));
  }
}
