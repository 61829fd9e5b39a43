/** The two plain-text endpoints of app.py over its module-level `sessions`
    dictionary: `get_manifests` opens a fill session for the best template, and
    `reply_to_llm` fills it one value at a time, with no meta requests, deleting
    the session itself once the manifest is rendered.

    The dictionary is modelled by `SessionStore`. Its sessions carry no "mode"
    key, which is `Unset` here. */
module App {
  import opened Wrappers
  import opened Text
  import opened Placeholders
  import opened Sessions
  import opened Responses
  import opened Dialogue
  import opened ManifestEngine

  /** A `PlainTextResponse`: its content, its status code, and the
      `App-Session-ID` and `App-Source-File` headers when it sets them. */
  datatype TextResponse = TextResponse(content: string, status: int, sessionHeader: Option<string>,
                                       sourceHeader: Option<string>)

  const AppNotFoundText: string := "Сессия не найдена. Начните новую сессию."

  /** Every session of app.py was opened by `get_manifests`: it has no mode, is
      partitioned, and has a current placeholder. */
  predicate AppInvariant(mem: map<string, SessionState>) {
    forall k :: k in mem ==> mem[k].mode == Unset && Partitioned(mem[k]) && mem[k].current.Some?
  }

  /** The session `get_manifests` stores for a template with placeholders. */
  function AppSession(doc: string, source: string): (s: SessionState)
    requires Extract(doc) != []
    ensures s.mode == Unset && s.originalDocText == Some(doc) && s.sourceFile == Some(source)
    ensures s.current == Some(Extract(doc)[0]) && s.remaining == Extract(doc)[1..] && s.filled == map[]
    ensures Partitioned(s)
  {
    InitialState(doc, source).(mode := Unset)
  }

  /** The content of a successful `get_manifests`. */
  function SessionBanner(sid: string, message: string): (r: string)
    ensures Contains(r, sid)
  {
    ContainsMiddle("session_id `", sid, "`\n" + message + "\n");
    "session_id `" + sid + ("`\n" + message + "\n")
  }

  /** What `get_manifests` does to the store `m0`, giving `m1`, and answers. An
      empty search result and a template without placeholders are indexed
      unguarded and raise, as does a failing greeting call; in every other case
      nothing is stored unless a session is opened under a new id. */
  predicate GetManifestsResult(m0: map<string, SessionState>, m1: map<string, SessionState>, search: Search,
                               greeting: Option<string>, out: Outcome<TextResponse>)
  {
    if search.SearchFailed? then
      out == Returned(TextResponse(SearchErrorText, 500, None, None)) && m1 == m0
    else if search.hits == [] then
      out == Raised && m1 == m0
    else if !Relevant(search.hits[0]) then
      out == Returned(TextResponse(NotFoundManifestText, 404, None, None)) && m1 == m0
    else
      var hit := search.hits[0];
      var names := Extract(hit.pageContent);
      if names == [] || greeting.None? then
        out == Raised && m1 == m0
      else
        && out.Returned? && out.value.sessionHeader.Some?
        && var sid := out.value.sessionHeader.value;
        && sid !in m0
        && m1 == m0[sid := AppSession(hit.pageContent, SourceOf(hit))]
        && out.value == TextResponse(SessionBanner(sid, Trim(greeting.value)), 200, Some(sid), Some(SourceOf(hit)))
  }

  /** `get_manifests` (app.py). */
  method GetManifests(store: SessionStore, search: Search, greeting: Option<string>)
    returns (out: Outcome<TextResponse>)
    modifies store
    requires AppInvariant(store.mem)
    ensures AppInvariant(store.mem)
    ensures GetManifestsResult(old(store.mem), store.mem, search, greeting, out)
  {
    if search.SearchFailed? {
      return Returned(TextResponse(SearchErrorText, 500, None, None));
    }
    if search.hits == [] {
      return Raised;
    }
    var matched := search.hits[0];
    var docText := matched.pageContent;
    var docSource := SourceOf(matched);
    var similarity := 1.0 - matched.rawScore;
    if similarity < SimilarityThreshold {
      return Returned(TextResponse(NotFoundManifestText, 404, None, None));
    }
    var placeholders := Extract(docText);
    if placeholders == [] || greeting.None? {
      return Raised;
    }
    var aiMessage := Trim(greeting.value);
    var sessionId := store.Create(AppSession(docText, docSource), None);
    return Returned(TextResponse(SessionBanner(sessionId, aiMessage), 200, Some(sessionId), Some(docSource)));
  }

  /** The reply to a value of the wrong type. */
  function AppRetryText(current: Option<string>): string {
    "`{{ $" + NameText(current) + "}}` ожидает значение с типом `" + ExpectedType(current) + "`. Попробуйте снова: "
  }

  /** The final reply as written: a stray " + " stands between the header and
      the manifest. */
  function DoneReplyAsWritten(yaml: string): string {
    "Все значения заполнены! Итоговые манифесты:\n\n + " + yaml
  }

  /** The final reply, corrected: the header, then the manifest. */
  function DoneReply(yaml: string): (r: string)
    ensures |r| >= |DoneHeader| && r[..|DoneHeader|] == DoneHeader && r[|DoneHeader|..] == yaml
  {
    DoneHeader + yaml
  }

  /** As written, what follows the header is never the manifest itself. */
  lemma DoneReplyStrayPlus(yaml: string)
    ensures DoneReplyAsWritten(yaml) == DoneHeader + " + " + yaml
    ensures DoneReplyAsWritten(yaml)[|DoneHeader|..] != yaml
  {
    var r := DoneReplyAsWritten(yaml);
    assert r == DoneHeader + (" + " + yaml);
    assert r[|DoneHeader|..] == " + " + yaml;
    assert |" + " + yaml| != |yaml|;
  }

  /** The corrected final reply of app.py is the final reply of the fill engine. */
  lemma DoneReplyIsEngineReply(doc: string, values: map<string, string>)
    ensures DoneReply(Render(doc, values)) == Spell(Rendered(doc, values))
  {
    SpellRendered(doc, values);
  }

  /** What `reply_to_llm` does to the store `m0`, giving `m1`, and answers: the
      stripped message is the value turn of the fill engine, without meta
      requests. */
  predicate ReplyResult(m0: map<string, SessionState>, m1: map<string, SessionState>, sid: string,
                        message: string, nextReply: Option<string>, out: Outcome<TextResponse>)
    requires sid in m0 ==> m0[sid].originalDocText.Some?
  {
    if sid !in m0 then
      out == Returned(TextResponse(AppNotFoundText, 404, None, None)) && m1 == m0
    else
      ValueResult(m0, m1, sid, Trim(message), nextReply, out)
  }

  /** The turn of `reply_to_llm` for the stored session `sid` and the stripped
      value. A rejected value changes nothing; an accepted one is recorded and
      the next placeholder becomes current before the unguarded question call,
      so the step stands when that call raises; the last value renders the
      manifest and deletes the session. */
  predicate ValueResult(m0: map<string, SessionState>, m1: map<string, SessionState>, sid: string,
                        value: string, nextReply: Option<string>, out: Outcome<TextResponse>)
    requires sid in m0 && m0[sid].originalDocText.Some?
  {
    var t := ValueTurn(m0[sid], value, nextReply);
    match t.reply
    case Retry(current) =>
      out == Returned(TextResponse(AppRetryText(current), 200, None, None)) && m1 == m0
    case Ask(_, _) =>
      && m1 == Apply(m0, sid, t.effect)
      && out == (if nextReply.None? then Raised
                 else Returned(TextResponse(Trim(nextReply.value) + "\n", 200, None, None)))
    case Rendered(doc, values) =>
      && m1 == m0 - {sid}
      && out.Returned? && out.value.status == 200
      && out.value.sessionHeader.None? && out.value.sourceHeader.None?
      && (Clean(doc, values) ==> out.value.content == DoneReply(Render(doc, values)))
    case _ => false
  }

  lemma AppInvariantPut(mem: map<string, SessionState>, k: string, s: SessionState)
    requires AppInvariant(mem)
    requires s.mode == Unset && Partitioned(s) && s.current.Some?
    ensures AppInvariant(mem[k := s])
  {
  }

  /** `reply_to_llm` (app.py). */
  method ReplyToLlm(store: SessionStore, sid: string, message: string, nextReply: Option<string>)
    returns (out: Outcome<TextResponse>)
    modifies store
    requires AppInvariant(store.mem)
    ensures AppInvariant(store.mem)
    ensures ReplyResult(old(store.mem), store.mem, sid, message, nextReply, out)
  {
    var userInput := Trim(message);
    var session := store.Get(sid);
    if session.None? {
      return Returned(TextResponse(AppNotFoundText, 404, None, None));
    }
    out := AcceptAppValue(store, sid, session.value, userInput, nextReply);
  }

  /** The part of `reply_to_llm` after the session is found: `value` is the
      stripped message. */
  method AcceptAppValue(store: SessionStore, sid: string, s: SessionState, value: string,
                        nextReply: Option<string>)
    returns (out: Outcome<TextResponse>)
    modifies store
    requires AppInvariant(store.mem) && sid in store.mem && store.mem[sid] == s
    ensures AppInvariant(store.mem)
    ensures ValueResult(old(store.mem), store.mem, sid, value, nextReply, out)
  {
    var expectedType := ExpectedType(s.current);
    if !IsPlaceholderValid(value, expectedType) {
      return Returned(TextResponse(AppRetryText(s.current), 200, None, None));
    }
    if s.remaining != [] {
      out := AdvanceAppValue(store, sid, s, value, nextReply);
    } else {
      out := FinishAppValue(store, sid, s, value, nextReply);
    }
  }

  /** A valid value with placeholders still queued: the next one becomes
      current, then the question call answers or raises. */
  method AdvanceAppValue(store: SessionStore, sid: string, s: SessionState, value: string,
                         nextReply: Option<string>)
    returns (out: Outcome<TextResponse>)
    modifies store
    requires AppInvariant(store.mem) && sid in store.mem && store.mem[sid] == s
    requires IsPlaceholderValid(value, ExpectedType(s.current)) && s.remaining != []
    ensures AppInvariant(store.mem)
    ensures ValueResult(old(store.mem), store.mem, sid, value, nextReply, out)
  {
    var currentPlaceholder := s.current.value;
    var nextPlaceholder := s.remaining[0];
    AdvancePartition(s, value);
    var advanced := s.(filled := s.filled[currentPlaceholder := value], current := Some(nextPlaceholder),
                       remaining := s.remaining[1..]);
    assert ValueTurn(s, value, nextReply) == Turn(Ask(nextPlaceholder, nextReply), false, Update(advanced));
    store.Save(sid, advanced);
    AppInvariantPut(old(store.mem), sid, advanced);
    if nextReply.None? {
      return Raised;
    }
    return Returned(TextResponse(Trim(nextReply.value) + "\n", 200, None, None));
  }

  /** A valid value for the last placeholder: the manifest is rendered and the
      session deleted. */
  method FinishAppValue(store: SessionStore, sid: string, s: SessionState, value: string,
                        nextReply: Option<string>)
    returns (out: Outcome<TextResponse>)
    modifies store
    requires AppInvariant(store.mem) && sid in store.mem && store.mem[sid] == s
    requires IsPlaceholderValid(value, ExpectedType(s.current)) && s.remaining == []
    ensures AppInvariant(store.mem)
    ensures ValueResult(old(store.mem), store.mem, sid, value, nextReply, out)
  {
    var filled := s.filled[s.current.value := value];
    assert ValueTurn(s, value, nextReply).reply == Rendered(s.originalDocText.value, filled);
    var resultingYaml := FillPlaceholders(s.originalDocText.value, filled);
    store.End(sid);
    return Returned(TextResponse(DoneReply(resultingYaml), 200, None, None));
  }
}
