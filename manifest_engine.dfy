/** The manifest selection flow of core/manifest_engine.py
    (`start_manifest_flow_from_query`) and its older form in manifest_flow.py.

    The vector search, the file read and the greeting from the language model
    are inputs: the search result (or its failure), the text read from the
    template's source file (or `None` when the read failed), and the model's
    reply (`None` when the call raised). */
module ManifestEngine {
  import opened Wrappers
  import opened Text
  import opened Placeholders
  import opened Sessions
  import opened Responses
  import opened Dialogue

  /** One search hit: the indexed text, the "source" metadata entry, and the
      cosine distance the store reports. */
  datatype Hit = Hit(pageContent: string, source: Option<string>, rawScore: real)

  /** `similarity_search_with_score(query, k=1)`: raised, or the hits. */
  datatype Search = SearchFailed | Results(hits: seq<Hit>)

  const SimilarityThreshold: real := 0.4

  const SearchErrorText: string := "Произошла ошибка при поиске манифестов. Попробуйте другой запрос."
  const NotFoundManifestText: string := "К сожалению, не удалось найти подходящий манифест. Попробуйте другой запрос.\n"
  const NoParametersReply: string := "Манифест найден и не содержит параметров для заполнения."
  const LegacyNoParametersReply: string := "Манифест найден. Необходимо заполнить все поля. Отправьте render, чтобы показать их\n"
  const UnknownSource: string := "source unknown"

  /** The relevance gate: a hit is rejected when `1 - raw_score` is below the threshold. */
  predicate Relevant(h: Hit) {
    !(1.0 - h.rawScore < SimilarityThreshold)
  }

  /** The gate accepts exactly the hits at cosine distance at most 0.6. */
  lemma RelevantIffClose(h: Hit)
    ensures Relevant(h) <==> h.rawScore <= 0.6
  {
  }

  /** The hit the flow goes on with, if any: the first result, when it passes the gate. */
  function Selected(search: Search): (r: Option<Hit>)
    ensures r.Some? <==> search.Results? && search.hits != [] && Relevant(search.hits[0])
    ensures r.Some? ==> r.value == search.hits[0]
  {
    if search.Results? && search.hits != [] && Relevant(search.hits[0]) then Some(search.hits[0]) else None
  }

  /** The reply when no template is selected: a search failure or "not found". */
  function RejectReply(search: Search): string {
    if search.SearchFailed? then SearchErrorText else NotFoundManifestText
  }

  function SourceOf(h: Hit): string {
    h.source.GetOr(UnknownSource)
  }

  /** The fill-stage session for a template: its first sorted placeholder is
      asked for, the rest queue in order, nothing is filled yet. */
  function InitialState(doc: string, source: string): (s: SessionState)
    ensures s.mode == Manifest && s.originalDocText == Some(doc) && s.filled == map[]
    ensures Outstanding(s) == Extract(doc)
    ensures Partitioned(s)
  {
    var names := Extract(doc);
    FreshPartition(doc, Some(source), names);
    SessionState(Manifest, [], Some(source), Some(doc), if names == [] then [] else names[1..],
                 map[], if names == [] then None else Some(names[0]))
  }

  /** A template without placeholders gives a session with nothing current and
      nothing queued. */
  lemma InitialStateWithoutPlaceholders(doc: string, source: string)
    requires Extract(doc) == []
    ensures InitialState(doc, source).current.None? && InitialState(doc, source).remaining == []
  {
    assert Outstanding(InitialState(doc, source)) == [];
  }

  /** The greeting, corrected: the model's stripped reply, or when it is empty a
      prompt naming the first placeholder; when the call raised, the fixed
      prompt naming it. */
  function Greeting(first: string, reply: Option<string>): (r: string)
    ensures Contains(r, first) || (reply.Some? && r == Trim(reply.value) && r != "")
  {
    match reply
    case Some(c) =>
      if Trim(c) != "" then Trim(c)
      else
        ContainsMiddle("Введите значение для плейсхолдера {{ $", first, " }}:");
        "Введите значение для плейсхолдера {{ $" + first + " }}:"
    case None =>
      ContainsMiddle("Введите значение для плейсхолдера ${", first, "}:");
      "Введите значение для плейсхолдера ${" + first + "}:"
  }

  /** The greeting as written, in both core/manifest_engine.py and
      manifest_flow.py: an empty reply gives a fixed text that does not name the
      placeholder at all. */
  function GreetingAsWritten(first: string, reply: Option<string>): string {
    match reply
    case Some(c) => if Trim(c) != "" then Trim(c) else "Введите значение для плейсхолдера {{first_placeholder}}:"
    case None => "Введите значение для плейсхолдера ${" + first + "}:"
  }

  /** As written, an empty greeting is the same whichever placeholder comes
      first, so it cannot tell the user what to enter; the corrected greeting
      names it. */
  lemma EmptyGreetingIgnoresPlaceholder(a: string, b: string)
    ensures GreetingAsWritten(a, Some("")) == GreetingAsWritten(b, Some(""))
    ensures Contains(Greeting(a, Some("")), a)
  {
    TrimOfTrimmed("");
  }

  /** What `start_manifest_flow_from_query` (core/manifest_engine.py) does to the
      store `m0`, giving `m1`, and answers: on a search failure, no result or an
      irrelevant one, the reply carries the reuse id and the store is untouched.
      Otherwise the template (the file text when it could be read, else the
      indexed text) becomes a fill-stage session stored with `create(state,
      reuse)`, and the reply carries the id it was stored under: the reuse id when
      one is given, else a new one. */
  predicate FlowResult(m0: map<string, SessionState>, m1: map<string, SessionState>, search: Search,
                       fileText: Option<string>, greeting: Option<string>, reuse: Option<string>,
                       resp: ChatResponse)
  {
    && resp.intent == GetManifests && resp.action == NoAction
    && (Selected(search).None? ==>
          resp.reply == RejectReply(search) && resp.sessionId == reuse && m1 == m0)
    && (Selected(search).Some? ==>
          var hit := Selected(search).value;
          var doc := fileText.GetOr(hit.pageContent);
          var names := Extract(doc);
          && resp.sessionId.Some?
          && (Truthy(reuse) ==> resp.sessionId == reuse)
          && (!Truthy(reuse) ==> resp.sessionId.value !in m0)
          && m1 == m0[resp.sessionId.value := InitialState(doc, SourceOf(hit))]
          && resp.reply == (if names == [] then NoParametersReply else Greeting(names[0], greeting)))
  }

  /** `start_manifest_flow_from_query` (core/manifest_engine.py). */
  method StartManifestFlow(store: SessionStore, search: Search, fileText: Option<string>,
                           greeting: Option<string>, reuse: Option<string>)
    returns (resp: ChatResponse)
    modifies store
    ensures FlowResult(old(store.mem), store.mem, search, fileText, greeting, reuse, resp)
  {
    if search.SearchFailed? {
      return ChatResponse(GetManifests, NoAction, SearchErrorText, reuse);
    }
    if search.hits == [] {
      return ChatResponse(GetManifests, NoAction, NotFoundManifestText, reuse);
    }
    var matched := search.hits[0];
    var docSource := SourceOf(matched);
    var docText := fileText.GetOr(matched.pageContent);
    var similarity := 1.0 - matched.rawScore;
    if similarity < SimilarityThreshold {
      return ChatResponse(GetManifests, NoAction, NotFoundManifestText, reuse);
    }
    var placeholders := Extract(docText);
    var state := InitialState(docText, docSource);
    var sessionId := store.Create(state, reuse);
    if placeholders == [] {
      return ChatResponse(GetManifests, NoAction, NoParametersReply, Some(sessionId));
    }
    var aiMessage := Greeting(placeholders[0], greeting);
    return ChatResponse(GetManifests, NoAction, aiMessage, Some(sessionId));
  }

  /** What `start_manifest_flow_from_query` of manifest_flow.py does to the store
      `m0`, giving `m1`, and answers. The template is always the indexed text,
      and a template without placeholders gets its own reply. The greeting call
      is not guarded: when it raises, the exception escapes before anything is
      stored. An empty reply gets the corrected greeting, which names the first
      placeholder. */
  predicate LegacyFlowResult(m0: map<string, SessionState>, m1: map<string, SessionState>, search: Search,
                             greeting: Option<string>, reuse: Option<string>, out: Outcome<ChatResponse>)
  {
    && (Selected(search).None? ==>
          out == Returned(ChatResponse(GetManifests, NoAction, RejectReply(search), reuse)) && m1 == m0)
    && (Selected(search).Some? ==>
          var hit := Selected(search).value;
          var names := Extract(hit.pageContent);
          if names != [] && greeting.None? then
            out == Raised && m1 == m0
          else
            && out.Returned? && out.value.intent == GetManifests && out.value.action == NoAction
            && out.value.sessionId.Some?
            && (Truthy(reuse) ==> out.value.sessionId == reuse)
            && (!Truthy(reuse) ==> out.value.sessionId.value !in m0)
            && m1 == m0[out.value.sessionId.value := InitialState(hit.pageContent, SourceOf(hit))]
            && out.value.reply == (if names == [] then LegacyNoParametersReply else Greeting(names[0], greeting)))
  }

  /** `start_manifest_flow_from_query` (manifest_flow.py). */
  method StartManifestFlowLegacy(store: SessionStore, search: Search, greeting: Option<string>,
                                 reuse: Option<string>)
    returns (out: Outcome<ChatResponse>)
    modifies store
    ensures LegacyFlowResult(old(store.mem), store.mem, search, greeting, reuse, out)
  {
    if search.SearchFailed? {
      return Returned(ChatResponse(GetManifests, NoAction, SearchErrorText, reuse));
    }
    if search.hits == [] {
      return Returned(ChatResponse(GetManifests, NoAction, NotFoundManifestText, reuse));
    }
    var matched := search.hits[0];
    var docText := matched.pageContent;
    var docSource := SourceOf(matched);
    var similarity := 1.0 - matched.rawScore;
    if similarity < SimilarityThreshold {
      return Returned(ChatResponse(GetManifests, NoAction, NotFoundManifestText, reuse));
    }
    var placeholders := Extract(docText);
    if placeholders == [] {
      var sessionId := store.Create(InitialState(docText, docSource), reuse);
      return Returned(ChatResponse(GetManifests, NoAction, LegacyNoParametersReply, Some(sessionId)));
    }
    if greeting.None? {
      return Raised;
    }
    var aiMessage := Greeting(placeholders[0], greeting);
    var sessionId := store.Create(InitialState(docText, docSource), reuse);
    return Returned(ChatResponse(GetManifests, NoAction, aiMessage, Some(sessionId)));
  }
}
