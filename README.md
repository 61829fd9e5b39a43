# Manifest template chat bot — a Dafny model of its deterministic kernel

The system is a chat bot that helps a user produce Kubernetes/Istio YAML
manifests from templates. A template holds placeholder tokens such as
`{{ $dpPort1 }}`. The bot first selects a template by vector search, then asks
for one placeholder value at a time, validates each value against the
placeholder's type, and finally substitutes the values into the template.

Every call to the language model, the embedding model or the vector store is an
input here: a search result, an `Option<string>` reply (`None` when the call
raised), or a decoded JSON reply. What remains is deterministic, and this
project models it:

- `Placeholders` (placeholders.dfy) is the placeholder codec. It has a
  hand-written scanner for the token pattern with a parse/unparse round trip,
  `Extract` (sorted, de-duplicated names), the single-pass substitution
  `Render` with its laws, the sequential per-key `FillPlaceholders` loop, the
  type table and the validator, and the parameter list text.
- `Sessions` (sessions.dfy) holds the `SessionState` record and the in-place
  `SessionStore` class with `create`, `get`, `save`, `end`, `list_ids` and
  `clear`.
- `Dialogue` (dialogue.dfy) is the fill-stage state machine of
  `handle_placeholder_reply`.
  - The pure `Step`/`ValueTurn`/`MetaTurn` functions give the reply, the done
    flag and the effect on the store.
  - The imperative `HandlePlaceholderReply`/`AcceptValue` methods are proved
    against them.
  - It also has the progress and listing texts, and the partition invariant:
    the template's names are split into the current placeholder, the queue and
    the filled keys.
- `Oracle` (oracle.dfy) is the post-processing in llm_utils.py: label
  membership, fallback assessments, history joining and substring precedence.
- `ManifestEngine` (manifest_engine.dfy) is the
  template selection flow and its older variant in manifest_flow.py. It covers
  the relevance gate, the initial fill-stage session and the greeting.
- `Router` (router.dfy) is the `/chat` endpoint of routes/chat.py. It
  dispatches on an unknown id, the session's stage and the classified intent.
- `LegacyChat` (legacy_chat.dfy) is the older endpoint of chat.py.
- `App` (app.dfy) is the plain-text endpoints of app.py: the session-opening
  part of `get_manifests` and the fill loop `reply_to_llm`, which has no meta
  requests.
- `Text`, `Order`, `Responses` and `Wrappers` are support modules. They hold
  `str.strip`, upper-casing, joining and splitting lines, lexicographic order,
  the response records and `Option`.

The legacy placeholder_engine.py behaves as the core engine does, over a
dictionary, so the same `Dialogue` members model both. The table cites
core/placeholder_engine.py; the corresponding lines of placeholder_engine.py
are:

- the missing session (`Dialogue.HandlePlaceholderReply`): lines 13-15;
- the meta requests (`Dialogue.StepMeta`): lines 23-42;
- the retry on an ill-typed value (`Dialogue.StepRejects`): lines 44-45;
- the advance to the next placeholder (`Dialogue.StepAdvances`): lines 48-60;
- the final render (`Dialogue.StepCompletes`): lines 62-64;
- the progress counts (`Dialogue.ProgressCounts`): lines 66-75;
- the listing (`Dialogue.ListTextLines`): lines 77-85.

## Model

| member | source | states |
|---|---|---|
| Order.SortedSet | core/placeholder_engine.py:25 | `sorted(set(xs))`: the result is strictly increasing and holds exactly the elements of the input |
| Order.SortedListingUnique | core/placeholder_engine.py:25 | two strictly increasing listings of the same set of names are equal, so the extraction result depends only on the set of token names |
| Placeholders.TokenAt | core/placeholder_engine.py:6 | a token recognised at the start of a text has a positive length within the text |
| Placeholders.TokenNameIsName | core/placeholder_engine.py:6 | the name captured by `\w+` is a non-empty run of word characters |
| Placeholders.ParseWellFormed | core/placeholder_engine.py:6 | every token the scanner produces spells a real `{{ $name }}` token whose captured name is a name |
| Placeholders.ParseRoundTrip | core/placeholder_engine.py:6 | scanning a text into literal characters and tokens loses nothing: unparsing the scan gives the text back |
| Placeholders.UnparseRoundTrip | core/placeholder_engine.py:6 | scanning the spelling of well-formed pieces with no literal `{` gives the same pieces back |
| Placeholders.Extract | core/placeholder_engine.py:23-25 | the result is strictly increasing (sorted and without duplicates), holds a name exactly when it is the name of some token in the text, and holds only names |
| Placeholders.ExtractExample | core/placeholder_engine.py:23-25 | tokens b, a, b extract to `["a", "b"]` |
| Placeholders.SortedSetExample | core/placeholder_engine.py:25 | `["b", "a", "b"]` sorts and de-duplicates to `["a", "b"]` |
| Placeholders.RenderEmpty | core/placeholder_engine.py:27-31 | substituting an empty map is the identity |
| Placeholders.RenderNames | core/placeholder_engine.py:27-31 | a token whose name is not a key is left untouched: the token names after substitution are the names before minus the keys |
| Placeholders.RenderComplete | core/placeholder_engine.py:27-31 | when the keys cover every token name, no token is left |
| Placeholders.RenderCompose | core/placeholder_engine.py:28-30 | substituting two disjoint maps one after the other is substituting their union |
| Placeholders.KeyTokenIsToken | core/placeholder_engine.py:29 | the per-key pattern built with `re.escape(key)` matches at a position exactly when a token with that name starts there, over the same span |
| Placeholders.SubKeyIsRender | core/placeholder_engine.py:29-30 | one `re.sub` pass for a key is the substitution of the one-entry map |
| Placeholders.SubKeyOwnToken | core/placeholder_engine.py:29-30 | at a token of the key, the pass and the one-entry substitution both emit the value and go on after the token |
| Placeholders.SubKeyOtherToken | core/placeholder_engine.py:29-30 | at a token of another name, the pass copies the token and goes on after it |
| Placeholders.SubKeyCopied | core/placeholder_engine.py:29-30 | a text that does not start with a token of the key and has no `{{` later is left unchanged by the pass |
| Placeholders.FillStep | core/placeholder_engine.py:28-30 | one more loop iteration, for a key not yet substituted, extends the substituted map by that key |
| Placeholders.FillPlaceholders | core/placeholder_engine.py:27-31 | an empty map leaves the text unchanged; when every key is a name, every `{` of the template opens a token and no value holds a `{`, the key-by-key loop equals the single-pass substitution |
| Placeholders.NestedTokenOrderMatters | core/placeholder_engine.py:28-30 | a substituted value can complete a token around it (`{{ ${{ $b }} }}` with b = `a`), so the loop's result depends on the key order |
| Placeholders.ExpectedTypeIsTableLookup | core/placeholder_engine.py:8-21 | the expected type is the table entry for the current placeholder, and `str` for a name not in the table or for no current placeholder |
| Placeholders.ValidatorRules | core/placeholder_engine.py:33-54 | `int` accepts exactly the non-empty all-digit stripped values; `url` exactly the stripped values starting with `http://` or `https://`; `str` exactly the non-empty stripped values with no inner whitespace that are not all digits; any other type accepts nothing |
| Placeholders.StrRule | core/placeholder_engine.py:42-54 | `str` accepts exactly the non-empty stripped values that have no whitespace inside and are not all digits |
| Placeholders.ValidTrimmed | core/placeholder_engine.py:34 | validating the stripped value gives the same verdict as validating the value |
| Placeholders.SpacedIsNotStr | core/placeholder_engine.py:42-54 | a stripped value with whitespace inside is never a valid `str` |
| Placeholders.ValidatorIgnoresPadding | core/placeholder_engine.py:34 | surrounding whitespace never changes the verdict |
| Placeholders.IntAndStrDisjoint | core/placeholder_engine.py:36-54 | no value is both a valid `int` and a valid `str` |
| Placeholders.HostNameIsStr | core/placeholder_engine.py:42-54 | `host1` is a valid `str` |
| Placeholders.NumberIsNotStr | core/placeholder_engine.py:42-54 | `42` is not a valid `str` |
| Placeholders.PhraseIsNotStr | core/placeholder_engine.py:42-54 | `multi word` is not a valid `str` |
| Placeholders.PortIsInt | core/placeholder_engine.py:36-40 | `8080` is a valid `int` and `80a` is not |
| Placeholders.FormatPlaceholderListLines | core/placeholder_engine.py:56-60 | for a non-empty list of single-line names the text reads as the header line, then one `- $name` line per name in order |
| Sessions.SessionStore.constructor | core/session_manager.py:28-29 | a new store is empty |
| Sessions.SessionStore.Create | core/session_manager.py:33-41 | a truthy reuse id is returned and stores the state there, overwriting; otherwise the state is stored under a new non-empty id not in the store, which is returned; nothing else changes |
| Sessions.FreshIdExists | core/session_manager.py:39 | there is always a non-empty id that is not in use |
| Sessions.SessionStore.Get | core/session_manager.py:46-47 | the stored state exactly when the id is present, else none; reads only |
| Sessions.SessionStore.Save | core/session_manager.py:49-50 | afterwards `get(id)` is the saved state and every other id reads as before |
| Sessions.SessionStore.End | core/session_manager.py:52-53 | removes that id only; ending a missing id changes nothing |
| Sessions.SessionStore.ListIds | core/session_manager.py:55-57 | exactly the stored ids, each once |
| Sessions.SessionStore.Clear | core/session_manager.py:59-61 | the store is empty afterwards |
| Oracle.IntentOf | llm_utils.py:40 | an intent is found exactly when the text is one of the intent labels, and it is that label's intent |
| Oracle.ClassifyIntent | llm_utils.py:36-45 | a failed call gives CHAT; otherwise the intent whose label is the stripped upper-cased reply, or CHAT when there is none |
| Oracle.LabelIsUpperAndTrimmed | llm_utils.py:38-40 | every label is its own stripped, upper-cased form |
| Oracle.ClassifyLabelRoundTrip | llm_utils.py:38-40 | a reply that is a label padded with whitespace classifies as that label's intent |
| Oracle.ClassifyIgnoresCase | llm_utils.py:38 | upper-casing the reply does not change the classification |
| Oracle.AssessSpecificity | llm_utils.py:71-93 | a failed or invalid reply gives the fallback assessment; a valid one is taken as is, with missing fields as `""` and `[]` |
| Oracle.AssessFallbackShape | llm_utils.py:85-93 | the fallback is not specific, has an empty rephrased query and exactly one follow-up question |
| Oracle.Kept | llm_utils.py:99 | the kept messages are stripped and non-empty, and there are no more of them than messages |
| Oracle.KeptEmptyIff | llm_utils.py:99 | nothing is kept exactly when every message strips to empty |
| Oracle.HistoryEmptyIff | llm_utils.py:99 | the joined history is empty exactly when every message strips to empty |
| Oracle.HistoryOfTwo | llm_utils.py:99 | two non-blank messages join as `a | b`, stripped |
| Oracle.RephraseHistory | llm_utils.py:110-115 | the result is stripped; a non-empty reply is taken stripped; an empty or failed one falls back to the last message stripped, or `""` with no messages |
| Oracle.DetectMetaIntent | llm_utils.py:132-145 | a label other than OTHER is returned only when the field is exactly that label, and whenever it is |
| Oracle.DetectMetaInScenarioMode | llm_utils.py:168-182 | HELP exactly when the upper-cased stripped reply contains `HELP`; CANCEL exactly when it contains `CANCEL` and not `HELP`; OTHER otherwise and on a failed call |
| Oracle.ScenarioMetaIgnoresCase | llm_utils.py:170 | upper-casing the reply does not change the verdict |
| Oracle.ScenarioHelpWins | llm_utils.py:173-176 | `cancel help` is HELP: the HELP test comes first |
| Dialogue.FreshPartition | core/manifest_engine.py:59-71 | the initial session, with the first sorted name current and the rest queued, is partitioned |
| Dialogue.NextPrompt | core/placeholder_engine.py:110-116 | when the question call fails, the prompt names the next placeholder |
| Dialogue.ProgressCounts | core/placeholder_engine.py:122-131 | in a partitioned session the total is the number of distinct names in the template, and total minus filled is the number of outstanding names, which the text lists |
| Dialogue.ListPlaceholdersText | core/placeholder_engine.py:133-141 | the loop builds the listing: the header, then one status line per extracted name in sorted order |
| Dialogue.ListTextLines | core/placeholder_engine.py:133-141 | with single-line values the listing reads as the header and then exactly one line per extracted name, in sorted order |
| Dialogue.ListMarksOutstanding | core/placeholder_engine.py:136-140 | in a partitioned session a listed name is marked filled exactly when it is not outstanding |
| Dialogue.MetaTurn | core/placeholder_engine.py:77-98 | a meta request never changes the session: the store keeps it, or a cancel removes it |
| Dialogue.HandlePlaceholderReply | core/placeholder_engine.py:62-120 | corrected (see Findings): a missing session gives the not-found text with done set and no change; otherwise the done flag and the new store are those of `Step`, and the reply is its wording |
| Dialogue.AcceptValue | core/placeholder_engine.py:100-120 | corrected (see Findings): the done flag, the new store and the reply are those of `ValueTurn` |
| Dialogue.RecordValue | core/placeholder_engine.py:103-120 | corrected (see Findings): a valid value gives the done flag, the new store and the reply of `ValueTurn` |
| Dialogue.AdvanceValue | core/placeholder_engine.py:103-116 | with names still queued, a valid value is saved with the queue's head current, not done, and the reply asks for that name |
| Dialogue.FinishValue | core/placeholder_engine.py:103-120 | corrected (see Findings): a valid value for the last name is saved, the turn is done, and the reply is the rendered template |
| Dialogue.DoneText | core/placeholder_engine.py:118-120 | the final reply starts with the done header, and is the header plus the single-pass substitution whenever the key-by-key loop is single-pass |
| Dialogue.StepDone | core/placeholder_engine.py:77-120 | done is raised exactly by a cancel, or by a valid value when nothing is queued |
| Dialogue.StepMeta | core/placeholder_engine.py:77-98 | a meta request leaves `filled` and the queue alone; only a cancel removes the session, and the turn is then done |
| Dialogue.StepRejects | core/placeholder_engine.py:100-101 | an ill-typed value gives a retry naming the current placeholder, not done, with no change |
| Dialogue.StepAdvances | core/placeholder_engine.py:103-116 | a valid value is stored under the current name, the head of the queue becomes current, the queue loses its head, and the next placeholder is asked for |
| Dialogue.StepPreservesPartition | core/placeholder_engine.py:100-116 | every turn that is not done and keeps the session keeps the current/queue/filled partition of the template's names |
| Dialogue.AdvancePartition | core/placeholder_engine.py:104-108 | recording a value and popping the queue keeps the partition |
| Dialogue.HeadAndRest | core/placeholder_engine.py:106-108 | popping the head of a duplicate-free queue leaves a duplicate-free queue without that name, and the names split into the head and the rest |
| Dialogue.StepCompletes | core/placeholder_engine.py:118-120 | a valid value with nothing queued gives done and the header plus the substituted template; the session is kept, with its current placeholder unchanged |
| Dialogue.LastValueCompletes | core/placeholder_engine.py:118-120 | at that point every name of the template has a value |
| Dialogue.PlaceholderFreeSessionCompletes | core/placeholder_engine.py:103-120 | a session for a template without placeholders completes on any valid `str`, rendering the template unchanged; as written it records under no name and the substitution fails |
| ManifestEngine.RelevantIffClose | core/manifest_engine.py:50-51 | the gate `1 - raw_score < 0.4` rejects exactly the hits farther than distance 0.6 |
| ManifestEngine.Selected | core/manifest_engine.py:16-58 | a hit goes on exactly when the search succeeded, returned a result, and its first result passes the gate, and then it is that result |
| ManifestEngine.InitialState | core/manifest_engine.py:59-71 | mode MANIFEST, the template text kept, nothing filled, the outstanding names are the extracted names in order, and the session is partitioned |
| ManifestEngine.InitialStateWithoutPlaceholders | core/manifest_engine.py:60-67 | a template without placeholders gives no current placeholder and an empty queue |
| ManifestEngine.Greeting | core/manifest_engine.py:91-96 | corrected (see Findings): the greeting is the non-empty stripped model reply, or a prompt that names the first placeholder |
| ManifestEngine.EmptyGreetingIgnoresPlaceholder | core/manifest_engine.py:93 | as written, the empty-reply greeting is the same text whatever the first placeholder is; the corrected one names it |
| ManifestEngine.StartManifestFlow | core/manifest_engine.py:12-106 | corrected (see Findings): on a search failure, no result or an irrelevant one, the reply carries the reuse id and nothing changes; otherwise the file text (or the indexed text) becomes a fill session stored with `create(state, reuse)` before the greeting, the reply carries that id, and it is the no-parameters reply or the greeting |
| ManifestEngine.StartManifestFlowLegacy | manifest_flow.py:13-112 | corrected (see Findings): as above with the indexed text and its own no-parameters reply, except that a failing greeting call raises before anything is stored |
| Router.FollowupLines | routes/chat.py:93 | one `- question` bullet per follow-up question, in order |
| Router.ClarifyTextLines | routes/chat.py:157-174 | a clarification of single-line questions reads as the title line and then one bullet line per question |
| Router.FallbackClarification | routes/chat.py:92-101 | with the fallback assessment both clarification replies carry exactly the one fallback question |
| Router.ScenarioQuery | routes/chat.py:103 | the search query is the assessed rephrasing when there is one, else the stripped history rephrasing; it is empty only when both are |
| Router.SmallTalk | routes/chat.py:192-204 | the free-chat reply is never empty: the stripped model reply, or the fixed greeting |
| Router.FlowKeepsInvariant | core/manifest_engine.py:64-72 | the selection flow only stores partitioned fill sessions |
| Router.FlowReusesId | core/manifest_engine.py:72 | a flow given an existing id keeps it: the reply carries it, no id is added or lost, and the session there becomes a fresh partitioned fill session |
| Router.FillIdIffKept | routes/chat.py:107-119 | in the fill stage the reply carries an id exactly when the session is still stored, and then it is the same id |
| Router.ScenarioGoesToFlow | routes/chat.py:75-105 | a plain, specific clarification message is appended and the flow runs on the updated store with the same id to reuse |
| Router.ScenarioHandsOver | routes/chat.py:103-105 | when a template is selected, the clarification session turns into a partitioned fill session under the same id, with no id added or lost |
| Router.ChatTurn | routes/chat.py:18-204 | corrected (see Findings): an unknown id restarts once with no id and the restart notice prefixed; a known one dispatches on its stage (clarification, fill, or unknown stage, which changes nothing); with no id the new-conversation branch runs; the store keeps every fill session partitioned |
| Router.ScenarioTurn | routes/chat.py:36-105 | corrected (see Findings): help keeps the session and id; cancel ends it and drops the id; gibberish asks again without appending; otherwise the message is appended and saved; a not-specific verdict asks for details under the same id; a specific one hands over to the flow with that id |
| Router.AssessTurn | routes/chat.py:77-105 | corrected (see Findings): after the appended session is saved: a not-specific verdict asks for more details under the same id and changes nothing more; a specific one runs the selection flow with the query and that id |
| Router.FillTurn | routes/chat.py:107-119 | corrected (see Findings): the turn of the engine; when it is done the session is ended and the reply has no id, otherwise the id is kept |
| Router.NewConversation | routes/chat.py:127-204 | corrected (see Findings): an under-specified request opens a clarification session `[message]` under a new id; a specific one starts the flow with no reuse id; help and chat store nothing |
| LegacyChat.LegacyFlowKeepsInvariant | manifest_flow.py:94-112 | the older flow only stores partitioned fill sessions |
| LegacyChat.LegacyChatTurn | chat.py:16-123 | corrected (see Findings): an unknown id gives the fixed not-found reply with no restart and no change; a fill session delegates to the engine and pops the session when done; a session of unknown stage changes nothing |
| LegacyChat.LegacyScenarioTurn | chat.py:31-48 | corrected (see Findings): the message is always appended; a not-specific verdict asks for details under the same id; a specific one runs the older flow with that id |
| LegacyChat.LegacyNewConversation | chat.py:69-123 | corrected (see Findings): an under-specified request opens a clarification session under a new id; a specific one runs the older flow; help and chat store nothing |
| App.AppSession | app.py:163-169 | the session has no mode, the template and its source, the first name current, the rest queued, nothing filled, and is partitioned |
| App.SessionBanner | app.py:172-179 | the reply text contains the session id |
| App.GetManifests | app.py:93-179 | a search failure is a 500 and a poor match a 404, with no change; an empty result, a template without placeholders or a failing greeting call raises; otherwise a session is stored under a new id, which the reply and its header carry |
| App.DoneReply | app.py:233 | corrected: the final reply is the header followed by exactly the manifest |
| App.DoneReplyStrayPlus | app.py:233 | as written, the text after the header is ` + ` and then the manifest, never the manifest alone |
| App.DoneReplyIsEngineReply | app.py:224-236 | the corrected final reply of app.py is the final reply of the fill engine |
| App.ReplyToLlm | app.py:183-236 | an unknown session gives the not-found text with no change; otherwise the stripped message is a value turn of the engine without meta requests |
| App.AcceptAppValue | app.py:197-236 | an ill-typed value gives the retry text with no change; a valid one is recorded and the queue popped before the unguarded question call; the last value renders the template and deletes the session |
| App.AdvanceAppValue | app.py:207-223 | a valid value with names queued is recorded and the next name made current before the unguarded question call, which answers or raises |
| App.FinishAppValue | app.py:207-236 | a valid value for the last name deletes the session and answers 200 with the corrected final reply |

## Left out

- The language model, embedding and vector-store calls. Their results are
  inputs: `Search` values, `Option<string>` replies with `None` for a raised
  call, decoded JSON replies, and the file text read by
  core/manifest_engine.py:42-48. The prompts sent to them are not modelled,
  except the message history that llm_utils.py:99 joins into the rephrasing
  prompt (`Oracle.History`).
- `llm_detect_gibberish`, called by routes/chat.py:66, is defined nowhere in
  the repository. Its verdict is a boolean input.
- The similarity gate uses `real` arithmetic, not IEEE floating point.
- `\w`, `isdigit` and `upper` are ASCII-only. Whitespace (`\s`, `isspace`,
  `strip`, `split`) is Python's full list of whitespace characters.
- Placeholders.FillPlaceholders: its result equals the single-pass
  substitution only under `Dialogue.Clean`, that is every key a name, every `{`
  of the template inside a token, and no `{` in a value. Otherwise a value can
  form a new token with its surroundings (`Placeholders.NestedTokenOrderMatters`),
  and the result is not characterised. `re.sub` backslash escapes in values
  are not modelled: values are substituted literally.
- Dialogue.HandlePlaceholderReply, Dialogue.AcceptValue, Router.FillTurn,
  Router.ChatTurn, LegacyChat.LegacyChatTurn, App.ReplyToLlm and
  App.AcceptAppValue: the final rendered text is stated exactly only under
  `Dialogue.Clean`, for the reason above. Every other reply, the done flag and
  the store are stated in full.
- Dialogue.RecordValue, Dialogue.FinishValue, Dialogue.DoneText and
  App.FinishAppValue: the same holds for these parts of the value turn.
- Dialogue.HandlePlaceholderReply: requires that a stored session holds its
  template text. Every flow that stores a fill session guarantees this. The
  routers require it through their store invariants (`Router.StoreInvariant`,
  `App.AppInvariant`), which every writer of the store keeps.
- Fresh ids: `uuid4` is modelled as the choice of a non-empty id not in the
  store, so collisions are ignored. routes/chat.py:161 passes a new uuid as the
  reuse id; this is modelled as a fresh id.
- In-place mutation and aliasing: appending to a stored session's messages, or
  updating its fields, is modelled as saving the updated value.
- The `except` branches at routes/chat.py:83, :129 and :143, around the
  classifier, rephrasing and assessment calls, are unreachable. The helpers in
  llm_utils.py catch every exception themselves, so those branches are not
  modelled. This includes the "appended but no id" path. The `except` around
  the small-talk call (chat.py:116, routes/chat.py:195) is reachable and is
  modelled: a failed call is `Router.SmallTalk(None)`.
- The engine's "command not recognised" return after the meta branches is
  unreachable, because the meta labels are exhausted.
- The branch at app.py:149 for a falsy model response is unreachable: a
  response object is always truthy.
- Router.ScenarioTurn: a cancel in the clarification stage is modelled as
  returning the cancel reply with intent CANCEL (routes/chat.py:55-61), after
  the session is ended. The response record at models.py:23 admits only
  GET_MANIFESTS, HELP and CHAT, so building that reply would fail validation
  and raise once the session is already gone. The model does not capture this
  failure; `Router.ChatTurn` inherits the difference.
- `Intent` is not defined in models.py, which routes/chat.py imports it from.
  It is modelled as the enumeration GET_MANIFESTS, HELP, CHAT, CANCEL, since
  routes/chat.py:57 uses CANCEL. `suggested_payload` is always `None` and is
  omitted from `ChatResponse`. The unused `docs_texts` field of `SessionState`
  is omitted.
- Two cross-file mismatches are resolved to their evident intent:
  - chat.py hands its plain dictionary to `handle_placeholder_reply` and to the
    flow of manifest_flow.py, which call `SessionStore` methods on it. Every
    legacy store is modelled by `Sessions.SessionStore`.
  - app.py and placeholder_engine.py import the codec from
    placeholder_utils.py, which does not define it. They are modelled with the
    codec of core/placeholder_engine.py.
- HTTP plumbing is left out: request parsing, `PlainTextResponse` beyond its
  content, status and the two headers, and the other routes (routes/get_manifests.py,
  routes/reset_session.py, routes/classify.py, routes/admin.py,
  routes/health.py).
- Concurrency is left out: turns are sequential. Logging is left out.
- placeholder_utils.py, main.py, documents.py, data/documents.py and
  routes/core/config.py are not part of this model.

## Findings

| source | as written | input that shows it | evidently intended | confidence | as-written member | corrected member |
|---|---|---|---|---|---|---|
| core/placeholder_engine.py:103-120 | a fill session for a template without placeholders has no current placeholder. A valid reply is stored under the key `None`, and `fill_placeholders` then calls `re.escape(None)`, which raises | a template with no tokens, selected by the flow, then the reply `host1` | nothing needs filling, so the template is returned unchanged | not executed | Dialogue.CompleteAsWritten | Dialogue.PlaceholderFreeSessionCompletes |
| core/manifest_engine.py:93 | the f-string's doubled braces print the literal `{{first_placeholder}}` instead of the placeholder's name | an empty model reply with first placeholder `serverPort` | a prompt naming `serverPort`, as the fallback at line 96 does | not executed | ManifestEngine.EmptyGreetingIgnoresPlaceholder | ManifestEngine.Greeting |
| manifest_flow.py:92 | the same f-string as core/manifest_engine.py:93: an empty model reply gives the literal `{{first_placeholder}}` instead of the placeholder's name | an empty model reply with first placeholder `serverPort` | a prompt naming `serverPort` | not executed | ManifestEngine.EmptyGreetingIgnoresPlaceholder | ManifestEngine.Greeting |
| app.py:233 | the final reply has a stray ` + ` inside the string literal, between the header and the manifest | any completed session, e.g. manifest `a: 1` gives `...:\n\n + a: 1` | the header followed by the manifest, as the core engine answers | not executed | App.DoneReplyStrayPlus | App.DoneReply |

In each case the rest of the model uses the corrected behaviour. `Dialogue.Record`
records nothing when no placeholder is current. `ManifestEngine.Greeting`
names the placeholder, in both selection flows. `App.DoneReply` drops the stray text.
`App.DoneReplyIsEngineReply` proves that the corrected app.py reply agrees with
the engine's.
