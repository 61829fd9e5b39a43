/** The fill stage of core/placeholder_engine.py: `handle_placeholder_reply`,
    `progress_text` and `list_placeholders_text`. placeholder_engine.py runs the
    same machine over dictionaries and is covered by the same members.

    A turn is specified by the pure function `Step` and carried out in place by
    the method `HandlePlaceholderReply`. The invariant the turns keep is
    `Partitioned`: the template's placeholder names are split, without overlap,
    into those with a value, the one being asked for, and the queue. */
module Dialogue {
  import opened Wrappers
  import opened Text
  import opened Placeholders
  import opened Sessions
  import opened Oracle

  const NotFoundText: string := "Сессия не найдена. Начните новую сессию."
  const FillHelpText: string :=
    "Вы на этапе заполнения YAML-манифеста.\n"
    + "- Введите значение текущего плейсхолдера.\n"
    + "- Или напишите 'отмена' для выхода.\n"
    + "- Или напишите 'список' для просмотра всех плейсхолдеров.\n"
    + "- Или напишите 'сколько осталось' для просмотра количества оставшихся плейсхолдеров.\n"
  const CancelText: string := "Отменяю процесс. Вы можете начать заново"
  const DoneHeader: string := "Все значения заполнены! Итоговые манифесты:\n\n"
  const ListTitle: string := "Список всех плейсхолдеров:"
  const AllFilledText: string := "Все заполнены!"
  /** The indentation the triple-quoted progress text carries on its later lines. */
  const ProgressIndent: string := "           "

  predicate NoDup(xs: seq<string>) {
    forall i, j :: 0 <= i < j < |xs| ==> xs[i] != xs[j]
  }

  /** The names still to be asked for: the current one, then the queue. */
  function Outstanding(s: SessionState): seq<string> {
    (if s.current.Some? then [s.current.value] else []) + s.remaining
  }

  /** The partition invariant of a fill-stage session. */
  predicate Partitioned(s: SessionState) {
    && s.originalDocText.Some?
    && (s.current.None? ==> s.remaining == [])
    && NoDup(Outstanding(s))
    && (forall n :: n in Outstanding(s) ==> n !in s.filled)
    && NameSet(s.originalDocText.value) == s.filled.Keys + (set n | n in Outstanding(s))
  }

  /** The partition of a template whose values are all still missing: the first
      name is asked for, the others queue in order. */
  lemma FreshPartition(doc: string, source: Option<string>, names: seq<string>)
    requires names == Extract(doc)
    ensures Partitioned(SessionState(Manifest, [], source, Some(doc), if names == [] then [] else names[1..],
                                     map[], if names == [] then None else Some(names[0])))
  {
    var s := SessionState(Manifest, [], source, Some(doc), if names == [] then [] else names[1..],
                          map[], if names == [] then None else Some(names[0]));
    assert Outstanding(s) == names;
    assert NoDup(names) by {
      forall i, j | 0 <= i < j < |names| ensures names[i] != names[j] {
        SortedDistinct(names, i, j);
      }
    }
  }

  lemma {:induction false} SortedDistinct(xs: seq<string>, i: nat, j: nat)
    requires Order.StrictlySorted(xs) && i < j < |xs|
    ensures xs[i] != xs[j]
  {
    Order.LessIrreflexive(xs[i]);
  }

  /** Python's `str()` of an optional placeholder name. */
  function NameText(current: Option<string>): string {
    match current
    case Some(n) => n
    case None => "None"
  }

  /** The reply to a value of the wrong type. */
  function RetryText(current: Option<string>): string {
    "`{{ $" + NameText(current) + " }}` ожидает тип `" + ExpectedType(current) + "`. Попробуйте снова:"
  }

  /** The question for the next placeholder: the model's stripped reply, or a
      fixed prompt naming the placeholder when the call raised. */
  function NextPrompt(next: string, reply: Option<string>): (r: string)
    ensures reply.None? ==> Contains(r, next)
  {
    match reply
    case Some(c) => Trim(c)
    case None =>
      ContainsMiddle("Введите значение для ${", next, "}:");
      "Введите значение для ${" + next + "}:"
  }

  /** Python truthiness of the current placeholder counts it as outstanding. */
  function Total(s: SessionState): nat {
    |s.filled| + |s.remaining| + (if Truthy(s.current) then 1 else 0)
  }

  /** The last part of the progress text: the outstanding names, or a note that
      none are left. */
  function OutstandingText(s: SessionState): string {
    if Truthy(s.current) then Join([s.current.value] + s.remaining, ", ")
    else if Join(s.remaining, ", ") != "" then Join(s.remaining, ", ")
    else AllFilledText
  }

  /** `progress_text`. */
  function ProgressText(s: SessionState): string {
    "Вы заполнили " + NatToString(|s.filled|) + " из " + NatToString(Total(s)) + " полей.\n"
    + ProgressIndent + "Осталось " + NatToString(Total(s) - |s.filled|) + "\n"
    + ProgressIndent + "Текущие плейсхолдеры: " + OutstandingText(s)
  }

  lemma {:induction false} NoDupCard(xs: seq<string>)
    requires NoDup(xs)
    ensures |set n | n in xs| == |xs|
    decreases |xs|
  {
    if xs != [] {
      assert NoDup(xs[1..]) by {
        forall i, j | 0 <= i < j < |xs[1..]| ensures xs[1..][i] != xs[1..][j] {
          assert xs[1..][i] == xs[i + 1] && xs[1..][j] == xs[j + 1];
        }
      }
      NoDupCard(xs[1..]);
      assert (set n | n in xs) == {xs[0]} + (set n | n in xs[1..]);
      assert xs[0] !in (set n | n in xs[1..]);
    }
  }

  lemma NamesNonEmpty(s: SessionState)
    requires Partitioned(s)
    ensures forall n :: n in Outstanding(s) ==> n != ""
    ensures forall n :: n in s.filled ==> IsName(n)
  {
    var doc := s.originalDocText.value;
    forall n | n in Outstanding(s) || n in s.filled ensures IsName(n) {
      assert n in NameSet(doc);
      assert n in Extract(doc);
    }
  }

  /** For a partitioned session the progress totals count the template's
      distinct placeholders, the outstanding count is the number still to be
      asked for, and the list part names exactly those, current first. */
  lemma ProgressCounts(s: SessionState)
    requires Partitioned(s)
    ensures Total(s) == |NameSet(s.originalDocText.value)|
    ensures Total(s) - |s.filled| == |Outstanding(s)|
    ensures OutstandingText(s) == if Outstanding(s) == [] then AllFilledText else Join(Outstanding(s), ", ")
  {
    NamesNonEmpty(s);
    var out := Outstanding(s);
    NoDupCard(out);
    assert s.filled.Keys !! (set n | n in out);
    assert |s.filled| == |s.filled.Keys|;
    if s.current.Some? {
      assert s.current.value in out;
    }
    assert Truthy(s.current) <==> s.current.Some?;
    if !Truthy(s.current) {
      assert out == [];
    }
  }

  /** One status line of `list_placeholders_text`. */
  function StatusLine(name: string, filled: map<string, string>): string {
    if name in filled then "- " + name + " заполнен " + filled[name] else "- " + name + " не заполнен"
  }

  function StatusLines(names: seq<string>, filled: map<string, string>): (r: seq<string>)
    ensures |r| == |names|
  {
    seq(|names|, i requires 0 <= i < |names| => StatusLine(names[i], filled))
  }

  /** The text `list_placeholders_text` returns: a title line, then one status
      line per extracted name. */
  function ListText(doc: string, filled: map<string, string>): string {
    ListTitle + "\n" + Join(StatusLines(Extract(doc), filled), "\n")
  }

  /** `list_placeholders_text`: builds the status lines one by one. */
  method ListPlaceholdersText(s: SessionState) returns (r: string)
    requires s.originalDocText.Some?
    ensures r == ListText(s.originalDocText.value, s.filled)
  {
    var placeholders := Extract(s.originalDocText.value);
    var statusLines: seq<string> := [];
    for i := 0 to |placeholders|
      invariant statusLines == StatusLines(placeholders[..i], s.filled)
    {
      var line: string;
      if placeholders[i] in s.filled {
        line := "- " + placeholders[i] + " заполнен " + s.filled[placeholders[i]];
      } else {
        line := "- " + placeholders[i] + " не заполнен";
      }
      assert StatusLines(placeholders[..i + 1], s.filled) == StatusLines(placeholders[..i], s.filled) + [line];
      statusLines := statusLines + [line];
    }
    assert placeholders[..|placeholders|] == placeholders;
    r := ListTitle + "\n" + Join(statusLines, "\n");
  }

  lemma StatusLineNoNewline(name: string, filled: map<string, string>)
    requires IsName(name)
    requires name in filled ==> '\n' !in filled[name]
    ensures '\n' !in StatusLine(name, filled)
  {
    var a := " заполнен ";
    var b := " не заполнен";
    assert forall i :: 0 <= i < |a| ==> a[i] != '\n';
    assert forall i :: 0 <= i < |b| ==> b[i] != '\n';
  }

  /** When no value holds a newline, the list reads as the title and then one
      line per placeholder in sorted order, saying for each whether it has a
      value and, if so, which. */
  lemma ListTextLines(s: SessionState)
    requires s.originalDocText.Some?
    requires forall k :: k in s.filled ==> '\n' !in s.filled[k]
    ensures var names := Extract(s.originalDocText.value);
            names != [] ==> SplitLines(ListText(s.originalDocText.value, s.filled)) == [ListTitle] + StatusLines(names, s.filled)
  {
    var names := Extract(s.originalDocText.value);
    var lines := [ListTitle] + StatusLines(names, s.filled);
    assert forall i :: 0 <= i < |ListTitle| ==> ListTitle[i] != '\n';
    forall i | 0 <= i < |lines| ensures '\n' !in lines[i] {
      if i > 0 {
        assert names[i - 1] in names;
        StatusLineNoNewline(names[i - 1], s.filled);
      }
    }
    if names != [] {
      SplitJoinLines(lines);
      assert Join(lines, "\n") == ListTitle + "\n" + Join(StatusLines(names, s.filled), "\n");
    }
  }

  /** For a partitioned session a listed name is marked as filled exactly when it
      is not outstanding. */
  lemma ListMarksOutstanding(s: SessionState)
    requires Partitioned(s)
    ensures forall n :: n in Extract(s.originalDocText.value) ==>
              (n in s.filled <==> n !in Outstanding(s))
    ensures forall n :: n in Outstanding(s) ==> n in Extract(s.originalDocText.value)
  {
    var doc := s.originalDocText.value;
    forall n | n in Outstanding(s) ensures n in Extract(doc) {
      assert n in NameSet(doc);
    }
    forall n | n in Extract(doc) ensures n in s.filled <==> n !in Outstanding(s) {
      assert n in NameSet(doc);
    }
  }

  /** What a turn does to the stored session. */
  datatype Effect = Keep | Update(state: SessionState) | Remove

  /** The message a turn answers with; `Spell` gives its wording. */
  datatype Reply =
    | NotFound
    | Progress(session: SessionState)
    | Listing(doc: string, filled: map<string, string>)
    | FillHelp
    | Cancelled
    | Retry(current: Option<string>)
    | Ask(next: string, modelReply: Option<string>)
    | Rendered(doc: string, values: map<string, string>)

  function Spell(r: Reply): string {
    match r
    case NotFound => NotFoundText
    case Progress(s) => ProgressText(s)
    case Listing(doc, filled) => ListText(doc, filled)
    case FillHelp => FillHelpText
    case Cancelled => CancelText
    case Retry(current) => RetryText(current)
    case Ask(next, modelReply) => NextPrompt(next, modelReply)
    case Rendered(doc, values) => DoneHeader + Render(doc, values)
  }

  lemma SpellRendered(doc: string, values: map<string, string>)
    ensures Spell(Rendered(doc, values)) == DoneHeader + Render(doc, values)
  {
  }

  /** The `(reply_text, done)` pair, with the reply as a message, together with
      the turn's effect on the store. */
  datatype Turn = Turn(reply: Reply, done: bool, effect: Effect)

  function Apply(mem: map<string, SessionState>, sid: string, e: Effect): map<string, SessionState> {
    match e
    case Keep => mem
    case Update(st) => mem[sid := st]
    case Remove => mem - {sid}
  }

  /** Recording a value for the current placeholder; with no current placeholder
      nothing is recorded. */
  function Record(s: SessionState, value: string): map<string, string> {
    if s.current.Some? then s.filled[s.current.value := value] else s.filled
  }

  /** The answer to a meta request: progress, the list and help leave the
      session as it is; a cancel ends it. */
  function MetaTurn(s: SessionState, meta: MetaIntent): (t: Turn)
    requires s.originalDocText.Some? && meta != Other
    ensures t.effect == Keep || t.effect == Remove
  {
    match meta
    case HowManyLeft => Turn(Progress(s), false, Keep)
    case ListPlaceholders => Turn(Listing(s.originalDocText.value, s.filled), false, Keep)
    case Help => Turn(FillHelp, false, Keep)
    case Cancel => Turn(Cancelled, true, Remove)
  }

  /** The answer to a stripped value: a retry when it does not have the expected
      type; otherwise it is recorded and the next placeholder is asked for, or,
      when none is queued, the template is rendered. */
  function ValueTurn(s: SessionState, value: string, nextReply: Option<string>): Turn
    requires s.originalDocText.Some?
  {
    if !IsPlaceholderValid(value, ExpectedType(s.current)) then
      Turn(Retry(s.current), false, Keep)
    else if s.remaining != [] then
      var next := s.remaining[0];
      Turn(Ask(next, nextReply), false,
           Update(s.(filled := Record(s, value), current := Some(next), remaining := s.remaining[1..])))
    else
      var filled := Record(s, value);
      Turn(Rendered(s.originalDocText.value, filled), true, Update(s.(filled := filled)))
  }

  /** One fill-stage turn for session `s`: `input` is the user's message, `meta`
      the meta classifier's verdict and `nextReply` the model's reply to the
      question about the next placeholder. */
  function Step(s: SessionState, input: string, meta: MetaIntent, nextReply: Option<string>): Turn
    requires s.originalDocText.Some?
  {
    if meta == Other then ValueTurn(s, Trim(input), nextReply) else MetaTurn(s, meta)
  }

  /** The conditions under which `fill_placeholders` is the single-pass
      substitution `Render`. */
  predicate Clean(doc: string, values: map<string, string>) {
    (forall k :: k in values ==> IsName(k)) && BracesOnlyInTokens(doc) && BraceFree(values)
  }

  /** `handle_placeholder_reply`: looks the session up, consults the meta
      classifier, and either answers the meta request or hands the stripped
      value to `AcceptValue`. The turn is the one `Step` describes, and the reply
      is its wording; for the final text this holds whenever substitution is
      single-pass. */
  method HandlePlaceholderReply(store: SessionStore, sid: string, userInput: string,
                                metaField: Option<string>, nextReply: Option<string>)
    returns (reply: string, done: bool)
    modifies store
    requires sid in store.mem ==> store.mem[sid].originalDocText.Some?
    ensures sid !in old(store.mem) ==> reply == Spell(NotFound) && done && store.mem == old(store.mem)
    ensures sid in old(store.mem) ==>
              var t := Step(old(store.mem[sid]), userInput, DetectMetaIntent(metaField), nextReply);
              && done == t.done
              && store.mem == Apply(old(store.mem), sid, t.effect)
              && (reply == Spell(t.reply) || (t.reply.Rendered? && !Clean(t.reply.doc, t.reply.values)))
  {
    var found := store.Get(sid);
    if found.None? {
      return Spell(NotFound), true;
    }
    var session := found.value;
    var value := Trim(userInput);
    var intent := DetectMetaIntent(metaField);
    if intent == HowManyLeft {
      return Spell(Progress(session)), false;
    }
    if intent == ListPlaceholders {
      reply := ListPlaceholdersText(session);
      return reply, false;
    }
    if intent == MetaIntent.Help {
      return Spell(FillHelp), false;
    }
    if intent == MetaIntent.Cancel {
      store.End(sid);
      return Spell(Cancelled), true;
    }
    reply, done := AcceptValue(store, sid, session, value, nextReply);
  }

  /** The value part of `handle_placeholder_reply`: validates the stripped value
      against the current placeholder's type, records it, and either saves the
      session advanced to the next placeholder or saves it complete and renders
      the template. */
  method AcceptValue(store: SessionStore, sid: string, session: SessionState, value: string,
                     nextReply: Option<string>)
    returns (reply: string, done: bool)
    modifies store
    requires session.originalDocText.Some?
    ensures var t := ValueTurn(session, value, nextReply);
            && done == t.done
            && store.mem == Apply(old(store.mem), sid, t.effect)
            && (reply == Spell(t.reply) || (t.reply.Rendered? && !Clean(t.reply.doc, t.reply.values)))
  {
    var expectedType := ExpectedType(session.current);
    if !IsPlaceholderValid(value, expectedType) {
      return Spell(Retry(session.current)), false;
    }
    reply, done := RecordValue(store, sid, session, value, nextReply);
  }

  /** The part of `AcceptValue` after the value passed validation. */
  method RecordValue(store: SessionStore, sid: string, session: SessionState, value: string,
                     nextReply: Option<string>)
    returns (reply: string, done: bool)
    modifies store
    requires session.originalDocText.Some?
    requires IsPlaceholderValid(value, ExpectedType(session.current))
    ensures var t := ValueTurn(session, value, nextReply);
            && done == t.done
            && store.mem == Apply(old(store.mem), sid, t.effect)
            && (reply == Spell(t.reply) || (t.reply.Rendered? && !Clean(t.reply.doc, t.reply.values)))
  {
    if session.remaining != [] {
      reply, done := AdvanceValue(store, sid, session, value, nextReply);
    } else {
      reply, done := FinishValue(store, sid, session, value, nextReply);
    }
  }

  /** A valid value with placeholders still queued: the next one becomes current. */
  method AdvanceValue(store: SessionStore, sid: string, session: SessionState, value: string,
                      nextReply: Option<string>)
    returns (reply: string, done: bool)
    modifies store
    requires session.originalDocText.Some? && session.remaining != []
    requires IsPlaceholderValid(value, ExpectedType(session.current))
    ensures var t := ValueTurn(session, value, nextReply);
            && done == t.done
            && store.mem == Apply(old(store.mem), sid, t.effect)
            && reply == Spell(t.reply)
  {
    var next := session.remaining[0];
    var updated := session.(filled := Record(session, value), current := Some(next),
                            remaining := session.remaining[1..]);
    assert ValueTurn(session, value, nextReply) == Turn(Ask(next, nextReply), false, Update(updated));
    store.Save(sid, updated);
    return Spell(Ask(next, nextReply)), false;
  }

  /** A valid value for the last placeholder: the template is rendered. */
  method FinishValue(store: SessionStore, sid: string, session: SessionState, value: string,
                     nextReply: Option<string>)
    returns (reply: string, done: bool)
    modifies store
    requires session.originalDocText.Some? && session.remaining == []
    requires IsPlaceholderValid(value, ExpectedType(session.current))
    ensures var t := ValueTurn(session, value, nextReply);
            && done == t.done
            && store.mem == Apply(old(store.mem), sid, t.effect)
            && (reply == Spell(t.reply) || (t.reply.Rendered? && !Clean(t.reply.doc, t.reply.values)))
  {
    var updated := session.(filled := Record(session, value));
    assert ValueTurn(session, value, nextReply)
        == Turn(Rendered(updated.originalDocText.value, updated.filled), true, Update(updated));
    store.Save(sid, updated);
    reply := DoneText(updated.originalDocText.value, updated.filled);
    done := true;
  }

  /** The final reply: the header, then the template with the values filled in
      by the key-by-key loop; it is the final message of `Step` whenever that
      loop is single-pass. */
  method DoneText(doc: string, values: map<string, string>) returns (r: string)
    ensures |r| >= |DoneHeader| && r[..|DoneHeader|] == DoneHeader
    ensures Clean(doc, values) ==> r == Spell(Rendered(doc, values))
  {
    var rendered := FillPlaceholders(doc, values);
    SpellRendered(doc, values);
    r := DoneHeader + rendered;
  }

  /** The done flag is raised by a cancel or by a valid value for the last
      placeholder, and by nothing else. */
  lemma StepDone(s: SessionState, input: string, meta: MetaIntent, nextReply: Option<string>)
    requires s.originalDocText.Some?
    ensures Step(s, input, meta, nextReply).done <==>
              meta == Cancel
              || (meta == Other && IsPlaceholderValid(input, ExpectedType(s.current)) && s.remaining == [])
  {
    if meta == Other {
      ValidTrimmed(input, ExpectedType(s.current));
    }
  }

  /** Help, list and progress requests answer without touching the session;
      only a cancel removes it. */
  lemma StepMeta(s: SessionState, input: string, meta: MetaIntent, nextReply: Option<string>)
    requires s.originalDocText.Some? && meta != Other
    ensures var t := Step(s, input, meta, nextReply);
            (t.effect == Keep && !t.done) || (meta == Cancel && t.effect == Remove && t.done)
    ensures Step(s, input, meta, nextReply).effect == Remove <==> meta == Cancel
  {
  }

  /** A value of the wrong type is answered with the retry text and changes nothing. */
  lemma StepRejects(s: SessionState, input: string, nextReply: Option<string>)
    requires s.originalDocText.Some?
    requires !IsPlaceholderValid(input, ExpectedType(s.current))
    ensures Step(s, input, Other, nextReply) == Turn(Retry(s.current), false, Keep)
  {
    ValidTrimmed(input, ExpectedType(s.current));
  }

  /** A valid value for a placeholder that is not the last one is recorded under
      the current name, the queue's head becomes current, and one name fewer is
      outstanding. */
  lemma StepAdvances(s: SessionState, input: string, nextReply: Option<string>)
    requires Partitioned(s)
    requires IsPlaceholderValid(input, ExpectedType(s.current)) && s.remaining != []
    ensures var t := Step(s, input, Other, nextReply);
            && !t.done && t.effect.Update?
            && t.effect.state.filled == s.filled[s.current.value := Trim(input)]
            && t.effect.state.current == Some(s.remaining[0])
            && t.effect.state.remaining == s.remaining[1..]
            && t.effect.state.originalDocText == s.originalDocText
            && |Outstanding(t.effect.state)| == |Outstanding(s)| - 1
  {
    ValidTrimmed(input, ExpectedType(s.current));
    var t := Step(s, input, Other, nextReply);
    assert Outstanding(t.effect.state) == s.remaining;
  }

  /** Every turn that leaves the session in place keeps the partition. */
  lemma StepPreservesPartition(s: SessionState, input: string, meta: MetaIntent, nextReply: Option<string>)
    requires Partitioned(s)
    ensures var t := Step(s, input, meta, nextReply);
            t.effect.Update? && !t.done ==> Partitioned(t.effect.state)
  {
    if meta == Other {
      var v := Trim(input);
      assert Step(s, input, meta, nextReply) == ValueTurn(s, v, nextReply);
      if IsPlaceholderValid(v, ExpectedType(s.current)) && s.remaining != [] {
        AdvancePartition(s, v);
      }
    }
  }

  /** Recording a value for the current placeholder and moving the queue's head
      up keeps the partition. */
  lemma AdvancePartition(s: SessionState, value: string)
    requires Partitioned(s) && s.remaining != []
    ensures Partitioned(s.(filled := Record(s, value), current := Some(s.remaining[0]), remaining := s.remaining[1..]))
  {
    var s' := s.(filled := Record(s, value), current := Some(s.remaining[0]), remaining := s.remaining[1..]);
    var c := s.current.value;
    assert Outstanding(s) == [c] + s.remaining;
    HeadAndRest(c, s.remaining);
    assert Outstanding(s') == s.remaining;
    assert s'.filled.Keys == s.filled.Keys + {c};
  }

  /** A duplicate-free list splits into its head and a duplicate-free rest
      without it. */
  lemma HeadAndRest(c: string, rest: seq<string>)
    requires NoDup([c] + rest)
    ensures NoDup(rest) && c !in rest
    ensures (set n | n in [c] + rest) == {c} + (set n | n in rest)
  {
    var out := [c] + rest;
    forall i, j | 0 <= i < j < |rest| ensures rest[i] != rest[j] {
      assert rest[i] == out[i + 1] && rest[j] == out[j + 1];
    }
    forall k | 0 <= k < |rest| ensures rest[k] != c {
      assert rest[k] == out[k + 1] && out[0] == c;
    }
  }

  /** The last valid value completes the session: every placeholder of the
      template has a value, the reply is the header and the substituted
      template, and when substitution is single-pass no placeholder is left in it. */
  lemma StepCompletes(s: SessionState, input: string, nextReply: Option<string>)
    requires Partitioned(s)
    requires IsPlaceholderValid(input, ExpectedType(s.current)) && s.remaining == []
    ensures var t := Step(s, input, Other, nextReply);
            var doc := s.originalDocText.value;
            && t.done && t.effect.Update?
            && NameSet(doc) <= t.effect.state.filled.Keys
            && t.reply == Rendered(doc, t.effect.state.filled)
            && (Clean(doc, t.effect.state.filled) ==> Extract(Render(doc, t.effect.state.filled)) == [])
  {
    ValidTrimmed(input, ExpectedType(s.current));
    var doc := s.originalDocText.value;
    var filled := Record(s, Trim(input));
    assert Step(s, input, Other, nextReply) == Turn(Rendered(doc, filled), true, Update(s.(filled := filled)));
    LastValueCompletes(s, Trim(input));
    if Clean(doc, filled) {
      RenderComplete(doc, filled);
    }
  }

  /** With nothing queued, recording the value gives every placeholder of the
      template a value. */
  lemma LastValueCompletes(s: SessionState, value: string)
    requires Partitioned(s) && s.remaining == []
    ensures NameSet(s.originalDocText.value) <= Record(s, value).Keys
  {
    forall n | n in NameSet(s.originalDocText.value) ensures n in Record(s, value) {
      if n !in s.filled {
        assert n in Outstanding(s);
      }
    }
  }

  /** The completion step as written: the value is stored under the current
      placeholder even when there is none (a `None` key), and substitution then
      fails on that key; `None` here is that failure. */
  function CompleteAsWritten(s: SessionState, value: string): Option<string>
    requires s.originalDocText.Some?
  {
    if s.current.None? then None
    else Some(DoneHeader + Render(s.originalDocText.value, s.filled[s.current.value := value]))
  }

  /** A session for a template without placeholders (nothing current, nothing
      queued, nothing filled): as written, the first valid reply fails; the
      corrected step completes with the template unchanged. */
  lemma PlaceholderFreeSessionCompletes(s: SessionState, input: string, nextReply: Option<string>)
    requires Partitioned(s) && s.current.None? && s.filled == map[]
    requires IsPlaceholderValid(input, "str")
    ensures CompleteAsWritten(s, Trim(input)).None?
    ensures Step(s, input, Other, nextReply) == Turn(Rendered(s.originalDocText.value, map[]), true, Update(s))
    ensures Spell(Step(s, input, Other, nextReply).reply) == DoneHeader + s.originalDocText.value
  {
    var doc := s.originalDocText.value;
    ValidTrimmed(input, "str");
    assert s.(filled := Record(s, Trim(input))) == s;
    assert ValueTurn(s, Trim(input), nextReply) == Turn(Rendered(doc, map[]), true, Update(s));
    RenderEmpty(doc);
    SpellRendered(doc, map[]);
  }
}
