/** The session record and the in-memory session store of core/session_manager.py.
    The dictionary-based stores of the older modules (chat.py, app.py) are the same
    map operations and use the same class. */
module Sessions {
  import opened Wrappers

  /** The dialogue stage of a session. `Unset` is a record without a "mode" entry,
      which only the older app.py builds. */
  datatype Mode = AskScenario | Manifest | Unset

  /** `SessionState`: the accumulated scenario messages, and for the fill stage the
      template, the placeholder queue, the values given so far and the placeholder
      being asked for. */
  datatype SessionState = SessionState(
    mode: Mode,
    collectedMessages: seq<string>,
    sourceFile: Option<string>,
    originalDocText: Option<string>,
    remaining: seq<string>,
    filled: map<string, string>,
    current: Option<string>)

  /** A fresh scenario-clarification session holding the messages so far. */
  function AskState(messages: seq<string>): SessionState {
    SessionState(AskScenario, messages, None, None, [], map[], None)
  }

  /** Python truthiness of an optional id: present and non-empty. */
  predicate Truthy(id: Option<string>) {
    id.Some? && id.value != ""
  }

  /** There is always a non-empty id not yet in use (what `uuid.uuid4()` is relied on for). */
  lemma FreshIdExists(keys: set<string>)
    ensures exists k :: k !in keys && k != ""
  {
    var n := LengthBound(keys);
    var k := seq(n + 1, _ => 'x');
    assert k !in keys;
  }

  lemma LengthBound(keys: set<string>) returns (n: nat)
    ensures forall k :: k in keys ==> |k| < n
  {
    if keys == {} {
      n := 0;
    } else {
      var x :| x in keys;
      var m := LengthBound(keys - {x});
      n := if |x| + 1 > m then |x| + 1 else m;
    }
  }

  /** `SessionStore`: the id-to-session map, updated in place. */
  class SessionStore {
    var mem: map<string, SessionState>

    constructor()
      ensures mem == map[]
    {
      mem := map[];
    }

    /** `get`: the stored session, or `None` for an unknown id; reading only. */
    function Get(sid: string): (r: Option<SessionState>)
      reads this
      ensures r.Some? <==> sid in mem
      ensures r.Some? ==> r.value == mem[sid]
    {
      if sid in mem then Some(mem[sid]) else None
    }

    /** `create`: a truthy reuse id is overwritten and returned; otherwise the
        session goes under a new non-empty id. Nothing else changes. */
    method Create(state: SessionState, reuse: Option<string>) returns (sid: string)
      modifies this
      ensures Truthy(reuse) ==> sid == reuse.value
      ensures !Truthy(reuse) ==> sid !in old(mem) && sid != ""
      ensures mem == old(mem)[sid := state]
    {
      if Truthy(reuse) {
        sid := reuse.value;
      } else {
        FreshIdExists(mem.Keys);
        sid :| sid !in mem && sid != "";
      }
      mem := mem[sid := state];
    }

    /** `save`: afterwards `get(sid)` is `state`; every other id reads as before. */
    method Save(sid: string, state: SessionState)
      modifies this
      ensures mem == old(mem)[sid := state]
      ensures Get(sid) == Some(state)
      ensures forall k :: k != sid ==> Get(k) == old(Get(k))
    {
      mem := mem[sid := state];
    }

    /** `end`: removes `sid` only; ending an unknown id changes nothing. */
    method End(sid: string)
      modifies this
      ensures mem == old(mem) - {sid}
      ensures Get(sid) == None
      ensures forall k :: k != sid ==> Get(k) == old(Get(k))
      ensures sid !in old(mem) ==> mem == old(mem)
    {
      mem := mem - {sid};
    }

    /** `list_ids`: every current id, once. */
    method ListIds() returns (ids: seq<string>)
      ensures forall k :: k in ids <==> k in mem
      ensures forall i, j :: 0 <= i < j < |ids| ==> ids[i] != ids[j]
    {
      ids := [];
      var rest := mem.Keys;
      while rest != {}
        invariant rest <= mem.Keys
        invariant forall k :: k in ids <==> k in mem && k !in rest
        invariant forall i, j :: 0 <= i < j < |ids| ==> ids[i] != ids[j]
        decreases rest
      {
        var k :| k in rest;
        ids := ids + [k];
        rest := rest - {k};
      }
    }

    /** `clear`: no session is left. */
    method Clear()
      modifies this
      ensures mem == map[]
    {
      mem := map[];
    }
  }
}
