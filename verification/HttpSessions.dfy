/**
 Sessions of the HTTP transport: admission, expiry and shutdown
 (runtime/coding-tools-mcp/coding_tools_mcp/transport_http.py).
 */
module HttpSessions {
  import opened Options

  type SessionId = string
  type RuntimeId = nat

  const MAX_HTTP_SESSIONS := 128
  const HTTP_SESSION_TTL_SECONDS := 3600.0

  datatype Session = Session(runtime: RuntimeId, lastSeen: real)

  /** What the lock protects. */
  datatype Shared = Shared(sessions: map<SessionId, Session>, creating: int, closed: bool)

  datatype Refusal = ManagerClosed | TooMany | DuplicateId

  const EMPTY := Shared(map[], 0, false)

  // -------------------------------------------------------------------------
  // The sections that hold the lock
  // -------------------------------------------------------------------------

  function Expired(sessions: map<SessionId, Session>, now: real): set<SessionId> {
    set id | id in sessions && sessions[id].lastSeen < now - HTTP_SESSION_TTL_SECONDS
  }

  function Without(s: Shared, ids: set<SessionId>): Shared {
    s.(sessions := s.sessions - ids)
  }

  function Reserve(s: Shared): (Shared, Option<Refusal>) {
    if s.closed then (s, Some(ManagerClosed))
    else if |s.sessions| + s.creating >= MAX_HTTP_SESSIONS then (s, Some(TooMany))
    else (s.(creating := s.creating + 1), None)
  }

  function Install(s: Shared, id: SessionId, r: RuntimeId, now: real): (Shared, Option<Refusal>) {
    if s.closed then (s, Some(ManagerClosed))
    else if id in s.sessions then (s, Some(DuplicateId))
    else (s.(sessions := s.sessions[id := Session(r, now)]), None)
  }

  function Release(s: Shared): Shared {
    s.(creating := s.creating - 1)
  }

  function Touch(s: Shared, id: SessionId, now: real): (Shared, Option<RuntimeId>) {
    if s.closed || id !in s.sessions then (s, None)
    else (s.(sessions := s.sessions[id := s.sessions[id].(lastSeen := now)]), Some(s.sessions[id].runtime))
  }

  function Shut(s: Shared): Shared {
    s.(sessions := map[], closed := true)
  }

  /** The runtimes of the listed sessions, in that order. */
  function RuntimesOf(sessions: map<SessionId, Session>, ids: seq<SessionId>): (rs: seq<RuntimeId>)
    requires forall id | id in ids :: id in sessions
    ensures |rs| == |ids| && forall i | 0 <= i < |ids| :: rs[i] == sessions[ids[i]].runtime
  {
    if ids == [] then [] else [sessions[ids[0]].runtime] + RuntimesOf(sessions, ids[1..])
  }

  /** A listing of a set, without repetition. */
  ghost predicate Lists(ids: seq<SessionId>, s: set<SessionId>) {
    && (forall i, j | 0 <= i < j < |ids| :: ids[i] != ids[j])
    && (forall id :: id in ids <==> id in s)
  }

  class HttpSessionManager {
    var sessions: map<SessionId, Session>
    var creating: int
    var closed: bool

    function State(): Shared
      reads this
    {
      Shared(sessions, creating, closed)
    }

    constructor ()
      ensures State() == EMPTY
    {
      sessions, creating, closed := map[], 0, false;
    }

    /** Takes out the expired sessions; the caller closes their runtimes after leaving the lock. */
    method TakeExpired(now: real) returns (records: seq<RuntimeId>, ghost ids: seq<SessionId>)
      modifies `sessions
      ensures State() == Without(old(State()), Expired(old(sessions), now))
      ensures Lists(ids, Expired(old(sessions), now)) && records == RuntimesOf(old(sessions), ids)
      ensures forall id :: id in sessions <==> id in old(sessions) && old(sessions)[id].lastSeen >= now - 3600.0
      ensures forall id | id in sessions :: sessions[id] == old(sessions)[id]
    {
      var expired := Expired(sessions, now);
      records, ids := Collect(sessions, expired);
      sessions := sessions - expired;
    }

    method ReserveSlot() returns (refusal: Option<Refusal>)
      modifies `creating
      ensures (State(), refusal) == Reserve(old(State()))
      ensures refusal == Some(ManagerClosed) <==> closed
      ensures refusal == Some(TooMany) <==> !closed && |sessions| + old(creating) >= 128
      ensures creating == old(creating) + if refusal.None? then 1 else 0
    {
      if closed {
        return Some(ManagerClosed);
      }
      if |sessions| + creating >= MAX_HTTP_SESSIONS {
        return Some(TooMany);
      }
      creating := creating + 1;
      refusal := None;
    }

    method InstallRuntime(id: SessionId, runtime: RuntimeId, now: real) returns (refusal: Option<Refusal>)
      modifies `sessions
      ensures (State(), refusal) == Install(old(State()), id, runtime, now)
      ensures refusal == Some(ManagerClosed) <==> closed
      ensures refusal == Some(DuplicateId) <==> !closed && id in old(sessions)
      ensures sessions == if refusal.None? then old(sessions)[id := Session(runtime, now)] else old(sessions)
    {
      if closed {
        return Some(ManagerClosed);
      }
      if id in sessions {
        return Some(DuplicateId);
      }
      sessions := sessions[id := Session(runtime, now)];
      refusal := None;
    }

    method ReleaseSlot()
      modifies `creating
      ensures State() == Release(old(State())) && creating == old(creating) - 1
    {
      creating := creating - 1;
    }

    method Find(id: SessionId, now: real) returns (runtime: Option<RuntimeId>)
      modifies `sessions
      ensures (State(), runtime) == Touch(old(State()), id, now)
      ensures runtime.Some? <==> !closed && id in old(sessions)
      ensures runtime.Some? ==> runtime.value == old(sessions)[id].runtime && sessions == old(sessions)[id := Session(runtime.value, now)]
      ensures runtime.None? ==> sessions == old(sessions)
    {
      if closed || id !in sessions {
        return None;
      }
      var record := sessions[id];
      sessions := sessions[id := record.(lastSeen := now)];
      runtime := Some(record.runtime);
    }

    method Take(id: SessionId) returns (runtime: Option<RuntimeId>)
      modifies `sessions
      ensures State() == Without(old(State()), {id}) && sessions == old(sessions) - {id}
      ensures runtime == if id in old(sessions) then Some(old(sessions)[id].runtime) else None
    {
      if id !in sessions {
        assert sessions - {id} == sessions;
        return None;
      }
      runtime := Some(sessions[id].runtime);
      sessions := sessions - {id};
    }

    method TakeAll() returns (records: seq<RuntimeId>, ghost ids: seq<SessionId>)
      modifies `sessions, `closed
      ensures State() == Shut(old(State())) && closed && sessions == map[] && creating == old(creating)
      ensures Lists(ids, old(sessions).Keys) && records == RuntimesOf(old(sessions), ids)
    {
      closed := true;
      records, ids := Collect(sessions, sessions.Keys);
      sessions := map[];
    }
  }

  lemma ListsMore(ids: seq<SessionId>, s: set<SessionId>, id: SessionId)
    requires Lists(ids, s) && id !in s
    ensures Lists(ids + [id], s + {id})
  {
    var more := ids + [id];
    forall i, j | 0 <= i < j < |more| ensures more[i] != more[j] {
      assert more[i] in ids;
    }
  }

  ghost predicate Collected(sessions: map<SessionId, Session>, ids: seq<SessionId>, records: seq<RuntimeId>) {
    |records| == |ids| && forall i | 0 <= i < |ids| :: ids[i] in sessions && sessions[ids[i]].runtime == records[i]
  }

  lemma CollectedMore(sessions: map<SessionId, Session>, ids: seq<SessionId>, records: seq<RuntimeId>, id: SessionId)
    requires Collected(sessions, ids, records) && id in sessions
    ensures Collected(sessions, ids + [id], records + [sessions[id].runtime])
  {
  }

  lemma CollectedAll(sessions: map<SessionId, Session>, ids: seq<SessionId>, records: seq<RuntimeId>)
    requires Collected(sessions, ids, records)
    ensures (forall id | id in ids :: id in sessions) && records == RuntimesOf(sessions, ids)
  {
  }

  /** The runtimes of some sessions, in some order. */
  method Collect(sessions: map<SessionId, Session>, wanted: set<SessionId>) returns (records: seq<RuntimeId>, ghost ids: seq<SessionId>)
    requires wanted <= sessions.Keys
    ensures Lists(ids, wanted) && records == RuntimesOf(sessions, ids)
  {
    var left := wanted;
    ids, records := [], [];
    while left != {}
      invariant left <= wanted
      invariant Lists(ids, wanted - left)
      invariant Collected(sessions, ids, records)
      decreases |left|
    {
      var id :| id in left;
      ListsMore(ids, wanted - left, id);
      assert wanted - (left - {id}) == (wanted - left) + {id};
      CollectedMore(sessions, ids, records, id);
      records := records + [sessions[id].runtime];
      ids := ids + [id];
      left := left - {id};
    }
    assert wanted - left == wanted;
    CollectedAll(sessions, ids, records);
  }
}
