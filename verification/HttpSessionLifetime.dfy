/**
 How long an HTTP session lives: from its install until it is deleted, the manager is closed, or it has not
 been used for an hour (runtime/coding-tools-mcp/coding_tools_mcp/transport_http.py).
 */
module HttpSessionLifetime {
  import opened HttpSessions
  import opened HttpSessionRuns

  /** The sessions that have not been used since an hour before `now`. */
  function Unused(sessions: map<SessionId, Session>, now: real): set<SessionId> {
    set id | id in sessions && sessions[id].lastSeen < now - 3600.0
  }

  /** The step takes this session out. */
  ghost predicate Ends(w: World, e: Event, id: SessionId) {
    && id in w.shared.sessions
    && match e
       case DeleteOf(other, batch) => other == id && batch !in w.batches
       case PruneAt(now, order, batch) =>
         Lists(order, Unused(w.shared.sessions, now)) && batch !in w.batches && w.shared.sessions[id].lastSeen < now - 3600.0
       case CloseManager(order, batch) => Lists(order, w.shared.sessions.Keys) && batch !in w.batches
       case _ => false
  }

  lemma ExpiredIsUnused(sessions: map<SessionId, Session>, now: real)
    ensures Expired(sessions, now) == Unused(sessions, now)
  {
  }

  /** What one step does to a session: only a deletion, a close, or an hour without use ends it; only a use renews it. */
  ghost predicate Treats(w: World, e: Event, v: World, id: SessionId)
    requires id in w.shared.sessions
  {
    && (id !in v.shared.sessions <==> Ends(w, e, id))
    && (id in v.shared.sessions ==>
          v.shared.sessions[id] ==
            if e.GetOf? && e.id == id && !w.shared.closed then Session(w.shared.sessions[id].runtime, e.now)
            else w.shared.sessions[id])
  }

  lemma PruneTreats(w: World, e: Event, id: SessionId)
    requires e.PruneAt? && id in w.shared.sessions
    ensures Treats(w, e, Next(w, e), id)
  {
    ExpiredIsUnused(w.shared.sessions, e.now);
  }

  lemma CreatesTreat(w: World, e: Event, id: SessionId)
    requires IsCreateStep(e) && id in w.shared.sessions
    ensures Treats(w, e, Next(w, e), id)
  {
  }

  lemma OthersTreat(w: World, e: Event, id: SessionId)
    requires !IsCreateStep(e) && !e.PruneAt? && id in w.shared.sessions
    ensures Treats(w, e, Next(w, e), id)
  {
  }

  lemma StepTreats(w: World, e: Event, id: SessionId)
    requires id in w.shared.sessions
    ensures Treats(w, e, Next(w, e), id)
  {
    if e.PruneAt? {
      PruneTreats(w, e, id);
    } else if IsCreateStep(e) {
      CreatesTreat(w, e, id);
    } else {
      OthersTreat(w, e, id);
    }
  }

  /** No step of this stretch ends the session. */
  ghost predicate Spared(events: seq<Event>, more: seq<Event>, id: SessionId) {
    forall i | 0 <= i < |more| :: Spares(events + more[..i], more[i], id)
  }

  ghost predicate Spares(events: seq<Event>, e: Event, id: SessionId) {
    !Ends(Run(events), e, id)
  }

  ghost predicate StillServes(events: seq<Event>, id: SessionId, r: RuntimeId) {
    id in Run(events).shared.sessions && Run(events).shared.sessions[id].runtime == r
  }

  lemma ServesOneMore(events: seq<Event>, e: Event, id: SessionId, r: RuntimeId)
    requires StillServes(events, id, r) && Spares(events, e, id)
    ensures StillServes(events + [e], id, r)
  {
    Then(events, e);
    StepTreats(Run(events), e, id);
  }

  /** What every step that is fit keeps, a stretch of fit steps keeps. */
  lemma {:induction false} Lasts(events: seq<Event>, more: seq<Event>, kept: seq<Event> -> bool, fit: (seq<Event>, Event) -> bool)
    requires kept(events) && forall i | 0 <= i < |more| :: fit(events + more[..i], more[i])
    requires forall es, e | kept(es) && fit(es, e) :: kept(es + [e])
    ensures kept(events + more)
    decreases |more|
  {
    if more == [] {
      assert events + more == events;
    } else {
      var init, last := more[..|more| - 1], more[|more| - 1];
      forall i | 0 <= i < |init| ensures fit(events + init[..i], init[i]) {
        assert init[..i] == more[..i];
      }
      Lasts(events, init, kept, fit);
      assert events + more == (events + init) + [last];
    }
  }

  /**
   Over every interleaving: a session goes on serving its runtime for as long as it is neither deleted nor shut
   down and no prune comes more than an hour after its last use.
   */
  lemma ServesWhileUsed(events: seq<Event>, more: seq<Event>, id: SessionId, r: RuntimeId)
    requires StillServes(events, id, r) && Spared(events, more, id)
    ensures StillServes(events + more, id, r)
  {
    var kept := es => StillServes(es, id, r);
    var fit := (es, e) => Spares(es, e, id);
    forall es, e | kept(es) && fit(es, e) ensures kept(es + [e]) {
      ServesOneMore(es, e, id, r);
    }
    Lasts(events, more, kept, fit);
  }

  /** And each of these does end it. */
  lemma EndedSessions(events: seq<Event>, e: Event, id: SessionId)
    requires Ends(Run(events), e, id)
    ensures id !in Run(events + [e]).shared.sessions
  {
    Then(events, e);
    StepTreats(Run(events), e, id);
  }

  // -------------------------------------------------------------------------
  // Steps of a create and a use
  // -------------------------------------------------------------------------

  /** A create is counted exactly when the manager is open and sessions and creates together are below 128. */
  lemma ReserveIsExact(events: seq<Event>, call: CallId, w: World)
    requires w == Run(events) && call !in w.creators
    ensures
      var s := w.shared;
      Next(w, ReserveBy(call)) ==
        if s.closed || |s.sessions| + |w.creators| >= 128 then w
        else w.(shared := s.(creating := |w.creators| + 1), creators := w.creators[call := Reserved])
  {
    CapacityHolds(events);
  }

  /** A runtime is installed, as used now, exactly when the manager is open and its identifier is free. */
  lemma InstallIsExact(w: World, call: CallId, r: RuntimeId, id: SessionId, now: real)
    requires call in w.creators && w.creators[call] == Built(r, id)
    ensures
      var v, s := Next(w, InstallBy(call, now)), w.shared;
      if s.closed || id in s.sessions then v == w.(creators := w.creators[call := Refused(r)])
      else
        && v.shared == s.(sessions := s.sessions[id := Session(r, now)])
        && v.creators == w.creators[call := Installed] && v.place == w.place[r := Serving(id)]
        && v.closes == w.closes && v.batches == w.batches
  {
  }

  /** A create that ends gives its slot back, and closes the runtime that was refused, and no other. */
  lemma ReleaseIsExact(w: World, call: CallId, batch: CallId)
    requires call in w.creators && !w.creators[call].Reserved? && !w.creators[call].Built? && batch !in w.batches
    ensures
      var v := Next(w, ReleaseBy(call, batch));
      && v.shared == w.shared.(creating := w.shared.creating - 1) && v.creators == w.creators - {call} && v.closes == w.closes
      && v.batches == if w.creators[call].Refused? then w.batches[batch := [w.creators[call].runtime]] else w.batches
  {
  }
}
