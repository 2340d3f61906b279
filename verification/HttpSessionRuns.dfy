/**
 Runs of the HTTP session manager: any number of create, get, delete, prune and close calls, interleaved
 at every section that holds the lock, every factory call and every runtime close.
 */
module HttpSessionRuns {
  import opened HttpSessions

  type CallId = nat

  /** Where a `create` that reserved a slot stands. */
  datatype Phase =
    | Reserved
    | Built(runtime: RuntimeId, id: SessionId)
    | NotMade
    | Refused(runtime: RuntimeId)
    | Installed

  /** Where a runtime that the factory made is. */
  datatype Place =
    | Building(creator: CallId)
    | Serving(id: SessionId)
    | Leaving(call: CallId)
    | Closed
    | Dropped

  /**
   `creators` are the creates that hold a slot; `batches` are the runtimes that a call has taken out and
   closes one by one; `closes` counts the close calls; `place` follows each runtime made so far.
   */
  datatype World = World(
    shared: Shared,
    creators: map<CallId, Phase>, batches: map<CallId, seq<RuntimeId>>,
    closes: multiset<RuntimeId>, place: map<RuntimeId, Place>)

  datatype Event =
    | ReserveBy(call: CallId)
    | FactoryMakes(call: CallId, runtime: RuntimeId, id: SessionId)
    | FactoryRaises(call: CallId)
    | InstallBy(call: CallId, now: real)
    | ReleaseBy(call: CallId, batch: CallId)
    | GetOf(id: SessionId, now: real)
    | DeleteOf(id: SessionId, batch: CallId)
    | PruneAt(now: real, order: seq<SessionId>, batch: CallId)
    | CloseManager(order: seq<SessionId>, batch: CallId)
    | CloseNext(batch: CallId)
    | CloseNextRaises(batch: CallId)

  const START := World(EMPTY, map[], map[], multiset{}, map[])

  function Moved(place: map<RuntimeId, Place>, rs: seq<RuntimeId>, to: Place): map<RuntimeId, Place> {
    map r | r in place :: if r in rs then to else place[r]
  }

  /** Runtimes are taken out in one section, to be closed by that call later. */
  function Leave(w: World, shared: Shared, rs: seq<RuntimeId>, batch: CallId): World {
    w.(shared := shared, batches := w.batches[batch := rs], place := Moved(w.place, rs, Leaving(batch)))
  }

  function AfterReserve(w: World, call: CallId): World {
    var (shared, refusal) := Reserve(w.shared);
    if refusal.Some? then w else w.(shared := shared, creators := w.creators[call := Reserved])
  }

  function AfterInstall(w: World, call: CallId, r: RuntimeId, id: SessionId, now: real): World {
    var (shared, refusal) := Install(w.shared, id, r, now);
    if refusal.Some? then w.(creators := w.creators[call := Refused(r)])
    else w.(shared := shared, creators := w.creators[call := Installed], place := w.place[r := Serving(id)])
  }

  function AfterRelease(w: World, call: CallId, batch: CallId): World
    requires call in w.creators
  {
    var v := w.(shared := Release(w.shared), creators := w.creators - {call});
    match w.creators[call]
    case Refused(r) => Leave(v, v.shared, [r], batch)
    case _ => v
  }

  /** The first runtime of a batch is closed; if that raises, the rest are never reached. */
  function AfterClose(w: World, batch: CallId, raises: bool): World
    requires batch in w.batches && w.batches[batch] != []
  {
    var rs := w.batches[batch];
    var v := w.(closes := w.closes + multiset{rs[0]}, place := w.place[rs[0] := Closed]);
    if raises then v.(batches := w.batches[batch := []], place := Moved(v.place, rs[1..], Dropped))
    else v.(batches := w.batches[batch := rs[1..]])
  }

  /** An event that no call could perform in this state leaves it as it is. */
  ghost function Next(w: World, e: Event): World {
    match e
    case ReserveBy(call) => if call in w.creators then w else AfterReserve(w, call)
    case FactoryMakes(call, r, id) =>
      if call in w.creators && w.creators[call].Reserved? && r !in w.place
      then w.(creators := w.creators[call := Built(r, id)], place := w.place[r := Building(call)]) else w
    case FactoryRaises(call) =>
      if call in w.creators && w.creators[call].Reserved? then w.(creators := w.creators[call := NotMade]) else w
    case InstallBy(call, now) =>
      if call in w.creators && w.creators[call].Built?
      then AfterInstall(w, call, w.creators[call].runtime, w.creators[call].id, now) else w
    case ReleaseBy(call, batch) =>
      if call in w.creators && !w.creators[call].Reserved? && !w.creators[call].Built? && batch !in w.batches
      then AfterRelease(w, call, batch) else w
    case GetOf(id, now) => w.(shared := Touch(w.shared, id, now).0)
    case DeleteOf(id, batch) =>
      if id in w.shared.sessions && batch !in w.batches
      then Leave(w, Without(w.shared, {id}), [w.shared.sessions[id].runtime], batch) else w
    case PruneAt(now, order, batch) =>
      if Lists(order, Expired(w.shared.sessions, now)) && batch !in w.batches
      then Leave(w, Without(w.shared, Expired(w.shared.sessions, now)), RuntimesOf(w.shared.sessions, order), batch) else w
    case CloseManager(order, batch) =>
      if Lists(order, w.shared.sessions.Keys) && batch !in w.batches
      then Leave(w, Shut(w.shared), RuntimesOf(w.shared.sessions, order), batch) else w
    case CloseNext(batch) =>
      if batch in w.batches && w.batches[batch] != [] then AfterClose(w, batch, false) else w
    case CloseNextRaises(batch) =>
      if batch in w.batches && w.batches[batch] != [] then AfterClose(w, batch, true) else w
  }

  ghost function Run(events: seq<Event>): World {
    if events == [] then START else Next(Run(events[..|events| - 1]), events[|events| - 1])
  }

  // -------------------------------------------------------------------------
  // Invariants
  // -------------------------------------------------------------------------

  /** The creates that may still install a session. */
  function MayInstall(creators: map<CallId, Phase>): set<CallId> {
    set c | c in creators && (creators[c].Reserved? || creators[c].Built?)
  }

  /** The counter double-counts an installed session until its create ends; the capacity holds all the same. */
  ghost predicate Counted(s: Shared, creators: map<CallId, Phase>) {
    && s.creating == |creators|
    && |s.sessions| + |MayInstall(creators)| <= MAX_HTTP_SESSIONS
    && (s.closed ==> s.sessions == map[])
  }

  ghost predicate Serves(sessions: map<SessionId, Session>, place: map<RuntimeId, Place>) {
    && (forall id | id in sessions :: sessions[id].runtime in place && place[sessions[id].runtime] == Serving(id))
    && (forall r | r in place && place[r].Serving? :: place[r].id in sessions && sessions[place[r].id].runtime == r)
  }

  predicate Holds(p: Phase) {
    p.Built? || p.Refused?
  }

  ghost predicate Builds(creators: map<CallId, Phase>, place: map<RuntimeId, Place>) {
    && (forall c | c in creators && Holds(creators[c]) ::
          creators[c].runtime in place && place[creators[c].runtime] == Building(c))
    && (forall r | r in place && place[r].Building? ::
          var c := place[r].creator; c in creators && Holds(creators[c]) && creators[c].runtime == r)
  }

  ghost predicate Different(rs: seq<RuntimeId>) {
    forall i, j | 0 <= i < j < |rs| :: rs[i] != rs[j]
  }

  ghost predicate Leaves(batches: map<CallId, seq<RuntimeId>>, place: map<RuntimeId, Place>) {
    && (forall c | c in batches :: Different(batches[c]))
    && (forall c, r | c in batches && r in batches[c] :: r in place && place[r] == Leaving(c))
    && (forall r | r in place && place[r].Leaving? :: place[r].call in batches && r in batches[place[r].call])
  }

  ghost predicate Closes(closes: multiset<RuntimeId>, place: map<RuntimeId, Place>) {
    && (forall r | r in place :: closes[r] == if place[r].Closed? then 1 else 0)
    && (forall r | r in closes :: r in place)
  }

  ghost predicate Inv(w: World) {
    && Counted(w.shared, w.creators) && Serves(w.shared.sessions, w.place) && Builds(w.creators, w.place)
    && Leaves(w.batches, w.place) && Closes(w.closes, w.place)
  }

  // -------------------------------------------------------------------------
  // Every event keeps them
  // -------------------------------------------------------------------------

  lemma SubsetCount<T>(a: set<T>, b: set<T>)
    requires a <= b
    ensures |a| <= |b|
  {
    assert |b| == |a| + |b - a| by { assert a + (b - a) == b; }
  }

  lemma CountPut<K, V>(m: map<K, V>, k: K, v: V)
    ensures |m[k := v]| == |m| + if k in m then 0 else 1
  {
    assert m[k := v].Keys == m.Keys + {k};
    assert |m[k := v]| == |m[k := v].Keys| && |m| == |m.Keys|;
  }

  lemma CountMinus<K, V>(m: map<K, V>, gone: set<K>)
    ensures |m - gone| <= |m|
    ensures forall k :: k in m && gone == {k} ==> |m - gone| == |m| - 1
  {
    assert (m - gone).Keys == m.Keys - gone;
    assert |m - gone| == |(m - gone).Keys| && |m| == |m.Keys|;
    SubsetCount(m.Keys - gone, m.Keys);
  }

  lemma MayInstallCounted(creators: map<CallId, Phase>)
    ensures |MayInstall(creators)| <= |creators|
  {
    SubsetCount(MayInstall(creators), creators.Keys);
    assert |creators| == |creators.Keys|;
  }

  /** A create that can no longer install gives up its share of the capacity. */
  lemma MayInstallStops(creators: map<CallId, Phase>, call: CallId, p: Phase)
    requires call in MayInstall(creators) && !p.Reserved? && !p.Built?
    ensures |MayInstall(creators[call := p])| == |MayInstall(creators)| - 1
  {
    assert MayInstall(creators[call := p]) == MayInstall(creators) - {call};
  }

  /** Moves between other places do not matter to the sessions, the creators or the batches. */
  lemma ServesElsewhere(sessions: map<SessionId, Session>, p: map<RuntimeId, Place>, q: map<RuntimeId, Place>)
    requires Serves(sessions, p)
    requires forall r | r in p && p[r].Serving? :: r in q && q[r] == p[r]
    requires forall r | r in q && q[r].Serving? :: r in p && q[r] == p[r]
    ensures Serves(sessions, q)
  {
  }

  lemma BuildsElsewhere(creators: map<CallId, Phase>, p: map<RuntimeId, Place>, q: map<RuntimeId, Place>)
    requires Builds(creators, p)
    requires forall r | r in p && p[r].Building? :: r in q && q[r] == p[r]
    requires forall r | r in q && q[r].Building? :: r in p && q[r] == p[r]
    ensures Builds(creators, q)
  {
  }

  lemma LeavesElsewhere(batches: map<CallId, seq<RuntimeId>>, p: map<RuntimeId, Place>, q: map<RuntimeId, Place>)
    requires Leaves(batches, p)
    requires forall r | r in p && p[r].Leaving? :: r in q && q[r] == p[r]
    requires forall r | r in q && q[r].Leaving? :: r in p && q[r] == p[r]
    ensures Leaves(batches, q)
  {
  }

  /** A create changes phase and keeps or gives up the runtime it holds. */
  lemma BuildsPhase(creators: map<CallId, Phase>, call: CallId, p: Phase, place: map<RuntimeId, Place>)
    requires Builds(creators, place)
    requires Holds(p) ==> p.runtime in place && place[p.runtime] == Building(call)
    requires call in creators && Holds(creators[call]) ==> Holds(p) && p.runtime == creators[call].runtime
    ensures Builds(creators[call := p], place)
  {
  }

  lemma ReserveKeepsInv(w: World, call: CallId)
    requires Inv(w) && call !in w.creators
    ensures Inv(AfterReserve(w, call))
  {
    CountPut(w.creators, call, Reserved);
    MayInstallCounted(w.creators);
    assert MayInstall(w.creators[call := Reserved]) == MayInstall(w.creators) + {call};
    BuildsPhase(w.creators, call, Reserved, w.place);
  }

  lemma MakeBuilds(creators: map<CallId, Phase>, place: map<RuntimeId, Place>, call: CallId, r: RuntimeId, id: SessionId)
    requires Builds(creators, place) && call in creators && creators[call].Reserved? && r !in place
    ensures Builds(creators[call := Built(r, id)], place[r := Building(call)])
  {
  }

  lemma MakeKeepsInv(w: World, call: CallId, r: RuntimeId, id: SessionId)
    requires Inv(w) && call in w.creators && w.creators[call].Reserved? && r !in w.place
    ensures Inv(w.(creators := w.creators[call := Built(r, id)], place := w.place[r := Building(call)]))
  {
    var creators, place := w.creators[call := Built(r, id)], w.place[r := Building(call)];
    CountPut(w.creators, call, Built(r, id));
    assert MayInstall(creators) == MayInstall(w.creators);
    ServesElsewhere(w.shared.sessions, w.place, place);
    LeavesElsewhere(w.batches, w.place, place);
    MakeBuilds(w.creators, w.place, call, r, id);
  }

  lemma RaiseKeepsInv(w: World, call: CallId)
    requires Inv(w) && call in w.creators && w.creators[call].Reserved?
    ensures Inv(w.(creators := w.creators[call := NotMade]))
  {
    CountPut(w.creators, call, NotMade);
    MayInstallStops(w.creators, call, NotMade);
    BuildsPhase(w.creators, call, NotMade, w.place);
  }

  lemma InstalledServes(w: World, call: CallId, r: RuntimeId, id: SessionId, now: real)
    requires Serves(w.shared.sessions, w.place) && Builds(w.creators, w.place)
    requires call in w.creators && w.creators[call] == Built(r, id) && id !in w.shared.sessions
    ensures
      var place := w.place[r := Serving(id)];
      Serves(w.shared.sessions[id := Session(r, now)], place) && Builds(w.creators[call := Installed], place)
  {
    assert w.place[r] == Building(call);
  }

  lemma InstalledKeepsInv(w: World, call: CallId, r: RuntimeId, id: SessionId, now: real)
    requires Inv(w) && call in w.creators && w.creators[call] == Built(r, id)
    requires id !in w.shared.sessions && !w.shared.closed
    ensures Inv(AfterInstall(w, call, r, id, now))
  {
    CountPut(w.creators, call, Installed);
    MayInstallStops(w.creators, call, Installed);
    CountPut(w.shared.sessions, id, Session(r, now));
    InstalledServes(w, call, r, id, now);
    LeavesElsewhere(w.batches, w.place, w.place[r := Serving(id)]);
  }

  lemma InstallKeepsInv(w: World, call: CallId, now: real)
    requires Inv(w) && call in w.creators && w.creators[call].Built?
    ensures Inv(AfterInstall(w, call, w.creators[call].runtime, w.creators[call].id, now))
  {
    var r, id := w.creators[call].runtime, w.creators[call].id;
    if Install(w.shared, id, r, now).1.Some? {
      CountPut(w.creators, call, Refused(r));
      MayInstallStops(w.creators, call, Refused(r));
      BuildsPhase(w.creators, call, Refused(r), w.place);
    } else {
      InstalledKeepsInv(w, call, r, id, now);
    }
  }

  lemma LeaveKeepsBatches(w: World, rs: seq<RuntimeId>, batch: CallId)
    requires Leaves(w.batches, w.place) && Closes(w.closes, w.place) && batch !in w.batches && Different(rs)
    requires forall r | r in rs :: r in w.place && !w.place[r].Leaving? && !w.place[r].Closed?
    ensures var place := Moved(w.place, rs, Leaving(batch)); Leaves(w.batches[batch := rs], place) && Closes(w.closes, place)
  {
  }

  lemma ReleasedKeepsInv(w: World, call: CallId, batch: CallId, r: RuntimeId)
    requires Inv(w) && call in w.creators && w.creators[call] == Refused(r) && batch !in w.batches
    ensures Inv(AfterRelease(w, call, batch))
  {
    CountMinus(w.creators, {call});
    assert MayInstall(w.creators - {call}) == MayInstall(w.creators);
    assert forall x | x in [r] :: x == r;
    LeaveKeepsBatches(w, [r], batch);
    var place := Moved(w.place, [r], Leaving(batch));
    ServesElsewhere(w.shared.sessions, w.place, place);
    assert Builds(w.creators - {call}, place);
  }

  lemma ReleaseKeepsInv(w: World, call: CallId, batch: CallId)
    requires Inv(w) && call in w.creators && (w.creators[call].NotMade? || w.creators[call].Installed?)
    ensures Inv(AfterRelease(w, call, batch))
  {
    CountMinus(w.creators, {call});
    assert MayInstall(w.creators - {call}) == MayInstall(w.creators);
    assert Builds(w.creators - {call}, w.place);
  }

  lemma TouchKeepsInv(w: World, id: SessionId, now: real)
    requires Inv(w)
    ensures Inv(w.(shared := Touch(w.shared, id, now).0))
  {
    var sessions := w.shared.sessions;
    if !w.shared.closed && id in sessions {
      CountPut(sessions, id, sessions[id].(lastSeen := now));
      assert Serves(sessions[id := sessions[id].(lastSeen := now)], w.place);
    }
  }

  /** Sessions that are taken out together have different runtimes, all of them serving. */
  lemma TakenRuntimes(w: World, ids: seq<SessionId>, gone: set<SessionId>)
    requires Serves(w.shared.sessions, w.place) && Lists(ids, gone) && gone <= w.shared.sessions.Keys
    ensures
      var rs := RuntimesOf(w.shared.sessions, ids);
      && Different(rs)
      && (forall r | r in rs :: r in w.place && w.place[r].Serving? && w.place[r].id in gone)
      && (forall id | id in gone :: w.shared.sessions[id].runtime in rs)
  {
    var rs := RuntimesOf(w.shared.sessions, ids);
    forall r | r in rs ensures r in w.place && w.place[r].Serving? && w.place[r].id in gone {
      var i :| 0 <= i < |rs| && rs[i] == r;
      assert ids[i] in ids;
    }
    forall i, j | 0 <= i < j < |rs| ensures rs[i] != rs[j] {
      assert ids[i] in ids && ids[j] in ids;
    }
    forall id | id in gone ensures w.shared.sessions[id].runtime in rs {
      var i :| 0 <= i < |ids| && ids[i] == id;
      assert rs[i] == w.shared.sessions[id].runtime;
    }
  }

  lemma TakeOutServes(w: World, rs: seq<RuntimeId>, gone: set<SessionId>, batch: CallId)
    requires Serves(w.shared.sessions, w.place) && Builds(w.creators, w.place)
    requires forall r | r in rs :: r in w.place && w.place[r].Serving? && w.place[r].id in gone
    requires forall id | id in gone :: id in w.shared.sessions && w.shared.sessions[id].runtime in rs
    ensures
      var place := Moved(w.place, rs, Leaving(batch));
      Serves(w.shared.sessions - gone, place) && Builds(w.creators, place)
  {
  }

  lemma TakeOutKeepsInv(w: World, shared: Shared, ids: seq<SessionId>, gone: set<SessionId>, batch: CallId)
    requires Inv(w) && batch !in w.batches && Lists(ids, gone) && gone <= w.shared.sessions.Keys
    requires shared.sessions == w.shared.sessions - gone && shared.creating == w.shared.creating
    requires shared.closed ==> shared.sessions == map[]
    ensures Inv(Leave(w, shared, RuntimesOf(w.shared.sessions, ids), batch))
  {
    TakenRuntimes(w, ids, gone);
    var rs := RuntimesOf(w.shared.sessions, ids);
    LeaveKeepsBatches(w, rs, batch);
    CountMinus(w.shared.sessions, gone);
    TakeOutServes(w, rs, gone, batch);
  }

  /** The first of a batch is closed, the rest still wait or are dropped. */
  lemma BatchAfterClose(w: World, batch: CallId)
    requires Leaves(w.batches, w.place) && batch in w.batches && w.batches[batch] != []
    ensures
      var rs := w.batches[batch];
      && (forall r | r in rs :: r in w.place && w.place[r] == Leaving(batch))
      && (forall r :: r in rs <==> r == rs[0] || r in rs[1..])
      && rs[0] !in rs[1..] && Different(rs[1..])
  {
    var rs := w.batches[batch];
    assert rs == [rs[0]] + rs[1..];
  }

  lemma CloseKeepsBatches(w: World, batch: CallId)
    requires Leaves(w.batches, w.place) && Closes(w.closes, w.place) && batch in w.batches && w.batches[batch] != []
    ensures
      var rs := w.batches[batch];
      var place := w.place[rs[0] := Closed];
      Leaves(w.batches[batch := rs[1..]], place) && Closes(w.closes + multiset{rs[0]}, place)
  {
    BatchAfterClose(w, batch);
    assert w.place[w.batches[batch][0]] == Leaving(batch);
  }

  lemma CloseElsewhere(w: World, r: RuntimeId)
    requires Serves(w.shared.sessions, w.place) && Builds(w.creators, w.place) && r in w.place && w.place[r].Leaving?
    ensures var place := w.place[r := Closed]; Serves(w.shared.sessions, place) && Builds(w.creators, place)
  {
    ServesElsewhere(w.shared.sessions, w.place, w.place[r := Closed]);
    BuildsElsewhere(w.creators, w.place, w.place[r := Closed]);
  }

  lemma CloseKeepsInv(w: World, batch: CallId)
    requires Inv(w) && batch in w.batches && w.batches[batch] != []
    ensures Inv(AfterClose(w, batch, false))
  {
    var r := w.batches[batch][0];
    assert w.place[r] == Leaving(batch);
    CloseElsewhere(w, r);
    CloseKeepsBatches(w, batch);
  }

  lemma DropKeepsBatches(w: World, batch: CallId)
    requires Leaves(w.batches, w.place) && Closes(w.closes, w.place) && batch in w.batches
    ensures
      var place := Moved(w.place, w.batches[batch], Dropped);
      Leaves(w.batches[batch := []], place) && Closes(w.closes, place)
  {
    assert forall r | r in w.batches[batch] :: r in w.place && w.place[r] == Leaving(batch);
  }

  lemma DropElsewhere(w: World, batch: CallId)
    requires Serves(w.shared.sessions, w.place) && Builds(w.creators, w.place) && batch in w.batches
    requires forall r | r in w.batches[batch] :: r in w.place && w.place[r] == Leaving(batch)
    ensures
      var place := Moved(w.place, w.batches[batch], Dropped);
      Serves(w.shared.sessions, place) && Builds(w.creators, place)
  {
    var place := Moved(w.place, w.batches[batch], Dropped);
    ServesElsewhere(w.shared.sessions, w.place, place);
    BuildsElsewhere(w.creators, w.place, place);
  }

  lemma DropKeeps(w: World, batch: CallId)
    requires Inv(w) && batch in w.batches
    ensures Inv(w.(batches := w.batches[batch := []], place := Moved(w.place, w.batches[batch], Dropped)))
  {
    DropElsewhere(w, batch);
    DropKeepsBatches(w, batch);
  }

  lemma RaisingCloseKeepsInv(w: World, batch: CallId)
    requires Inv(w) && batch in w.batches && w.batches[batch] != []
    ensures Inv(AfterClose(w, batch, true))
  {
    var v := AfterClose(w, batch, false);
    CloseKeepsInv(w, batch);
    DropKeeps(v, batch);
    assert v.batches[batch := []] == w.batches[batch := []];
  }

  predicate IsCreateStep(e: Event) {
    e.ReserveBy? || e.FactoryMakes? || e.FactoryRaises? || e.InstallBy? || e.ReleaseBy?
  }

  lemma CreateKeepsInv(w: World, e: Event)
    requires Inv(w) && IsCreateStep(e)
    ensures Inv(Next(w, e))
  {
    match e
    case ReserveBy(call) => if call !in w.creators { ReserveKeepsInv(w, call); }
    case FactoryMakes(call, r, id) =>
      if call in w.creators && w.creators[call].Reserved? && r !in w.place { MakeKeepsInv(w, call, r, id); }
    case FactoryRaises(call) => if call in w.creators && w.creators[call].Reserved? { RaiseKeepsInv(w, call); }
    case InstallBy(call, now) => if call in w.creators && w.creators[call].Built? { InstallKeepsInv(w, call, now); }
    case ReleaseBy(call, batch) =>
      if call in w.creators && !w.creators[call].Reserved? && !w.creators[call].Built? && batch !in w.batches {
        match w.creators[call]
        case Refused(r) => ReleasedKeepsInv(w, call, batch, r);
        case _ => ReleaseKeepsInv(w, call, batch);
      }
  }

  predicate IsTakeStep(e: Event) {
    e.DeleteOf? || e.PruneAt? || e.CloseManager?
  }

  lemma DeleteKeepsInv(w: World, id: SessionId, batch: CallId)
    requires Inv(w) && id in w.shared.sessions && batch !in w.batches
    ensures Inv(Leave(w, Without(w.shared, {id}), [w.shared.sessions[id].runtime], batch))
  {
    TakeOutKeepsInv(w, Without(w.shared, {id}), [id], {id}, batch);
    assert RuntimesOf(w.shared.sessions, [id]) == [w.shared.sessions[id].runtime];
  }

  lemma PruneKeepsInv(w: World, now: real, order: seq<SessionId>, batch: CallId)
    requires Inv(w) && Lists(order, Expired(w.shared.sessions, now)) && batch !in w.batches
    ensures Inv(Leave(w, Without(w.shared, Expired(w.shared.sessions, now)), RuntimesOf(w.shared.sessions, order), batch))
  {
    TakeOutKeepsInv(w, Without(w.shared, Expired(w.shared.sessions, now)), order, Expired(w.shared.sessions, now), batch);
  }

  lemma ShutKeepsInv(w: World, order: seq<SessionId>, batch: CallId)
    requires Inv(w) && Lists(order, w.shared.sessions.Keys) && batch !in w.batches
    ensures Inv(Leave(w, Shut(w.shared), RuntimesOf(w.shared.sessions, order), batch))
  {
    assert w.shared.sessions - w.shared.sessions.Keys == map[];
    TakeOutKeepsInv(w, Shut(w.shared), order, w.shared.sessions.Keys, batch);
  }

  lemma DeleteStepKeepsInv(w: World, e: Event)
    requires Inv(w) && e.DeleteOf?
    ensures Inv(Next(w, e))
  {
    if e.id in w.shared.sessions && e.batch !in w.batches {
      DeleteKeepsInv(w, e.id, e.batch);
    }
  }

  lemma PruneStepKeepsInv(w: World, e: Event)
    requires Inv(w) && e.PruneAt?
    ensures Inv(Next(w, e))
  {
    if Lists(e.order, Expired(w.shared.sessions, e.now)) && e.batch !in w.batches {
      PruneKeepsInv(w, e.now, e.order, e.batch);
    }
  }

  lemma ShutStepKeepsInv(w: World, e: Event)
    requires Inv(w) && e.CloseManager?
    ensures Inv(Next(w, e))
  {
    if Lists(e.order, w.shared.sessions.Keys) && e.batch !in w.batches {
      ShutKeepsInv(w, e.order, e.batch);
    }
  }

  lemma TakeKeepsInv(w: World, e: Event)
    requires Inv(w) && IsTakeStep(e)
    ensures Inv(Next(w, e))
  {
    match e
    case DeleteOf(id, batch) => DeleteStepKeepsInv(w, e);
    case PruneAt(now, order, batch) => PruneStepKeepsInv(w, e);
    case CloseManager(order, batch) => ShutStepKeepsInv(w, e);
  }

  lemma NextKeepsInv(w: World, e: Event)
    requires Inv(w)
    ensures Inv(Next(w, e))
  {
    if IsCreateStep(e) {
      CreateKeepsInv(w, e);
    } else if IsTakeStep(e) {
      TakeKeepsInv(w, e);
    } else {
      match e
      case GetOf(id, now) => TouchKeepsInv(w, id, now);
      case CloseNext(batch) => if batch in w.batches && w.batches[batch] != [] { CloseKeepsInv(w, batch); }
      case CloseNextRaises(batch) => if batch in w.batches && w.batches[batch] != [] { RaisingCloseKeepsInv(w, batch); }
    }
  }

  lemma {:induction false} InvHolds(events: seq<Event>)
    ensures Inv(Run(events))
  {
    if events != [] {
      InvHolds(events[..|events| - 1]);
      NextKeepsInv(Run(events[..|events| - 1]), events[|events| - 1]);
    }
  }

  // -------------------------------------------------------------------------
  // Main results, over every run
  // -------------------------------------------------------------------------

  /** At most 128 sessions are installed, counting those that creates in flight may still add. */
  lemma CapacityHolds(events: seq<Event>)
    ensures
      var w := Run(events);
      && |w.shared.sessions| + |MayInstall(w.creators)| <= MAX_HTTP_SESSIONS
      && w.shared.creating == |w.creators|
  {
    InvHolds(events);
  }

  /** With no create in flight, a create is turned away exactly when the manager is closed or full. */
  lemma AdmissionIsExact(events: seq<Event>)
    requires Run(events).creators == map[]
    ensures
      var s := Run(events).shared;
      && (Reserve(s).1.Some? <==> s.closed || |s.sessions| == MAX_HTTP_SESSIONS)
      && s.creating == 0
  {
    InvHolds(events);
  }

  lemma ClosedStays(w: World, e: Event)
    requires w.shared.closed
    ensures Next(w, e).shared.closed
  {
  }

  ghost predicate ClosedAfter(events: seq<Event>) {
    Run(events).shared.closed
  }

  lemma ClosedOneMore(events: seq<Event>, e: Event)
    requires ClosedAfter(events)
    ensures ClosedAfter(events + [e])
  {
    Then(events, e);
    ClosedStays(Run(events), e);
  }

  lemma {:induction false} ClosedForGood(events: seq<Event>, more: seq<Event>)
    requires ClosedAfter(events)
    ensures ClosedAfter(events + more)
  {
    if more == [] {
      assert events + more == events;
    } else {
      var init, last := more[..|more| - 1], more[|more| - 1];
      ClosedForGood(events, init);
      ClosedOneMore(events + init, last);
      assert events + more == (events + init) + [last];
    }
  }

  /** No session is installed once the manager is closed, at any later time. */
  lemma NothingAfterClose(events: seq<Event>, more: seq<Event>)
    requires Run(events).shared.closed
    ensures Run(events + more).shared.closed && Run(events + more).shared.sessions == map[]
  {
    ClosedForGood(events, more);
    InvHolds(events + more);
  }

  /** No call is under way: no slot is held and nothing waits to be closed. */
  ghost predicate Quiet(w: World) {
    w.creators == map[] && forall c | c in w.batches :: w.batches[c] == []
  }

  ghost predicate InstalledOnce(w: World, r: RuntimeId) {
    exists id :: id in w.shared.sessions && w.shared.sessions[id].runtime == r
      && forall other | other in w.shared.sessions && w.shared.sessions[other].runtime == r :: other == id
  }

  ghost predicate IsInstalled(w: World, r: RuntimeId) {
    exists id :: id in w.shared.sessions && w.shared.sessions[id].runtime == r
  }

  lemma PlaceTells(w: World, r: RuntimeId)
    requires Inv(w)
    ensures IsInstalled(w, r) <==> r in w.place && w.place[r].Serving?
    ensures IsInstalled(w, r) ==> InstalledOnce(w, r)
    ensures w.closes[r] == if r in w.place && w.place[r].Closed? then 1 else 0
  {
    assert r in w.closes ==> r in w.place;
  }

  /** A runtime is installed at most once, closed at most once, and never both. */
  lemma NeverBoth(events: seq<Event>, r: RuntimeId)
    ensures
      var w := Run(events);
      && w.closes[r] <= 1
      && (IsInstalled(w, r) ==> InstalledOnce(w, r) && w.closes[r] == 0)
  {
    InvHolds(events);
    PlaceTells(Run(events), r);
  }

  lemma QuietPlaces(w: World, r: RuntimeId)
    requires Inv(w) && Quiet(w) && r in w.place
    ensures w.place[r].Serving? || w.place[r].Closed? || w.place[r].Dropped?
  {
  }

  // When runtimes are lost: a close raises while its batch holds more.

  ghost predicate LosesRest(w: World, e: Event) {
    e.CloseNextRaises? && e.batch in w.batches && |w.batches[e.batch]| > 1
  }

  ghost predicate SomeLost(events: seq<Event>, n: nat)
    requires n <= |events|
  {
    exists i | 0 <= i < n :: LosesRest(Run(events[..i]), events[i])
  }

  ghost predicate AnyDropped(w: World) {
    exists r :: r in w.place && w.place[r].Dropped?
  }

  lemma DroppedNotClosed(w: World, batch: CallId, raises: bool, r: RuntimeId)
    requires batch in w.batches && w.batches[batch] != [] && r in w.place && w.place[r].Dropped?
    requires forall x | x in w.batches[batch] :: x in w.place && w.place[x] == Leaving(batch)
    ensures var v := AfterClose(w, batch, raises); r in v.place && v.place[r].Dropped?
  {
  }

  lemma DroppedNotEnded(w: World, e: Event, r: RuntimeId)
    requires !IsTakeStep(e) && !IsCreateStep(e) && Leaves(w.batches, w.place) && r in w.place && w.place[r].Dropped?
    ensures r in Next(w, e).place && Next(w, e).place[r].Dropped?
  {
    match e
    case GetOf(id, now) =>
    case CloseNext(batch) => if batch in w.batches && w.batches[batch] != [] { DroppedNotClosed(w, batch, false, r); }
    case CloseNextRaises(batch) => if batch in w.batches && w.batches[batch] != [] { DroppedNotClosed(w, batch, true, r); }
  }

  /** A dropped runtime stays dropped. */
  lemma DroppedStays(w: World, e: Event, r: RuntimeId)
    requires Serves(w.shared.sessions, w.place) && Builds(w.creators, w.place) && Leaves(w.batches, w.place)
    requires r in w.place && w.place[r].Dropped?
    ensures r in Next(w, e).place && Next(w, e).place[r].Dropped?
  {
    if IsTakeStep(e) {
      DroppedNotTaken(w, e, r);
    } else if IsCreateStep(e) {
      DroppedNotCreated(w, e, r);
    } else {
      DroppedNotEnded(w, e, r);
    }
  }

  lemma DroppedNotCreated(w: World, e: Event, r: RuntimeId)
    requires Builds(w.creators, w.place) && IsCreateStep(e) && r in w.place && w.place[r].Dropped?
    ensures r in Next(w, e).place && Next(w, e).place[r].Dropped?
  {
  }

  lemma DroppedNotTaken(w: World, e: Event, r: RuntimeId)
    requires Serves(w.shared.sessions, w.place) && IsTakeStep(e) && r in w.place && w.place[r].Dropped?
    ensures r in Next(w, e).place && Next(w, e).place[r].Dropped?
  {
    match e
    case DeleteOf(id, batch) =>
    case PruneAt(now, order, batch) =>
      if Lists(order, Expired(w.shared.sessions, now)) {
        TakenRuntimes(w, order, Expired(w.shared.sessions, now));
      }
    case CloseManager(order, batch) =>
      if Lists(order, w.shared.sessions.Keys) {
        TakenRuntimes(w, order, w.shared.sessions.Keys);
      }
  }

  /** The rest of a batch is dropped when its first close raises. */
  lemma RaisingCloseDropsTheRest(w: World, batch: CallId, r: RuntimeId)
    requires Inv(w) && batch in w.batches && w.batches[batch] != [] && r in w.batches[batch][1..]
    ensures
      var v := Next(w, CloseNextRaises(batch));
      r in v.place && v.place[r].Dropped? && !IsInstalled(v, r) && v.closes[r] == 0
  {
    BatchAfterClose(w, batch);
    NextKeepsInv(w, CloseNextRaises(batch));
    PlaceTells(Next(w, CloseNextRaises(batch)), r);
  }

  lemma OthersDropNothing(w: World, e: Event)
    requires !LosesRest(w, e) && !AnyDropped(w)
    ensures !AnyDropped(Next(w, e))
  {
    if e.CloseNextRaises? && e.batch in w.batches && |w.batches[e.batch]| == 1 {
      assert w.batches[e.batch][1..] == [];
    }
    forall r | r in Next(w, e).place ensures !Next(w, e).place[r].Dropped? {
    }
  }

  lemma DropStep(w: World, e: Event)
    requires Inv(w)
    ensures AnyDropped(Next(w, e)) <==> AnyDropped(w) || LosesRest(w, e)
  {
    if AnyDropped(w) {
      var r :| r in w.place && w.place[r].Dropped?;
      DroppedStays(w, e, r);
    } else if LosesRest(w, e) {
      var r := w.batches[e.batch][1];
      assert w.batches[e.batch][1..][0] == r;
      RaisingCloseDropsTheRest(w, e.batch, r);
    } else {
      OthersDropNothing(w, e);
    }
  }

  lemma {:induction false} DroppedExactlyWhen(events: seq<Event>, n: nat)
    requires n <= |events|
    ensures AnyDropped(Run(events[..n])) <==> SomeLost(events, n)
  {
    if n > 0 {
      DroppedExactlyWhen(events, n - 1);
      InvHolds(events[..n - 1]);
      DropStep(Run(events[..n - 1]), events[n - 1]);
      assert events[..n][..n - 1] == events[..n - 1];
      LostStep(events, n);
    }
  }

  lemma LostStep(events: seq<Event>, n: nat)
    requires 0 < n <= |events|
    ensures SomeLost(events, n) <==> SomeLost(events, n - 1) || LosesRest(Run(events[..n - 1]), events[n - 1])
  {
  }

  ghost predicate AccountedFor(w: World, r: RuntimeId) {
    if IsInstalled(w, r) then InstalledOnce(w, r) && w.closes[r] == 0 else w.closes[r] == 1
  }

  /**
   Once all calls have finished, every runtime the factory made is installed once and open, or was closed
   exactly once: exactly when no close raised while its batch still held other runtimes.
   */
  lemma InstalledOrClosedOnceExactlyWhen(events: seq<Event>)
    requires Quiet(Run(events))
    ensures (forall r | r in Run(events).place :: AccountedFor(Run(events), r)) <==> !SomeLost(events, |events|)
  {
    InvHolds(events);
    var w := Run(events);
    assert events[..|events|] == events;
    DroppedExactlyWhen(events, |events|);
    forall r | r in w.place ensures AccountedFor(w, r) <==> !w.place[r].Dropped? {
      PlaceTells(w, r);
      QuietPlaces(w, r);
    }
  }

  // -------------------------------------------------------------------------
  // A run that loses a runtime
  // -------------------------------------------------------------------------

  lemma Then(events: seq<Event>, e: Event)
    ensures Run(events + [e]) == Next(Run(events), e)
  {
    assert (events + [e])[..|events|] == events;
  }

  /** What a create that runs alone amounts to. */
  function Created(w: World, r: RuntimeId, id: SessionId): World {
    w.(shared := w.shared.(sessions := w.shared.sessions[id := Session(r, 0.0)]), place := w.place[r := Serving(id)])
  }

  lemma Reserves(w: World, call: CallId)
    requires w.creators == map[] && w.shared.creating == 0 && !w.shared.closed && |w.shared.sessions| < MAX_HTTP_SESSIONS
    ensures Next(w, ReserveBy(call)) == w.(shared := w.shared.(creating := 1), creators := map[call := Reserved])
  {
  }

  lemma Makes(w: World, call: CallId, r: RuntimeId, id: SessionId)
    requires w.creators == map[call := Reserved] && r !in w.place
    ensures Next(w, FactoryMakes(call, r, id)) ==
            w.(creators := map[call := Built(r, id)], place := w.place[r := Building(call)])
  {
    assert w.creators[call := Built(r, id)] == map[call := Built(r, id)];
  }

  lemma Installs(w: World, call: CallId, r: RuntimeId, id: SessionId)
    requires w.creators == map[call := Built(r, id)] && !w.shared.closed && id !in w.shared.sessions
    ensures Next(w, InstallBy(call, 0.0)) ==
            w.(shared := w.shared.(sessions := w.shared.sessions[id := Session(r, 0.0)]),
               creators := map[call := Installed], place := w.place[r := Serving(id)])
  {
    assert w.creators[call := Installed] == map[call := Installed];
  }

  lemma Releases(w: World, call: CallId, batch: CallId)
    requires w.creators == map[call := Installed] && batch !in w.batches
    ensures Next(w, ReleaseBy(call, batch)) == w.(shared := Release(w.shared), creators := map[])
  {
    assert w.creators - {call} == map[];
  }

  lemma CreateAlone(events: seq<Event>, w: World, r: RuntimeId, id: SessionId) returns (more: seq<Event>)
    requires w == Run(events) && w.creators == map[] && w.batches == map[] && w.shared.creating == 0
    requires !w.shared.closed && |w.shared.sessions| < MAX_HTTP_SESSIONS && r !in w.place && id !in w.shared.sessions
    ensures Run(more) == Created(w, r, id)
  {
    Then(events, ReserveBy(0));
    Reserves(w, 0);
    var reserved := events + [ReserveBy(0)];
    Then(reserved, FactoryMakes(0, r, id));
    Makes(Run(reserved), 0, r, id);
    var made := reserved + [FactoryMakes(0, r, id)];
    Then(made, InstallBy(0, 0.0));
    Installs(Run(made), 0, r, id);
    var installed := made + [InstallBy(0, 0.0)];
    Then(installed, ReleaseBy(0, 0));
    Releases(Run(installed), 0, 0);
    more := installed + [ReleaseBy(0, 0)];
    assert w.place[r := Building(0)][r := Serving(id)] == w.place[r := Serving(id)];
  }

  /** The manager with two sessions. */
  const TWO_SESSIONS := Created(Created(START, 0, ""), 1, "x")

  lemma TwoSessions() returns (events: seq<Event>)
    ensures Run(events) == TWO_SESSIONS
  {
    assert Run([]) == START;
    var one := CreateAlone([], START, 0, "");
    events := CreateAlone(one, Created(START, 0, ""), 1, "x");
  }

  lemma ShutTwo(w: World)
    requires w == TWO_SESSIONS
    ensures Next(w, CloseManager(["", "x"], 0)).batches == map[0 := [0, 1]]
    ensures Next(w, CloseManager(["", "x"], 0)).creators == map[]
  {
    assert w.shared.sessions.Keys == {"", "x"};
    assert Lists(["", "x"], w.shared.sessions.Keys);
    assert RuntimesOf(w.shared.sessions, ["", "x"]) == [0, 1];
  }

  lemma RaiseFirst(w: World)
    requires Inv(w) && w.batches == map[0 := [0, 1]] && w.creators == map[]
    ensures var v := Next(w, CloseNextRaises(0)); Quiet(v) && 1 in v.place && !AccountedFor(v, 1)
  {
    assert [0, 1][1..] == [1];
    RaisingCloseDropsTheRest(w, 0, 1);
  }

  /** Two sessions, a shutdown whose first runtime close raises: all calls are over and one runtime is lost. */
  lemma ARunThatLoses() returns (events: seq<Event>)
    ensures Quiet(Run(events)) && 1 in Run(events).place && !AccountedFor(Run(events), 1)
  {
    var two := TwoSessions();
    Then(two, CloseManager(["", "x"], 0));
    ShutTwo(Run(two));
    var shut := two + [CloseManager(["", "x"], 0)];
    InvHolds(shut);
    RaiseFirst(Run(shut));
    Then(shut, CloseNextRaises(0));
    events := shut + [CloseNextRaises(0)];
  }
}
