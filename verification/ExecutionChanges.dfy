/**
 What each change of the execution registry does to the records it finds and when it is refused, record by
 record (src-tauri/src/control_plane/execution_registry.rs).
 */
module ExecutionChanges {
  import opened Options
  import opened ExecutionRegistry
  import opened ExecutionRuns

  /** One record is replaced and no other. */
  ghost predicate Replaces(s: Records, t: Records, i: nat, r: Record) {
    && i < |s| && |t| == |s| && t[i] == r
    && forall k | 0 <= k < |s| && k != i :: t[k] == s[k]
  }

  ghost predicate FirstOfPublic(s: Records, pub: PublicSessionId, i: nat) {
    i < |s| && s[i].pub == pub && forall k | 0 <= k < i :: s[k].pub != pub
  }

  ghost predicate FirstOfId(s: Records, id: ExecutionId, i: nat) {
    i < |s| && s[i].id == id && forall k | 0 <= k < i :: s[k].id != id
  }

  lemma PublicIndex(s: Records, pub: PublicSessionId, i: nat)
    requires FirstOfPublic(s, pub, i)
    ensures IndexOfPublic(s, pub) == i
  {
  }

  lemma IdIndex(s: Records, id: ExecutionId, i: nat)
    requires FirstOfId(s, id, i)
    ensures IndexOfId(s, id) == i
  {
  }

  // -------------------------------------------------------------------------
  // Starting and ending
  // -------------------------------------------------------------------------

  /**
   A start is refused when 64 executions are live or the public session is taken; otherwise a running
   execution is added after the others, with its token, no handle, and not orphaned.
   */
  lemma StartIsExact(s: Records, c: Change)
    requires c.StartOwned?
    ensures
      var taken := exists k :: 0 <= k < |s| && s[k].pub == c.pub;
      if LiveCount(s) >= 64 then Apply(s, c) == Err(CapacityExceeded)
      else if taken then Apply(s, c) == Err(PublicSessionCollision)
      else
        && Apply(s, c).Ok? && |Apply(s, c).value| == |s| + 1 && Apply(s, c).value[..|s|] == s
        && var r := Apply(s, c).value[|s|];
           && r.id == c.id && r.task == c.task && r.pub == c.pub && r.owner == c.owner && r.hash == Some(HashOf(c.token))
           && r.handle.None? && r.state == Running && r.startedAt == c.now && r.observedAt == c.now && r.orphanedAt.None?
  {
    var i := IndexOfPublic(s, c.pub);
    assert i < |s| <==> exists k :: 0 <= k < |s| && s[k].pub == c.pub;
  }

  /**
   The end of a live execution is recorded as told, with its texts bounded, and takes its handle and token.
   The end of one that has ended is accepted when the outcome is the same, and changes nothing.
   */
  lemma FinishIsExact(s: Records, c: Change, i: nat)
    requires c.Finish? && FirstOfId(s, c.id, i)
    ensures
      var t := c.terminal;
      if !Live(s[i]) then
        Apply(s, c) == if s[i].state.terminal.outcome == t.outcome then Ok(s) else Err(AlreadyTerminal(s[i].state.terminal.outcome))
      else
        && Apply(s, c).Ok? && i < |Apply(s, c).value|
        && Replaces(s, Apply(s, c).value, i, s[i].(
             state := Ended(Terminal(
               t.outcome, t.exitCode, Bounded(t.signal), OutputRefs(t.outputRefs, 4), Bounded(t.errorCode), t.completedAt)),
             handle := None, hash := None, observedAt := t.completedAt))
  {
    IdIndex(s, c.id, i);
  }

  /** The texts that name stored output, in their order. */
  function StoredOutputs(refs: seq<string>): seq<string> {
    if refs == [] then [] else (if "lb-output-" <= refs[0] then [refs[0]] else []) + StoredOutputs(refs[1..])
  }

  lemma {:induction false} OutputRefAt(refs: seq<string>, room: nat, i: nat)
    requires i < |OutputRefs(refs, room)|
    ensures i < |StoredOutputs(refs)| && OutputRefs(refs, room)[i] == BoundedToken(StoredOutputs(refs)[i])
  {
    if !("lb-output-" <= refs[0]) {
      OutputRefAt(refs[1..], room, i);
    } else if i > 0 {
      OutputRefAt(refs[1..], room - 1, i - 1);
    }
  }

  lemma {:induction false} OutputRefsCount(refs: seq<string>, room: nat)
    ensures var n := |StoredOutputs(refs)|; |OutputRefs(refs, room)| == if n <= room then n else room
  {
    if refs != [] && room > 0 {
      OutputRefsCount(refs[1..], if "lb-output-" <= refs[0] then room - 1 else room);
    }
  }

  /** A record keeps the first texts that name stored output, each cut to its first 128 characters. */
  lemma OutputRefsAreFirst(refs: seq<string>, room: nat)
    ensures var named, r := StoredOutputs(refs), OutputRefs(refs, room);
            && |r| == (if |named| <= room then |named| else room)
            && forall i | 0 <= i < |r| :: r[i] == if |named[i]| <= 128 then named[i] else named[i][..128]
  {
    OutputRefsCount(refs, room);
    forall i | 0 <= i < |OutputRefs(refs, room)| ensures OutputRefs(refs, room)[i] == BoundedToken(StoredOutputs(refs)[i]) {
      OutputRefAt(refs, room, i);
    }
  }

  lemma UnknownExecutionIsRefused(s: Records, c: Change)
    requires (c.Finish? || c.BindHandle?) && forall k | 0 <= k < |s| :: s[k].id != c.id
    requires c.BindHandle? ==> !HandleTaken(s, c.id, c.handle)
    ensures Apply(s, c) == Err(UnknownExecution)
  {
  }

  /** A handle is bound once, and not while another live execution runs under it. */
  lemma BindIsExact(s: Records, c: Change, i: nat)
    requires c.BindHandle? && FirstOfId(s, c.id, i)
    ensures
      var taken := exists k :: 0 <= k < |s| && s[k].id != c.id && Live(s[k]) && s[k].handle == Some(c.handle);
      if taken || (s[i].handle.Some? && s[i].handle != Some(c.handle)) then Apply(s, c) == Err(RuntimeHandleCollision)
      else Apply(s, c).Ok? && Replaces(s, Apply(s, c).value, i, s[i].(handle := Some(c.handle)))
  {
    IdIndex(s, c.id, i);
    assert HandleTaken(s, c.id, c.handle) <==>
           exists k :: 0 <= k < |s| && s[k].id != c.id && Live(s[k]) && s[k].handle == Some(c.handle);
  }

  // -------------------------------------------------------------------------
  // Ownership
  // -------------------------------------------------------------------------

  /** An adoption is answered by the first thing that forbids it; one that nothing forbids takes the record over. */
  lemma AdoptIsExact(s: Records, c: Change, i: nat)
    requires c.AdoptOwner? && FirstOfPublic(s, c.pub, i)
    ensures
      var r := s[i];
      if !Live(r) then Apply(s, c) == Err(AlreadyTerminal(r.state.terminal.outcome))
      else if r.owner.Some? then Apply(s, c) == Err(OwnerConflict(r.owner.value))
      else if r.orphanedAt.None? then Apply(s, c) == Err(NotOrphaned)
      else if r.hash != Some(HashOf(c.token)) then Apply(s, c) == Err(AdoptionDenied)
      else
        && Apply(s, c).Ok?
        && Replaces(s, Apply(s, c).value, i, r.(
             owner := Some(c.owner'), hash := Some(HashOf(c.next)), orphanedAt := None, observedAt := c.now))
  {
    PublicIndex(s, c.pub, i);
  }

  lemma UnknownPublicIsRefused(s: Records, c: Change)
    requires c.AdoptOwner? && forall k | 0 <= k < |s| :: s[k].pub != c.pub
    ensures Apply(s, c) == Err(UnknownPublicSession)
  {
  }

  /** A live execution of the task that the session may not be given. */
  ghost predicate Obstructs(r: Record, task: TaskId, owner: SessionId) {
    r.task == task && Live(r) && r.owner != Some(owner) && (r.owner.Some? || r.orphanedAt.None?)
  }

  lemma {:induction false} FirstObstacle(s: Records, task: TaskId, owner: SessionId, i: nat)
    requires i <= |s| && forall k | 0 <= k < i :: !Obstructs(s[k], task, owner)
    requires i < |s| ==> Obstructs(s[i], task, owner)
    ensures TransferObstacle(s, task, owner) ==
            if i == |s| then None
            else if s[i].owner.Some? then Some(OwnerConflict(s[i].owner.value)) else Some(NotOrphaned)
  {
    if i > 0 {
      assert !Obstructs(s[0], task, owner);
      FirstObstacle(s[1..], task, owner, i - 1);
    }
  }

  /**
   The executions of a task are transferred all together or not at all: the first that obstructs decides the
   error, and without one every execution of the task goes to the session and no other is touched.
   */
  lemma TransferIsExact(s: Records, c: Change, i: nat)
    requires c.TransferWorkflow? && i <= |s| && forall k | 0 <= k < i :: !Obstructs(s[k], c.task, c.owner')
    requires i < |s| ==> Obstructs(s[i], c.task, c.owner')
    ensures
      if i < |s| then
        Apply(s, c) == Err(if s[i].owner.Some? then OwnerConflict(s[i].owner.value) else NotOrphaned)
      else
        && Apply(s, c).Ok? && |Apply(s, c).value| == |s|
        && forall k | 0 <= k < |s| ::
             Apply(s, c).value[k] == if s[k].task == c.task then s[k].(owner := Some(c.owner'), orphanedAt := None) else s[k]
  {
    FirstObstacle(s, c.task, c.owner', i);
  }

  /** A session that goes away orphans its live executions; an observation renews the running ones. */
  lemma SweepsAreExact(s: Records, c: Change, i: nat)
    requires (c.OrphanOwnedBy? || c.ObserveAllRunning?) && i < |s|
    ensures Apply(s, c).Ok? && |Apply(s, c).value| == |s|
    ensures
      var r, q := s[i], Apply(s, c).value[i];
      if c.OrphanOwnedBy? && Live(r) && r.owner == Some(c.owner') then
        q == r.(owner := None, orphanedAt := if r.orphanedAt.Some? then r.orphanedAt else Some(c.now))
      else if c.ObserveAllRunning? && r.state == Running then q == r.(observedAt := c.now)
      else q == r
  {
  }

  /**
   Reaping declares lost the live executions that have been orphaned for thirty minutes or started a day ago,
   and no others; the orphaned ones are named so even if they are a day old.
   */
  lemma ReapIsExact(s: Records, c: Change, i: nat)
    requires c.ReapStale? && i < |s|
    ensures Apply(s, c).Ok? && |Apply(s, c).value| == |s|
    ensures
      var r, q := s[i], Apply(s, c).value[i];
      var expired := r.orphanedAt.Some? && c.now >= r.orphanedAt.value + 1_800_000;
      var aged := c.now >= r.startedAt + 86_400_000;
      if Live(r) && (expired || aged) then
        q == r.(hash := None, observedAt := c.now, state := Ended(Terminal(Lost, None, None, [],
               Some(if expired then "ExecutionOrphanExpired" else "ExecutionMaxAgeExceeded"), c.now)))
      else q == r
  {
  }

  // -------------------------------------------------------------------------
  // Cancellation intents
  // -------------------------------------------------------------------------

  /**
   An intent is for the one execution of its public session while that is live, its text cut to 128
   characters; asking for it finds what was requested last, and clearing it forgets it.
   */
  lemma IntentsAreExact(m: Memory, pub: PublicSessionId, signal: string, i: nat)
    requires FirstOfPublic(m.executions, pub, i)
    ensures
      var r, (n, error) := m.executions[i], RequestCancellation(m, pub, signal);
      var text := if |signal| <= 128 then signal else signal[..128];
      && n.executions == m.executions
      && (Live(r) ==> error.None? && n.signals == m.signals[r.id := text] && CancellationSignal(n, pub) == Some(text))
      && (!Live(r) ==> error == Some(AlreadyTerminal(r.state.terminal.outcome)) && n == m && CancellationSignal(m, pub).None?)
      && ClearCancellation(m, pub) == m.(signals := m.signals - {r.id}) && CancellationSignal(ClearCancellation(m, pub), pub).None?
      && ForPublicSession(m, pub) == Some(r)
  {
    PublicIndex(m.executions, pub, i);
  }

  lemma {:induction false} LostOnes(s: Records, now: nat, id: ExecutionId)
    ensures id in LostIds(s, now) <==> exists k :: 0 <= k < |s| && s[k].id == id && Stale(s[k], now)
  {
    if s != [] {
      LostOnes(s[1..], now, id);
      if k: nat :| k < |s[1..]| && s[1..][k].id == id && Stale(s[1..][k], now) {
        assert s[k + 1].id == id;
      }
    }
  }

  /** An intent outlives every operation but the end of its execution, told or by reaping, and a failed write. */
  lemma IntentsOutlive(m: Memory, c: Change, persisted: bool, id: ExecutionId)
    requires id in m.signals
    ensures
      var n, s := Perform(m, c, persisted).0, m.executions;
      var ends := (c.Finish? && c.id == id) || (c.ReapStale? && exists k :: 0 <= k < |s| && s[k].id == id && Stale(s[k], c.now));
      && (id in n.signals <==> !(Apply(s, c).Ok? && persisted && ends))
      && (id in n.signals ==> n.signals[id] == m.signals[id])
      && n.signals.Keys <= m.signals.Keys
  {
    if c.ReapStale? {
      LostOnes(m.executions, c.now, id);
    }
  }

  // -------------------------------------------------------------------------
  // Over every run
  // -------------------------------------------------------------------------

  lemma Then(events: seq<Event>, e: Event)
    ensures Run(events + [e]) == Next(Run(events), e)
  {
    assert (events + [e])[..|events|] == events;
  }

  /** A record of the list after a sweep is what the sweep made of one before it. */
  lemma SweptFrom(s: Records, c: Change, q: Record) returns (i: nat)
    requires Apply(s, c).Ok? && !c.StartOwned? && q in Trimmed(Apply(s, c).value)
    ensures i < |s| && |Apply(s, c).value| == |s| && q == Apply(s, c).value[i]
  {
    ChangeSteps(s, c);
    TrimmedMembers(Apply(s, c).value);
    i :| 0 <= i < |s| && Apply(s, c).value[i] == q;
  }

  lemma StaysListed(s: Records, c: Change, i: nat)
    requires Apply(s, c).Ok? && i < |Apply(s, c).value| && Live(Apply(s, c).value[i])
    ensures Apply(s, c).value[i] in Trimmed(Apply(s, c).value)
  {
    TrimmedMembers(Apply(s, c).value);
    assert Apply(s, c).value[i] in Apply(s, c).value;
  }

  /**
   Once a session's executions are orphaned it owns no live one, and each it owned is still listed, live,
   without owner, orphaned from that moment and otherwise as it was.
   */
  lemma OrphaningReleases(events: seq<Event>, owner: SessionId, now: nat, r: Record)
    requires r in Run(events).mem.executions && Live(r) && r.owner == Some(owner)
    ensures
      var after := Run(events + [Do(OrphanOwnedBy(owner, now), true)]).mem.executions;
      && r.(owner := None, orphanedAt := Some(now)) in after
      && forall q | q in after && Live(q) :: q.owner != Some(owner)
  {
    var w, c := Run(events), OrphanOwnedBy(owner, now);
    var s := w.mem.executions;
    InvHolds(events);
    Then(events, Do(c, true));
    var i :| 0 <= i < |s| && s[i] == r;
    assert RecordOk(s[i]);
    SweepsAreExact(s, c, i);
    StaysListed(s, c, i);
    forall q | q in Trimmed(Apply(s, c).value) && Live(q) ensures q.owner != Some(owner) {
      var k := SweptFrom(s, c, q);
      SweepsAreExact(s, c, k);
    }
  }

  /** After a reaping no live execution is stale, and each that was not is listed as it was. */
  lemma ReapingClears(events: seq<Event>, now: nat, r: Record)
    requires r in Run(events).mem.executions && Live(r)
    ensures
      var after := Run(events + [Do(ReapStale(now), true)]).mem.executions;
      && (now < r.startedAt + 86_400_000 && (r.orphanedAt.Some? ==> now < r.orphanedAt.value + 1_800_000) ==> r in after)
      && forall q | q in after && Live(q) ::
           now < q.startedAt + 86_400_000 && (q.orphanedAt.Some? ==> now < q.orphanedAt.value + 1_800_000)
  {
    var w, c := Run(events), ReapStale(now);
    var s := w.mem.executions;
    Then(events, Do(c, true));
    var i :| 0 <= i < |s| && s[i] == r;
    ReapIsExact(s, c, i);
    if Live(Apply(s, c).value[i]) {
      StaysListed(s, c, i);
    }
    forall q | q in Trimmed(Apply(s, c).value) && Live(q)
      ensures now < q.startedAt + 86_400_000 && (q.orphanedAt.Some? ==> now < q.orphanedAt.value + 1_800_000)
    {
      var k := SweptFrom(s, c, q);
      ReapIsExact(s, c, k);
    }
  }

  // Tokens and handles never reach the disk.

  ghost predicate NoSecrets(file: Option<Records>) {
    file.Some? ==> forall r | r in file.value :: r.hash.None? && r.handle.None?
  }

  lemma StoredHasNone(s: Records)
    ensures NoSecrets(Some(StoredAll(s)))
  {
  }

  lemma NextHidesSecrets(w: World, e: Event)
    requires NoSecrets(w.file)
    ensures NoSecrets(Next(w, e).file)
  {
    match e
    case Do(c, persisted) => StoredHasNone(Perform(w.mem, c, persisted).0.executions);
    case Crash(c, replaced, clock) =>
      if Apply(w.mem.executions, c).Ok? {
        StoredHasNone(Trimmed(Apply(w.mem.executions, c).value));
      }
      StoredHasNone(Open(LeftBehind(w, c, replaced), clock));
    case RequestCancel(_, _) =>
    case ClearCancel(_) =>
  }

  /** Over every run, whatever crashes: the state file holds no token hash and no runtime handle. */
  lemma {:induction false} SecretsStayInMemory(events: seq<Event>)
    ensures NoSecrets(Run(events).file)
  {
    if events != [] {
      SecretsStayInMemory(events[..|events| - 1]);
      NextHidesSecrets(Run(events[..|events| - 1]), events[|events| - 1]);
    }
  }
}
