/**
 Runs of the execution registry from empty: operations, failed writes, crashes at any point of a
 transaction and reopening.
 */
module ExecutionRuns {
  import opened Options
  import opened ExecutionRegistry

  // -------------------------------------------------------------------------
  // What one change does to each record
  // -------------------------------------------------------------------------

  ghost predicate RecordOk(r: Record) {
    (r.orphanedAt.Some? ==> r.owner.None?) && (!Live(r) ==> r.hash.None?)
  }

  /** What every change keeps of a record it does not remove. */
  ghost predicate Stepped(r: Record, q: Record) {
    && q.id == r.id && q.pub == r.pub && q.task == r.task && q.startedAt == r.startedAt
    && (!Live(r) ==> q.state == r.state)
    && (RecordOk(r) ==> RecordOk(q))
  }

  lemma ChangeSteps(s: Records, c: Change)
    requires Apply(s, c).Ok? && !c.StartOwned?
    ensures |Apply(s, c).value| == |s|
    ensures forall i | 0 <= i < |s| :: Stepped(s[i], Apply(s, c).value[i])
  {
  }

  /** Which session may act on a live execution changes only by losing it, or from an orphaned state. */
  lemma OwnershipIsNotTaken(s: Records, c: Change, i: nat)
    requires Apply(s, c).Ok? && i < |s| && Live(s[i]) && RecordOk(s[i])
    ensures i < |Apply(s, c).value|
    ensures var q := Apply(s, c).value[i];
            q.owner != s[i].owner ==>
              if s[i].owner.Some? then c.OrphanOwnedBy? && c.owner' == s[i].owner.value && q.owner.None? && q.orphanedAt.Some?
              else s[i].orphanedAt.Some? && q.owner.Some? && (c.AdoptOwner? || c.TransferWorkflow?)
  {
    if c.TransferWorkflow? && s[i].task == c.task {
      NoObstacle(s, c.task, c.owner', i);
    }
  }

  lemma {:induction false} NoObstacle(s: Records, task: TaskId, owner: SessionId, i: nat)
    requires TransferObstacle(s, task, owner).None? && i < |s| && s[i].task == task && Live(s[i])
    ensures s[i].owner == Some(owner) || (s[i].owner.None? && s[i].orphanedAt.Some?)
  {
    if i > 0 {
      NoObstacle(s[1..], task, owner, i - 1);
    }
  }

  // -------------------------------------------------------------------------
  // Records beside each other
  // -------------------------------------------------------------------------

  /** Identifiers and live tokens are not shared, and live executions do not share a handle. */
  ghost predicate Compatible(r: Record, q: Record) {
    && r.id != q.id && r.pub != q.pub
    && (Live(r) && Live(q) && r.handle.Some? ==> r.handle != q.handle)
    && (r.hash.Some? ==> r.hash != q.hash)
  }

  ghost predicate AllCompatible(s: Records) {
    forall i, j | 0 <= i < j < |s| :: Compatible(s[i], s[j])
  }

  /** The change took nothing new for this record. */
  ghost predicate Weakened(r: Record, q: Record) {
    && q.id == r.id && q.pub == r.pub && (Live(q) ==> Live(r))
    && (q.handle == r.handle || q.handle.None?) && (q.hash == r.hash || q.hash.None?)
  }

  lemma WeakenedStaysCompatible(s: Records, t: Records)
    requires AllCompatible(s) && |t| == |s| && forall i | 0 <= i < |s| :: Weakened(s[i], t[i])
    ensures AllCompatible(t)
  {
    forall i, j | 0 <= i < j < |t| ensures Compatible(t[i], t[j]) {
      assert Compatible(s[i], s[j]) && Weakened(s[i], t[i]) && Weakened(s[j], t[j]);
    }
  }

  lemma WeakeningChanges(s: Records, c: Change)
    requires Apply(s, c).Ok? && !c.StartOwned? && !c.AdoptOwner? && !c.BindHandle?
    ensures forall i | 0 <= i < |s| :: Weakened(s[i], Apply(s, c).value[i])
  {
  }

  ghost predicate TokensIssued(s: Records, issued: set<Token>) {
    forall i | 0 <= i < |s| && s[i].hash.Some? :: s[i].hash.value.token in issued
  }

  ghost predicate IdsUsed(s: Records, used: set<ExecutionId>) {
    forall i | 0 <= i < |s| :: s[i].id in used
  }

  /** The identifiers and tokens a change draws are new. */
  predicate Fresh(c: Change, used: set<ExecutionId>, issued: set<Token>) {
    match c
    case StartOwned(id, _, _, _, token, _) => id !in used && token !in issued
    case AdoptOwner(_, _, _, next, _) => next !in issued
    case _ => true
  }

  function Issues(c: Change): set<Token> {
    match c
    case StartOwned(_, _, _, _, token, _) => {token}
    case AdoptOwner(_, _, _, next, _) => {next}
    case _ => {}
  }

  function Uses(c: Change): set<ExecutionId> {
    if c.StartOwned? then {c.id} else {}
  }

  lemma StartStaysCompatible(s: Records, c: Change, used: set<ExecutionId>, issued: set<Token>)
    requires c.StartOwned? && Apply(s, c).Ok? && Fresh(c, used, issued)
    requires AllCompatible(s) && TokensIssued(s, issued) && IdsUsed(s, used)
    ensures AllCompatible(Apply(s, c).value)
  {
    var t := Apply(s, c).value;
    forall i, j | 0 <= i < j < |t| ensures Compatible(t[i], t[j]) {
      assert j < |s| ==> Compatible(s[i], s[j]);
    }
  }

  lemma AdoptStaysCompatible(s: Records, c: Change, issued: set<Token>)
    requires c.AdoptOwner? && Apply(s, c).Ok? && c.next !in issued
    requires AllCompatible(s) && TokensIssued(s, issued)
    ensures AllCompatible(Apply(s, c).value)
  {
    var t := Apply(s, c).value;
    forall i, j | 0 <= i < j < |t| ensures Compatible(t[i], t[j]) {
      assert Compatible(s[i], s[j]);
    }
  }

  lemma BindStaysCompatible(s: Records, c: Change)
    requires c.BindHandle? && Apply(s, c).Ok? && AllCompatible(s)
    ensures AllCompatible(Apply(s, c).value)
  {
    var t, k := Apply(s, c).value, IndexOfId(s, c.id);
    assert !HandleTaken(s, c.id, c.handle);
    forall i, j | 0 <= i < j < |t| ensures Compatible(t[i], t[j]) {
      assert Compatible(s[i], s[j]);
    }
  }

  lemma {:induction false} TrimmedStaysCompatible(s: Records)
    requires AllCompatible(s)
    ensures AllCompatible(Trimmed(s))
  {
    if s != [] {
      var rest, t := Trimmed(s[1..]), Trimmed(s);
      TrimmedStaysCompatible(s[1..]);
      TrimmedMembers(s[1..]);
      forall j | 0 <= j < |rest| ensures Compatible(s[0], rest[j]) {
        assert rest[j] in s[1..];
        var k :| 1 <= k < |s| && s[k] == rest[j];
      }
      forall i, j | 0 <= i < j < |t| ensures Compatible(t[i], t[j]) {
        if |t| == |rest| {
          assert t == rest;
        } else {
          assert t[j] == rest[j - 1] && (i > 0 ==> t[i] == rest[i - 1]);
        }
      }
    }
  }

  // -------------------------------------------------------------------------
  // The record list after any change
  // -------------------------------------------------------------------------

  ghost predicate ListOk(s: Records, used: set<ExecutionId>, issued: set<Token>) {
    && AllCompatible(s) && TokensIssued(s, issued) && IdsUsed(s, used)
    && (forall i | 0 <= i < |s| :: RecordOk(s[i]))
    && LiveCount(s) <= MAX_ACTIVE_EXECUTIONS && EndedCount(s) <= MAX_TERMINAL_EXECUTIONS
  }

  lemma {:induction false} FewerLive(s: Records, t: Records)
    requires |t| == |s| && forall i | 0 <= i < |s| :: Live(t[i]) ==> Live(s[i])
    ensures LiveCount(t) <= LiveCount(s)
  {
    if s != [] {
      FewerLive(s[1..], t[1..]);
    }
  }

  lemma {:induction false} OneMoreLive(s: Records, r: Record)
    requires Live(r)
    ensures LiveCount(s + [r]) == LiveCount(s) + 1
  {
    if s == [] {
      assert s + [r] == [r];
    } else {
      assert (s + [r])[1..] == s[1..] + [r];
      OneMoreLive(s[1..], r);
    }
  }

  lemma ChangeStaysCompatible(s: Records, c: Change, used: set<ExecutionId>, issued: set<Token>)
    requires Apply(s, c).Ok? && Fresh(c, used, issued)
    requires AllCompatible(s) && TokensIssued(s, issued) && IdsUsed(s, used)
    ensures AllCompatible(Apply(s, c).value)
  {
    if c.StartOwned? {
      StartStaysCompatible(s, c, used, issued);
    } else if c.AdoptOwner? {
      AdoptStaysCompatible(s, c, issued);
    } else if c.BindHandle? {
      BindStaysCompatible(s, c);
    } else {
      ChangeSteps(s, c);
      WeakeningChanges(s, c);
      WeakenedStaysCompatible(s, Apply(s, c).value);
    }
  }

  lemma ChangeKeepsMarks(s: Records, c: Change, used: set<ExecutionId>, issued: set<Token>)
    requires Apply(s, c).Ok? && TokensIssued(s, issued) && IdsUsed(s, used)
    requires forall i | 0 <= i < |s| :: RecordOk(s[i])
    ensures var t := Apply(s, c).value;
            && TokensIssued(t, issued + Issues(c)) && IdsUsed(t, used + Uses(c))
            && forall i | 0 <= i < |t| :: RecordOk(t[i])
  {
    var t := Apply(s, c).value;
    if !c.StartOwned? {
      ChangeSteps(s, c);
      forall i | 0 <= i < |t| ensures RecordOk(t[i]) && t[i].id in used {
        assert Stepped(s[i], t[i]);
      }
      if !c.AdoptOwner? && !c.BindHandle? {
        WeakeningChanges(s, c);
        forall i | 0 <= i < |t| && t[i].hash.Some? ensures t[i].hash.value.token in issued {
          assert Weakened(s[i], t[i]);
        }
      }
    }
  }

  lemma ChangeKeepsLiveBound(s: Records, c: Change)
    requires Apply(s, c).Ok? && LiveCount(s) <= MAX_ACTIVE_EXECUTIONS
    ensures LiveCount(Apply(s, c).value) <= MAX_ACTIVE_EXECUTIONS
  {
    if c.StartOwned? {
      OneMoreLive(s, Started(c.id, c.task, c.pub, c.owner, c.token, c.now));
    } else {
      ChangeSteps(s, c);
      forall i | 0 <= i < |s| ensures Live(Apply(s, c).value[i]) ==> Live(s[i]) {
        assert Stepped(s[i], Apply(s, c).value[i]);
      }
      FewerLive(s, Apply(s, c).value);
    }
  }

  lemma TrimmedListOk(s: Records, used: set<ExecutionId>, issued: set<Token>)
    requires AllCompatible(s) && TokensIssued(s, issued) && IdsUsed(s, used)
    requires (forall i | 0 <= i < |s| :: RecordOk(s[i])) && LiveCount(s) <= MAX_ACTIVE_EXECUTIONS
    ensures ListOk(Trimmed(s), used, issued)
  {
    TrimmedStaysCompatible(s);
    TrimmedCounts(s);
    TrimmedMembers(s);
    var t := Trimmed(s);
    forall i | 0 <= i < |t| ensures t[i] in s {
      assert t[i] in t;
    }
  }

  /** Every operation keeps the list within its bounds and its records apart. */
  lemma ChangeKeepsListOk(s: Records, c: Change, used: set<ExecutionId>, issued: set<Token>)
    requires ListOk(s, used, issued) && Fresh(c, used, issued) && Apply(s, c).Ok?
    ensures ListOk(Trimmed(Apply(s, c).value), used + Uses(c), issued + Issues(c))
  {
    ChangeStaysCompatible(s, c, used, issued);
    ChangeKeepsMarks(s, c, used, issued);
    ChangeKeepsLiveBound(s, c);
    TrimmedListOk(Apply(s, c).value, used + Uses(c), issued + Issues(c));
  }

  // -------------------------------------------------------------------------
  // The state file and reopening
  // -------------------------------------------------------------------------

  /** Records written before observations were recorded are taken as observed when started. */
  function Fixed(r: Record): Record {
    if r.observedAt == 0 then r.(observedAt := r.startedAt) else r
  }

  /** A record as reopening finds it: a live one has lost its runtime. */
  function Reopened(r: Record, now: nat): Record {
    var f := Fixed(r);
    if Live(f)
    then f.(state := Ended(Terminal(Lost, None, None, [], Some("SessionUnavailable"), now)), hash := None)
    else f
  }

  /** `clock(i)` is the time read while recovering the record at position `i`. */
  function ReopenedAll(s: Records, clock: nat -> nat): (t: Records)
    ensures |t| == |s| && forall i | 0 <= i < |s| :: t[i] == Reopened(s[i], clock(i))
  {
    seq(|s|, i requires 0 <= i < |s| => Reopened(s[i], clock(i)))
  }

  function Open(file: Option<Records>, clock: nat -> nat): Records {
    if file.None? then [] else Trimmed(ReopenedAll(file.value, clock))
  }

  /** What should be found after a crash that lost only memory. */
  function Recovered(s: Records, clock: nat -> nat): Records {
    Trimmed(ReopenedAll(StoredAll(s), clock))
  }

  /** The file holds what memory holds, up to what is never stored and what reopening repairs. */
  ghost predicate FileOk(file: Option<Records>, s: Records) {
    match file
    case None => s == []
    case Some(f) => |f| == |s| && forall i | 0 <= i < |s| :: Fixed(f[i]) == Fixed(Stored(s[i]))
  }

  lemma OpenIsRecovered(file: Option<Records>, s: Records, clock: nat -> nat)
    requires FileOk(file, s)
    ensures Open(file, clock) == Recovered(s, clock)
  {
    if file.Some? {
      assert ReopenedAll(file.value, clock) == ReopenedAll(StoredAll(s), clock);
    }
  }

  /** An ended record survives a crash with its outcome; only its handle is dropped. */
  lemma EndedSurvives(r: Record, now: nat)
    requires !Live(r) && RecordOk(r)
    ensures Reopened(Stored(r), now) == Fixed(r).(handle := None)
  {
  }

  // The steps by which a state reaches the disk.

  datatype TempFile = Incomplete | Complete(records: Records)
  datatype Disk = Disk(main: Option<Records>, temp: Option<TempFile>)

  ghost predicate PersistStep(next: Records, d: Disk, e: Disk) {
    || (d.temp.None? && e == d.(temp := Some(Incomplete)))
    || (d.temp == Some(Incomplete) && e == d.(temp := Some(Complete(StoredAll(next)))))
    || (d.temp.Some? && d.temp.value.Complete? && e == Disk(Some(d.temp.value.records), None))
    || (d.temp.Some? && e == d.(temp := None))
  }

  ghost predicate PersistTrace(next: Records, trace: seq<Disk>) {
    && trace != [] && trace[0].temp.None?
    && forall i | 0 < i < |trace| :: PersistStep(next, trace[i - 1], trace[i])
  }

  lemma {:induction false} FileIsOldOrNew(next: Records, trace: seq<Disk>, n: nat)
    requires PersistTrace(next, trace) && n < |trace|
    ensures trace[n].main == trace[0].main || trace[n].main == Some(StoredAll(next))
    ensures trace[n].temp.Some? && trace[n].temp.value.Complete? ==> trace[n].temp.value.records == StoredAll(next)
  {
    if n > 0 {
      FileIsOldOrNew(next, trace, n - 1);
      assert PersistStep(next, trace[n - 1], trace[n]);
    }
  }

  // -------------------------------------------------------------------------
  // Runs
  // -------------------------------------------------------------------------

  datatype World = World(
    mem: Memory, file: Option<Records>,
    used: set<ExecutionId>, issued: set<Token>, accepted: seq<Token>)

  datatype Event =
    | Do(change: Change, persisted: bool)
    | RequestCancel(pub: PublicSessionId, signal: string)
    | ClearCancel(pub: PublicSessionId)
    /** The process dies during a transaction, before or after its file replaced the old one, and reopens. */
    | Crash(change: Change, replaced: bool, clock: nat -> nat)

  const EMPTY := World(Memory([], map[]), None, {}, {}, [])

  function Operated(w: World, c: Change, persisted: bool): World {
    var (mem, error) := Perform(w.mem, c, persisted);
    var v := w.(used := w.used + Uses(c), issued := w.issued + Issues(c));
    if error.Some? then v
    else v.(mem := mem, file := Some(StoredAll(mem.executions)),
            accepted := if c.AdoptOwner? then w.accepted + [c.token] else w.accepted)
  }

  /** The file left by a crash in the middle of the transaction. */
  function LeftBehind(w: World, c: Change, replaced: bool): Option<Records> {
    var next := Apply(w.mem.executions, c);
    if replaced && next.Ok? then Some(StoredAll(Trimmed(next.value))) else w.file
  }

  function Crashed(w: World, c: Change, replaced: bool, clock: nat -> nat): World {
    var file := LeftBehind(w, c, replaced);
    var records := Open(file, clock);
    var rewritten := file.Some? && LiveCount(file.value) > 0;
    w.(used := w.used + Uses(c), issued := w.issued + Issues(c), mem := Memory(records, map[]),
       file := if rewritten then Some(StoredAll(records)) else file)
  }

  function Next(w: World, e: Event): World {
    match e
    case Do(c, persisted) => if Fresh(c, w.used, w.issued) then Operated(w, c, persisted) else w
    case RequestCancel(pub, signal) => w.(mem := RequestCancellation(w.mem, pub, signal).0)
    case ClearCancel(pub) => w.(mem := ClearCancellation(w.mem, pub))
    case Crash(c, replaced, clock) => if Fresh(c, w.used, w.issued) then Crashed(w, c, replaced, clock) else w
  }

  function Run(events: seq<Event>): World {
    if events == [] then EMPTY else Next(Run(events[..|events| - 1]), events[|events| - 1])
  }

  /** Intents are recorded only for live executions. */
  ghost predicate SignalsLive(m: Memory) {
    forall id | id in m.signals :: exists r :: r in m.executions && r.id == id && Live(r)
  }

  /** A token that was accepted opens nothing any more. */
  ghost predicate TokensSpent(s: Records, issued: set<Token>, accepted: seq<Token>) {
    && (forall i | 0 <= i < |accepted| :: accepted[i] in issued)
    && (forall i, k | 0 <= i < |accepted| && 0 <= k < |s| :: s[k].hash != Some(HashOf(accepted[i])))
    && (forall i, j | 0 <= i < j < |accepted| :: accepted[i] != accepted[j])
  }

  ghost predicate Inv(w: World) {
    && ListOk(w.mem.executions, w.used, w.issued)
    && FileOk(w.file, w.mem.executions)
    && SignalsLive(w.mem)
    && TokensSpent(w.mem.executions, w.issued, w.accepted)
  }

  lemma {:induction false} StaleIsLost(s: Records, now: nat, i: nat)
    requires i < |s| && Stale(s[i], now)
    ensures s[i].id in LostIds(s, now)
  {
    if i > 0 {
      StaleIsLost(s[1..], now, i - 1);
    }
  }

  /** A change ends no live execution but the ones it settles. */
  lemma StaysLive(s: Records, c: Change, i: nat)
    requires Apply(s, c).Ok? && i < |s| && Live(s[i]) && s[i].id !in SettledIds(s, c)
    ensures var t := Apply(s, c).value; i < |t| && t[i].id == s[i].id && Live(t[i])
  {
    if c.ReapStale? && Stale(s[i], c.now) {
      StaleIsLost(s, c.now, i);
    }
  }

  lemma OperationKeepsSignalsLive(m: Memory, c: Change)
    requires SignalsLive(m) && Apply(m.executions, c).Ok?
    ensures SignalsLive(Perform(m, c, true).0)
  {
    var s, t := m.executions, Apply(m.executions, c).value;
    TrimmedMembers(t);
    forall id | id in m.signals - SettledIds(s, c) ensures exists r :: r in Trimmed(t) && r.id == id && Live(r) {
      var r :| r in s && r.id == id && Live(r);
      var i :| 0 <= i < |s| && s[i] == r;
      StaysLive(s, c, i);
      assert t[i] in t;
    }
  }

  lemma OperationSpendsToken(s: Records, c: Change, used: set<ExecutionId>, issued: set<Token>, accepted: seq<Token>)
    requires ListOk(s, used, issued) && TokensSpent(s, issued, accepted) && Fresh(c, used, issued) && Apply(s, c).Ok?
    ensures var t := Apply(s, c).value;
            TokensSpent(t, issued + Issues(c), if c.AdoptOwner? then accepted + [c.token] else accepted)
  {
    var t := Apply(s, c).value;
    if c.AdoptOwner? {
      var i := IndexOfPublic(s, c.pub);
      assert s[i].hash == Some(HashOf(c.token));
      forall k | 0 <= k < |t| ensures t[k].hash != Some(HashOf(c.token)) {
        assert k < i ==> Compatible(s[k], s[i]);
        assert i < k ==> Compatible(s[i], s[k]);
      }
    } else if !c.StartOwned? && !c.BindHandle? {
      ChangeSteps(s, c);
      WeakeningChanges(s, c);
      forall i, k | 0 <= i < |accepted| && 0 <= k < |t| ensures t[k].hash != Some(HashOf(accepted[i])) {
        assert Weakened(s[k], t[k]);
      }
    }
  }

  lemma TrimmedKeepsSpent(s: Records, issued: set<Token>, accepted: seq<Token>)
    requires TokensSpent(s, issued, accepted)
    ensures TokensSpent(Trimmed(s), issued, accepted)
  {
    TrimmedMembers(s);
    var t := Trimmed(s);
    forall i, k | 0 <= i < |accepted| && 0 <= k < |t| ensures t[k].hash != Some(HashOf(accepted[i])) {
      assert t[k] in t;
    }
  }

  lemma OperatedKeepsInv(w: World, c: Change, persisted: bool)
    requires Inv(w) && Fresh(c, w.used, w.issued)
    ensures Inv(Operated(w, c, persisted))
  {
    var next := Apply(w.mem.executions, c);
    if next.Ok? && persisted {
      ChangeKeepsListOk(w.mem.executions, c, w.used, w.issued);
      OperationKeepsSignalsLive(w.mem, c);
      OperationSpendsToken(w.mem.executions, c, w.used, w.issued, w.accepted);
      TrimmedKeepsSpent(next.value, w.issued + Issues(c), if c.AdoptOwner? then w.accepted + [c.token] else w.accepted);
    }
  }

  /** Reopening a good list yields a good list with no token left. */
  lemma RecoveredListOk(s: Records, used: set<ExecutionId>, issued: set<Token>, clock: nat -> nat)
    requires ListOk(s, used, issued)
    ensures ListOk(Recovered(s, clock), used, issued)
    ensures forall r | r in Recovered(s, clock) :: r.hash.None? && r.handle.None? && !Live(r)
  {
    var t := ReopenedAll(StoredAll(s), clock);
    forall i | 0 <= i < |s| ensures Weakened(s[i], t[i]) && RecordOk(t[i]) && t[i].hash.None? {
      assert RecordOk(s[i]) && t[i] == Reopened(Stored(s[i]), clock(i));
    }
    WeakenedStaysCompatible(s, t);
    FewerLive(s, t);
    TrimmedListOk(t, used, issued);
    TrimmedMembers(t);
  }

  lemma {:induction false} NoneLive(s: Records)
    requires LiveCount(s) == 0
    ensures EndedCount(s) == |s| && forall i | 0 <= i < |s| :: !Live(s[i])
  {
    if s != [] {
      NoneLive(s[1..]);
    }
  }

  lemma {:induction false} SameCounts(s: Records, t: Records)
    requires |s| == |t| && forall i | 0 <= i < |s| :: Live(s[i]) <==> Live(t[i])
    ensures LiveCount(s) == LiveCount(t) && EndedCount(s) == EndedCount(t)
  {
    if s != [] {
      SameCounts(s[1..], t[1..]);
    }
  }

  /** A file without live records is not rewritten; it still matches what was read from it. */
  lemma UnwrittenFileOk(f: Records, s: Records, clock: nat -> nat)
    requires FileOk(Some(f), s) && EndedCount(s) <= MAX_TERMINAL_EXECUTIONS && LiveCount(f) == 0
    ensures FileOk(Some(f), Open(Some(f), clock))
  {
    forall i | 0 <= i < |f| ensures Live(f[i]) <==> Live(s[i]) {
      assert Fixed(f[i]) == Fixed(Stored(s[i]));
    }
    SameCounts(f, s);
    NoneLive(f);
    var t := ReopenedAll(f, clock);
    forall i | 0 <= i < |f| ensures !Live(t[i]) && Fixed(f[i]) == Fixed(Stored(t[i])) {
      assert Fixed(f[i]) == Fixed(Stored(s[i]));
    }
    SameCounts(f, t);
    TrimmedWhenFew(t);
  }

  lemma CrashedKeepsInv(w: World, c: Change, replaced: bool, clock: nat -> nat)
    requires Inv(w) && Fresh(c, w.used, w.issued)
    ensures Inv(Crashed(w, c, replaced, clock))
  {
    var s, next := w.mem.executions, Apply(w.mem.executions, c);
    var used, issued := w.used + Uses(c), w.issued + Issues(c);
    var file := LeftBehind(w, c, replaced);
    var kept := if replaced && next.Ok? then Trimmed(next.value) else s;
    if replaced && next.Ok? {
      ChangeKeepsListOk(s, c, w.used, w.issued);
    }
    assert ListOk(kept, used, issued) && FileOk(file, kept);
    OpenIsRecovered(file, kept, clock);
    RecoveredListOk(kept, used, issued, clock);
    if file.Some? && LiveCount(file.value) == 0 {
      UnwrittenFileOk(file.value, kept, clock);
    }
    var records := Open(file, clock);
    forall k | 0 <= k < |records| ensures records[k].hash.None? {
      assert records[k] in records;
    }
  }

  lemma NextKeepsInv(w: World, e: Event)
    requires Inv(w)
    ensures Inv(Next(w, e))
  {
    match e
    case Do(c, persisted) =>
      if Fresh(c, w.used, w.issued) { OperatedKeepsInv(w, c, persisted); }
    case RequestCancel(pub, _) =>
      var i := IndexOfPublic(w.mem.executions, pub);
      assert i < |w.mem.executions| ==> w.mem.executions[i] in w.mem.executions;
    case ClearCancel(_) =>
    case Crash(c, replaced, clock) =>
      if Fresh(c, w.used, w.issued) { CrashedKeepsInv(w, c, replaced, clock); }
  }

  lemma {:induction false} InvHolds(events: seq<Event>)
    ensures Inv(Run(events))
  {
    if events != [] {
      InvHolds(events[..|events| - 1]);
      NextKeepsInv(Run(events[..|events| - 1]), events[|events| - 1]);
    }
  }

  // -------------------------------------------------------------------------
  // Main results, over every run
  // -------------------------------------------------------------------------

  /**
   At most 64 live and 64 ended records; ids, public sessions and live handles are not shared; an
   orphaned record has no owner, an ended one no token; intents are only for live executions.
   */
  lemma RegistryStaysWellFormed(events: seq<Event>)
    ensures var w := Run(events); var s := w.mem.executions;
            && LiveCount(s) <= 64 && EndedCount(s) <= 64
            && (forall i, j | 0 <= i < j < |s| :: s[i].id != s[j].id && s[i].pub != s[j].pub)
            && (forall i, j | 0 <= i < j < |s| :: Live(s[i]) && Live(s[j]) && s[i].handle.Some? ==> s[i].handle != s[j].handle)
            && (forall i | 0 <= i < |s| :: s[i].orphanedAt.Some? ==> s[i].owner.None?)
            && (forall i | 0 <= i < |s| :: !Live(s[i]) ==> s[i].hash.None?)
            && (forall id | id in w.mem.signals :: exists r :: r in s && r.id == id && Live(r))
  {
    InvHolds(events);
    var s := Run(events).mem.executions;
    forall i, j | 0 <= i < j < |s| ensures Compatible(s[i], s[j]) {
    }
    forall i | 0 <= i < |s| ensures RecordOk(s[i]) {
    }
  }

  /** If this execution is still listed, it has this state; its id is never given to another. */
  ghost predicate Settled(w: World, id: ExecutionId, pub: PublicSessionId, state: ExecutionState) {
    id in w.used && AsSettled(w.mem.executions, id, pub, state)
  }

  ghost predicate AsSettled(s: Records, id: ExecutionId, pub: PublicSessionId, state: ExecutionState) {
    forall r | r in s && r.id == id :: r.state == state && r.pub == pub
  }

  lemma OperatedKeepsSettled(w: World, c: Change, persisted: bool, id: ExecutionId, pub: PublicSessionId, state: ExecutionState)
    requires Fresh(c, w.used, w.issued) && Settled(w, id, pub, state) && state.Ended?
    ensures Settled(Operated(w, c, persisted), id, pub, state)
  {
    var s, next := w.mem.executions, Apply(w.mem.executions, c);
    if next.Ok? && persisted {
      TrimmedMembers(next.value);
      forall r | r in next.value && r.id == id ensures r.state == state && r.pub == pub {
        SettledRecord(s, c, id, pub, state, r);
      }
    }
  }

  lemma SettledRecord(s: Records, c: Change, id: ExecutionId, pub: PublicSessionId, state: ExecutionState, r: Record)
    requires Apply(s, c).Ok? && r in Apply(s, c).value && r.id == id && id !in Uses(c)
    requires state.Ended? && AsSettled(s, id, pub, state)
    ensures r.state == state && r.pub == pub
  {
    var t := Apply(s, c).value;
    var k :| 0 <= k < |t| && t[k] == r;
    if !c.StartOwned? {
      ChangeSteps(s, c);
      assert Stepped(s[k], t[k]);
      assert s[k] in s;
    } else if k < |s| {
      assert s[k] in s;
    }
  }

  lemma CrashedKeepsSettled(w: World, c: Change, replaced: bool, clock: nat -> nat, id: ExecutionId, pub: PublicSessionId, state: ExecutionState)
    requires Inv(w) && Fresh(c, w.used, w.issued) && Settled(w, id, pub, state) && state.Ended?
    ensures Settled(Crashed(w, c, replaced, clock), id, pub, state)
  {
    var file := LeftBehind(w, c, replaced);
    OperatedKeepsSettled(w, c, true, id, pub, state);
    var kept := if replaced && Apply(w.mem.executions, c).Ok? then Trimmed(Apply(w.mem.executions, c).value) else w.mem.executions;
    OpenIsRecovered(file, kept, clock);
    RecoveredKeepsState(kept, clock, id, pub, state);
  }

  lemma RecoveredKeepsState(s: Records, clock: nat -> nat, id: ExecutionId, pub: PublicSessionId, state: ExecutionState)
    requires state.Ended? && AsSettled(s, id, pub, state)
    ensures AsSettled(Recovered(s, clock), id, pub, state)
  {
    var t := ReopenedAll(StoredAll(s), clock);
    TrimmedMembers(t);
    forall r | r in t && r.id == id ensures r.state == state && r.pub == pub {
      var k :| 0 <= k < |t| && t[k] == r;
      assert s[k] in s && t[k] == Reopened(Stored(s[k]), clock(k));
    }
  }

  lemma {:induction false} SettledForever(before: seq<Event>, after: seq<Event>, id: ExecutionId, pub: PublicSessionId, state: ExecutionState)
    requires Settled(Run(before), id, pub, state) && state.Ended?
    ensures Settled(Run(before + after), id, pub, state)
    decreases |after|
  {
    if after == [] {
      assert before + after == before;
    } else {
      var most, e := after[..|after| - 1], after[|after| - 1];
      assert (before + after)[..|before + after| - 1] == before + most;
      SettledForever(before, most, id, pub, state);
      var w := Run(before + most);
      if e.Do? && Fresh(e.change, w.used, w.issued) {
        OperatedKeepsSettled(w, e.change, e.persisted, id, pub, state);
      } else if e.Crash? && Fresh(e.change, w.used, w.issued) {
        InvHolds(before + most);
        CrashedKeepsSettled(w, e.change, e.replaced, e.clock, id, pub, state);
      }
    }
  }

  lemma SameId(s: Records, i: nat, j: nat)
    requires AllCompatible(s) && i < |s| && j < |s| && s[i].id == s[j].id
    ensures i == j
  {
  }

  /** Once an execution has ended, whatever happens later, its record says the same until it is evicted. */
  lemma OutcomeIsFinal(before: seq<Event>, after: seq<Event>, r: Record, q: Record)
    requires r in Run(before).mem.executions && !Live(r)
    requires q in Run(before + after).mem.executions && q.id == r.id
    ensures q.state == r.state && q.pub == r.pub
  {
    InvHolds(before);
    var s := Run(before).mem.executions;
    forall p | p in s && p.id == r.id ensures p == r {
      var i :| 0 <= i < |s| && s[i] == p;
      var j :| 0 <= j < |s| && s[j] == r;
      SameId(s, i, j);
    }
    SettledForever(before, after, r.id, r.pub, r.state);
  }

  /** No adoption token is accepted twice. */
  lemma TokenAcceptedOnce(events: seq<Event>, i: nat, j: nat)
    requires i < j < |Run(events).accepted|
    ensures Run(events).accepted[i] != Run(events).accepted[j]
  {
    InvHolds(events);
  }

  /** A token is accepted exactly when it is the current token of a live, orphaned execution. */
  lemma AdoptionNeedsOrphan(s: Records, c: Change)
    requires c.AdoptOwner?
    ensures var i := IndexOfPublic(s, c.pub);
            Apply(s, c).Ok? <==>
            i < |s| && Live(s[i]) && s[i].owner.None? && s[i].orphanedAt.Some? && s[i].hash == Some(HashOf(c.token))
  {
  }

  /** What is left of a record once the process died and the registry was opened again at `now`. */
  ghost predicate Survives(r: Record, q: Record, now: nat) {
    && q.id == r.id && q.pub == r.pub && q.task == r.task && q.owner == r.owner && q.orphanedAt == r.orphanedAt
    && q.startedAt == r.startedAt && q.observedAt == (if r.observedAt == 0 then r.startedAt else r.observedAt)
    && q.handle.None? && q.hash.None?
    && (!Live(r) ==> q.state == r.state)
    && (Live(r) ==>
          && q.state.Ended? && q.state.terminal.outcome == Lost && q.state.terminal.errorCode == Some("SessionUnavailable")
          && q.state.terminal.exitCode.None? && q.state.terminal.signal.None? && q.state.terminal.outputRefs == []
          && q.state.terminal.completedAt == now)
  }

  /** The last 64 records of a list, all of which have ended now, each as it survives, in their order. */
  ghost predicate SurvivesAs(s: Records, found: Records, clock: nat -> nat) {
    var dropped := if |s| <= 64 then 0 else |s| - 64;
    && |found| == |s| - dropped
    && forall i | 0 <= i < |found| :: Survives(s[dropped + i], found[i], clock(dropped + i))
  }

  lemma {:induction false} TrimmedWhenEnded(s: Records)
    requires forall i | 0 <= i < |s| :: !Live(s[i])
    ensures EndedCount(s) == |s| && Trimmed(s) == s[if |s| <= 64 then 0 else |s| - 64..]
  {
    if s != [] {
      TrimmedWhenEnded(s[1..]);
    }
  }

  ghost predicate RecordsOk(s: Records) {
    forall i | 0 <= i < |s| :: RecordOk(s[i])
  }

  lemma ReopeningSurvives(file: Option<Records>, s: Records, clock: nat -> nat)
    requires RecordsOk(s) && FileOk(file, s)
    ensures SurvivesAs(s, Open(file, clock), clock)
  {
    OpenIsRecovered(file, s, clock);
    var t := ReopenedAll(StoredAll(s), clock);
    forall i | 0 <= i < |s| ensures !Live(t[i]) && Survives(s[i], t[i], clock(i)) {
      assert RecordOk(s[i]) && t[i] == Reopened(Stored(s[i]), clock(i));
    }
    TrimmedWhenEnded(t);
  }

  /** The records before a change and after it. */
  lemma RecordsStayOk(w: World, c: Change)
    requires Inv(w) && Apply(w.mem.executions, c).Ok?
    ensures RecordsOk(w.mem.executions) && RecordsOk(Trimmed(Apply(w.mem.executions, c).value))
  {
    ChangeKeepsMarks(w.mem.executions, c, w.used, w.issued);
    var next := Apply(w.mem.executions, c).value;
    TrimmedMembers(next);
    forall i | 0 <= i < |Trimmed(next)| ensures RecordOk(Trimmed(next)[i]) {
      assert Trimmed(next)[i] in Trimmed(next);
    }
  }

  /**
   Wherever a crash stops a transaction, reopening finds the records from before it or those from after it:
   the last 64 of them, in their order. One that had ended is as it was, one that was live is lost with its
   session unavailable, and each is still the same execution of the same session, task, owner and start.
   */
  lemma CrashRecovery(events: seq<Event>, c: Change, trace: seq<Disk>, n: nat, clock: nat -> nat)
    requires Apply(Run(events).mem.executions, c).Ok?
    requires PersistTrace(Trimmed(Apply(Run(events).mem.executions, c).value), trace) && n < |trace|
    requires trace[0].main == Run(events).file
    ensures var s := Run(events).mem.executions; var t := Trimmed(Apply(s, c).value);
            SurvivesAs(s, Open(trace[n].main, clock), clock) || SurvivesAs(t, Open(trace[n].main, clock), clock)
    ensures trace[n].main == trace[0].main ==> SurvivesAs(Run(events).mem.executions, Open(trace[n].main, clock), clock)
  {
    InvHolds(events);
    var w := Run(events);
    var t := Trimmed(Apply(w.mem.executions, c).value);
    FileIsOldOrNew(t, trace, n);
    RecordsStayOk(w, c);
    ReopeningSurvives(w.file, w.mem.executions, clock);
    ReopeningSurvives(Some(StoredAll(t)), t, clock);
  }

  ghost predicate LeftByCrash(w: World, v: World, c: Change, replaced: bool, clock: nat -> nat) {
    var next := Apply(w.mem.executions, c);
    && SurvivesAs(if replaced && next.Ok? then Trimmed(next.value) else w.mem.executions, v.mem.executions, clock)
    && v.mem.signals == map[]
  }

  lemma CrashedLeaves(w: World, c: Change, replaced: bool, clock: nat -> nat)
    requires Inv(w)
    ensures LeftByCrash(w, Crashed(w, c, replaced, clock), c, replaced, clock)
  {
    var next := Apply(w.mem.executions, c);
    if replaced && next.Ok? {
      RecordsStayOk(w, c);
      ReopeningSurvives(LeftBehind(w, c, replaced), Trimmed(next.value), clock);
    } else {
      ReopeningSurvives(w.file, w.mem.executions, clock);
    }
  }

  /** In a run: what a crash leaves in memory. */
  lemma CrashLeaves(events: seq<Event>, c: Change, replaced: bool, clock: nat -> nat, w: World, v: World)
    requires w == Run(events) && v == Run(events + [Crash(c, replaced, clock)]) && Fresh(c, w.used, w.issued)
    ensures LeftByCrash(w, v, c, replaced, clock)
  {
    InvHolds(events);
    CrashedLeaves(w, c, replaced, clock);
    assert (events + [Crash(c, replaced, clock)])[..|events|] == events;
  }
}
