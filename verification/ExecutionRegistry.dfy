/**
 The registry of detached executions (src-tauri/src/control_plane/execution_registry.rs): a list of
 records changed only by transactions that copy, change, trim, persist and then replace it.

 Clock readings, generated identifiers and generated tokens are inputs. Token hashing is taken to be
 injective: `HashOf` is its image. Text is a sequence of characters, and the 128-byte bound on stored
 tokens counts characters.
 */
module ExecutionRegistry {
  import opened Options
  import opened Integers

  type ExecutionId = string
  type TaskId = string
  type PublicSessionId = string
  type SessionId = string
  type Handle = string
  type Token = nat
  datatype TokenHash = HashOf(token: Token)

  const MAX_ACTIVE_EXECUTIONS := 64
  const MAX_TERMINAL_EXECUTIONS := 64
  const EXECUTION_ORPHAN_TTL_MS := 1_800_000
  const EXECUTION_MAX_DETACHED_AGE_MS := 86_400_000
  const MAX_OUTPUT_REFS := 4
  const MAX_STABLE_TOKEN := 128

  datatype Outcome = Completed | Failed | Cancelled | TimedOut | Lost | Blocked

  datatype Terminal = Terminal(
    outcome: Outcome, exitCode: Option<int>, signal: Option<string>,
    outputRefs: seq<string>, errorCode: Option<string>, completedAt: nat)

  datatype ExecutionState = Queued | Running | Ended(terminal: Terminal)

  datatype Record = Record(
    id: ExecutionId, task: TaskId, pub: PublicSessionId,
    owner: Option<SessionId>, hash: Option<TokenHash>, handle: Option<Handle>,
    state: ExecutionState, startedAt: nat, observedAt: nat, orphanedAt: Option<nat>)

  type Records = seq<Record>

  datatype Error =
    | Storage
    | CapacityExceeded
    | UnknownExecution
    | UnknownPublicSession
    | PublicSessionCollision
    | OwnerConflict(existing: SessionId)
    | NotOrphaned
    | AdoptionDenied
    | RuntimeHandleCollision
    | AlreadyTerminal(outcome: Outcome)

  datatype Result<+T> = Ok(value: T) | Err(error: Error)

  predicate Live(r: Record) {
    !r.state.Ended?
  }

  function LiveCount(s: Records): nat {
    if s == [] then 0 else (if Live(s[0]) then 1 else 0) + LiveCount(s[1..])
  }

  function EndedCount(s: Records): nat {
    if s == [] then 0 else (if Live(s[0]) then 0 else 1) + EndedCount(s[1..])
  }

  /** The position of the first record with this id, or the length of the list. */
  function IndexOfId(s: Records, id: ExecutionId): (i: nat)
    ensures i <= |s| && (i < |s| ==> s[i].id == id)
    ensures forall k | 0 <= k < i :: s[k].id != id
  {
    if s == [] || s[0].id == id then 0 else 1 + IndexOfId(s[1..], id)
  }

  function IndexOfPublic(s: Records, pub: PublicSessionId): (i: nat)
    ensures i <= |s| && (i < |s| ==> s[i].pub == pub)
    ensures forall k | 0 <= k < i :: s[k].pub != pub
  {
    if s == [] || s[0].pub == pub then 0 else 1 + IndexOfPublic(s[1..], pub)
  }

  // -------------------------------------------------------------------------
  // The changes a transaction can make
  // -------------------------------------------------------------------------

  datatype Change =
    | StartOwned(id: ExecutionId, task: TaskId, pub: PublicSessionId, owner: Option<SessionId>, token: Token, now: nat)
    | AdoptOwner(pub: PublicSessionId, token: Token, owner': SessionId, next: Token, now: nat)
    | TransferWorkflow(task: TaskId, owner': SessionId)
    | BindHandle(id: ExecutionId, handle: Handle)
    | Finish(id: ExecutionId, terminal: Terminal)
    | OrphanOwnedBy(owner': SessionId, now: nat)
    | ObserveAllRunning(now: nat)
    | ReapStale(now: nat)

  function Started(id: ExecutionId, task: TaskId, pub: PublicSessionId, owner: Option<SessionId>, token: Token, now: nat): Record {
    Record(id, task, pub, owner, Some(HashOf(token)), None, Running, now, now, None)
  }

  function ApplyStart(s: Records, r: Record): Result<Records> {
    if LiveCount(s) >= MAX_ACTIVE_EXECUTIONS then Err(CapacityExceeded)
    else if IndexOfPublic(s, r.pub) < |s| then Err(PublicSessionCollision)
    else Ok(s + [r])
  }

  function ApplyAdopt(s: Records, pub: PublicSessionId, token: Token, owner: SessionId, next: Token, now: nat): Result<Records> {
    var i := IndexOfPublic(s, pub);
    if i == |s| then Err(UnknownPublicSession)
    else if s[i].state.Ended? then Err(AlreadyTerminal(s[i].state.terminal.outcome))
    else if s[i].owner.Some? then Err(OwnerConflict(s[i].owner.value))
    else if s[i].orphanedAt.None? then Err(NotOrphaned)
    else if s[i].hash != Some(HashOf(token)) then Err(AdoptionDenied)
    else Ok(s[i := s[i].(owner := Some(owner), hash := Some(HashOf(next)), orphanedAt := None, observedAt := now)])
  }

  /** The first reason a transfer is refused, in list order. */
  function TransferObstacle(s: Records, task: TaskId, owner: SessionId): Option<Error> {
    if s == [] then None
    else if s[0].task != task || !Live(s[0]) || s[0].owner == Some(owner) then TransferObstacle(s[1..], task, owner)
    else if s[0].owner.Some? then Some(OwnerConflict(s[0].owner.value))
    else if s[0].orphanedAt.None? then Some(NotOrphaned)
    else TransferObstacle(s[1..], task, owner)
  }

  function Transferred(r: Record, task: TaskId, owner: SessionId): Record {
    if r.task == task then r.(owner := Some(owner), orphanedAt := None) else r
  }

  function Orphaned(r: Record, owner: SessionId, now: nat): Record {
    if Live(r) && r.owner == Some(owner)
    then r.(owner := None, orphanedAt := if r.orphanedAt.Some? then r.orphanedAt else Some(now))
    else r
  }

  function Observed(r: Record, now: nat): Record {
    if r.state.Running? then r.(observedAt := now) else r
  }

  predicate OrphanExpired(r: Record, now: nat) {
    r.orphanedAt.Some? && SaturatingSub(now, r.orphanedAt.value) >= EXECUTION_ORPHAN_TTL_MS
  }

  predicate Stale(r: Record, now: nat) {
    Live(r) && (OrphanExpired(r, now) || SaturatingSub(now, r.startedAt) >= EXECUTION_MAX_DETACHED_AGE_MS)
  }

  function Reaped(r: Record, now: nat): Record {
    if !Stale(r, now) then r
    else
      var code := if OrphanExpired(r, now) then "ExecutionOrphanExpired" else "ExecutionMaxAgeExceeded";
      r.(state := Ended(Terminal(Lost, None, None, [], Some(code), now)), hash := None, observedAt := now)
  }

  function Each(s: Records, f: Record -> Record): (t: Records)
    ensures |t| == |s| && forall i | 0 <= i < |s| :: t[i] == f(s[i])
  {
    seq(|s|, i requires 0 <= i < |s| => f(s[i]))
  }

  /** Another live execution already runs under this handle. */
  predicate HandleTaken(s: Records, id: ExecutionId, handle: Handle) {
    exists i :: 0 <= i < |s| && s[i].id != id && s[i].handle == Some(handle) && Live(s[i])
  }

  function ApplyBind(s: Records, id: ExecutionId, handle: Handle): Result<Records> {
    var i := IndexOfId(s, id);
    if HandleTaken(s, id, handle) then Err(RuntimeHandleCollision)
    else if i == |s| then Err(UnknownExecution)
    else if s[i].handle == Some(handle) then Ok(s)
    else if s[i].handle.Some? then Err(RuntimeHandleCollision)
    else Ok(s[i := s[i].(handle := Some(handle))])
  }

  function BoundedToken(s: string): string {
    if |s| > MAX_STABLE_TOKEN then s[..MAX_STABLE_TOKEN] else s
  }

  function Bounded(s: Option<string>): Option<string> {
    if s.Some? then Some(BoundedToken(s.value)) else None
  }

  function OutputRefs(refs: seq<string>, room: nat): (r: seq<string>)
    ensures |r| <= room
    ensures forall x | x in r :: |x| <= MAX_STABLE_TOKEN && "lb-output-" <= x
  {
    if refs == [] || room == 0 then []
    else if "lb-output-" <= refs[0] then [BoundedToken(refs[0])] + OutputRefs(refs[1..], room - 1)
    else OutputRefs(refs[1..], room)
  }

  function Sanitized(t: Terminal): Terminal {
    t.(signal := Bounded(t.signal), outputRefs := OutputRefs(t.outputRefs, MAX_OUTPUT_REFS), errorCode := Bounded(t.errorCode))
  }

  function Finished(r: Record, t: Terminal): Record {
    r.(observedAt := t.completedAt, handle := None, hash := None, state := Ended(Sanitized(t)))
  }

  function ApplyFinish(s: Records, id: ExecutionId, t: Terminal): Result<Records> {
    var i := IndexOfId(s, id);
    if i == |s| then Err(UnknownExecution)
    else if Live(s[i]) then Ok(s[i := Finished(s[i], t)])
    else if s[i].state.terminal.outcome == t.outcome then Ok(s)
    else Err(AlreadyTerminal(s[i].state.terminal.outcome))
  }

  function Apply(s: Records, c: Change): Result<Records> {
    match c
    case StartOwned(id, task, pub, owner, token, now) => ApplyStart(s, Started(id, task, pub, owner, token, now))
    case AdoptOwner(pub, token, owner, next, now) => ApplyAdopt(s, pub, token, owner, next, now)
    case TransferWorkflow(task, owner) =>
      var obstacle := TransferObstacle(s, task, owner);
      if obstacle.Some? then Err(obstacle.value) else Ok(Each(s, r => Transferred(r, task, owner)))
    case BindHandle(id, handle) => ApplyBind(s, id, handle)
    case Finish(id, terminal) => ApplyFinish(s, id, terminal)
    case OrphanOwnedBy(owner, now) => Ok(Each(s, r => Orphaned(r, owner, now)))
    case ObserveAllRunning(now) => Ok(Each(s, r => Observed(r, now)))
    case ReapStale(now) => Ok(Each(s, r => Reaped(r, now)))
  }

  // -------------------------------------------------------------------------
  // Trimming
  // -------------------------------------------------------------------------

  /** Every live record, and each ended one that fewer than 64 ended records follow, in their order. */
  function Trimmed(s: Records): Records {
    if s == [] then []
    else (if Live(s[0]) || EndedCount(s[1..]) < MAX_TERMINAL_EXECUTIONS then [s[0]] else []) + Trimmed(s[1..])
  }

  lemma {:induction false} TrimmedWhenFew(s: Records)
    requires EndedCount(s) <= MAX_TERMINAL_EXECUTIONS
    ensures Trimmed(s) == s
  {
    if s != [] {
      TrimmedWhenFew(s[1..]);
    }
  }

  function FirstEnded(s: Records): (i: nat)
    ensures i <= |s| && (i < |s| ==> !Live(s[i])) && forall k | 0 <= k < i :: Live(s[k])
    ensures i == |s| <==> EndedCount(s) == 0
  {
    if s == [] || !Live(s[0]) then 0 else 1 + FirstEnded(s[1..])
  }

  /** Dropping the oldest ended record of too many changes neither the trimmed list nor the live records. */
  lemma {:induction false} DropOldest(s: Records)
    requires EndedCount(s) > MAX_TERMINAL_EXECUTIONS
    ensures var i := FirstEnded(s); var t := s[..i] + s[i + 1..];
            Trimmed(t) == Trimmed(s) && EndedCount(t) == EndedCount(s) - 1
  {
    var i := FirstEnded(s);
    if i == 0 {
      assert s[..0] + s[1..] == s[1..];
    } else {
      DropOldest(s[1..]);
      var rest := s[1..][..i - 1] + s[1..][i..];
      assert s[..i] + s[i + 1..] == [s[0]] + rest;
      assert ([s[0]] + rest)[1..] == rest;
    }
  }

  lemma {:induction false} TrimmedCounts(s: Records)
    ensures LiveCount(Trimmed(s)) == LiveCount(s)
    ensures EndedCount(Trimmed(s)) == if EndedCount(s) <= MAX_TERMINAL_EXECUTIONS then EndedCount(s) else MAX_TERMINAL_EXECUTIONS
  {
    if s != [] {
      TrimmedCounts(s[1..]);
      var rest := Trimmed(s[1..]);
      if Live(s[0]) || EndedCount(s[1..]) < MAX_TERMINAL_EXECUTIONS {
        assert Trimmed(s)[1..] == rest;
      } else {
        assert Trimmed(s) == rest;
      }
    }
  }

  /** The records, live or ended, that a list holds, in its order. */
  function Only(s: Records, live: bool): Records {
    if s == [] then [] else (if Live(s[0]) == live then [s[0]] else []) + Only(s[1..], live)
  }

  lemma {:induction false} OnlyEndedCount(s: Records)
    ensures |Only(s, false)| == EndedCount(s)
  {
    if s != [] {
      OnlyEndedCount(s[1..]);
    }
  }

  lemma {:induction false} OnlyCons(r: Record, s: Records, live: bool)
    ensures Only([r] + s, live) == (if Live(r) == live then [r] else []) + Only(s, live)
  {
    assert ([r] + s)[1..] == s;
  }

  /** Trimming keeps every live record and the last 64 ended ones, each in their order. */
  lemma {:induction false} TrimmedKeepsLast(s: Records)
    ensures Only(Trimmed(s), true) == Only(s, true)
    ensures var ended := Only(s, false); var n := |ended|;
            Only(Trimmed(s), false) == ended[if n <= MAX_TERMINAL_EXECUTIONS then 0 else n - MAX_TERMINAL_EXECUTIONS..]
  {
    if s != [] {
      var rest := s[1..];
      TrimmedKeepsLast(rest);
      OnlyEndedCount(rest);
      assert s == [s[0]] + rest;
      OnlyCons(s[0], Trimmed(rest), true);
      OnlyCons(s[0], Trimmed(rest), false);
      var kept := Live(s[0]) || EndedCount(rest) < MAX_TERMINAL_EXECUTIONS;
      assert Trimmed(s) == if kept then [s[0]] + Trimmed(rest) else Trimmed(rest);
    }
  }

  lemma {:induction false} TrimmedMembers(s: Records)
    ensures forall r | r in Trimmed(s) :: r in s
    ensures forall r | r in s && Live(r) :: r in Trimmed(s)
  {
    if s != [] {
      TrimmedMembers(s[1..]);
    }
  }

  /** Trimming keeps the order of what it keeps, live and ended together. */
  lemma {:induction false} TrimmedInOrder(s: Records, i: nat, j: nat) returns (a: nat, b: nat)
    requires i < j < |Trimmed(s)|
    ensures a < b < |s| && s[a] == Trimmed(s)[i] && s[b] == Trimmed(s)[j]
  {
    var rest := s[1..];
    var first := Live(s[0]) || EndedCount(rest) < MAX_TERMINAL_EXECUTIONS;
    if first && i == 0 {
      TrimmedMembers(rest);
      assert Trimmed(rest)[j - 1] in rest;
      var k :| 0 <= k < |rest| && rest[k] == Trimmed(rest)[j - 1];
      a, b := 0, k + 1;
    } else {
      var shift := if first then 1 else 0;
      a, b := TrimmedInOrder(rest, i - shift, j - shift);
      a, b := a + 1, b + 1;
    }
  }

  /** A record that alone has its public session stays listed exactly when it is live or fewer than 64 ended ones follow it. */
  lemma {:induction false} TrimmedLists(s: Records, i: nat)
    requires i < |s| && forall j | 0 <= j < |s| && j != i :: s[j].pub != s[i].pub
    ensures (exists r :: r in Trimmed(s) && r.pub == s[i].pub) <==> Live(s[i]) || EndedCount(s[i + 1..]) < MAX_TERMINAL_EXECUTIONS
    ensures forall r | r in Trimmed(s) && r.pub == s[i].pub :: r == s[i]
  {
    TrimmedMembers(s);
    if i == 0 {
      TrimmedMembers(s[1..]);
    } else {
      TrimmedLists(s[1..], i - 1);
      assert s[1..][i..] == s[i + 1..];
    }
  }

  // -------------------------------------------------------------------------
  // The registry object
  // -------------------------------------------------------------------------

  /** What is written to disk: the token hash and the runtime handle never are. */
  function Stored(r: Record): Record {
    r.(hash := None, handle := None)
  }

  function StoredAll(s: Records): Records {
    Each(s, r => Stored(r))
  }

  // -------------------------------------------------------------------------
  // Whole operations, with the cancellation intents kept beside the records
  // -------------------------------------------------------------------------

  datatype Memory = Memory(executions: Records, signals: map<ExecutionId, string>)

  /** The executions a reaping pass declares lost, in list order. */
  function LostIds(s: Records, now: nat): seq<ExecutionId> {
    if s == [] then [] else (if Stale(s[0], now) then [s[0].id] else []) + LostIds(s[1..], now)
  }

  /** Intents end with the execution they were for. */
  function SettledIds(s: Records, c: Change): set<ExecutionId> {
    match c
    case Finish(id, _) => {id}
    case ReapStale(now) => set id | id in LostIds(s, now)
    case _ => {}
  }

  /** One operation; `persisted` is whether the disk accepted the new state. */
  function Perform(m: Memory, c: Change, persisted: bool): (Memory, Option<Error>) {
    match Apply(m.executions, c)
    case Err(e) => (m, Some(e))
    case Ok(next) =>
      if !persisted then (m, Some(Storage))
      else (Memory(Trimmed(next), m.signals - SettledIds(m.executions, c)), None)
  }

  function RequestCancellation(m: Memory, pub: PublicSessionId, signal: string): (Memory, Option<Error>) {
    var i := IndexOfPublic(m.executions, pub);
    if i == |m.executions| then (m, Some(UnknownPublicSession))
    else if m.executions[i].state.Ended? then (m, Some(AlreadyTerminal(m.executions[i].state.terminal.outcome)))
    else (m.(signals := m.signals[m.executions[i].id := BoundedToken(signal)]), None)
  }

  function CancellationSignal(m: Memory, pub: PublicSessionId): Option<string> {
    var i := IndexOfPublic(m.executions, pub);
    if i == |m.executions| || !Live(m.executions[i]) || m.executions[i].id !in m.signals then None
    else Some(m.signals[m.executions[i].id])
  }

  function ClearCancellation(m: Memory, pub: PublicSessionId): Memory {
    var i := IndexOfPublic(m.executions, pub);
    if i == |m.executions| then m else m.(signals := m.signals - {m.executions[i].id})
  }

  function ForPublicSession(m: Memory, pub: PublicSessionId): Option<Record> {
    var i := IndexOfPublic(m.executions, pub);
    if i == |m.executions| then None else Some(m.executions[i])
  }

  class Registry {
    var executions: Records
    var cancellationSignals: map<ExecutionId, string>
    /** The content of the state file, if it exists. */
    var file: Option<Records>

    constructor (records: Records, file: Option<Records>)
      ensures executions == records && cancellationSignals == map[] && this.file == file
    {
      executions, cancellationSignals, this.file := records, map[], file;
    }

    /** Writes the state to a temporary file and renames it over the old one; an error leaves the old one. */
    method Persist(next: Records) returns (ok: bool)
      modifies this`file
      ensures file == if ok then Some(StoredAll(next)) else old(file)
    {
      ok := *;
      if ok {
        file := Some(StoredAll(next));
      }
    }

    method TrimState(s: Records) returns (t: Records)
      ensures t == Trimmed(s)
    {
      t := s;
      while EndedCount(t) > MAX_TERMINAL_EXECUTIONS
        invariant Trimmed(t) == Trimmed(s)
        decreases |t|
      {
        var index := 0;
        while index < |t| && Live(t[index])
          invariant index <= FirstEnded(t)
        {
          index := index + 1;
        }
        DropOldest(t);
        t := t[..index] + t[index + 1..];
      }
      TrimmedWhenFew(t);
    }

    /** An error of either kind leaves memory, the file and the signals as they were. */
    method Transact(c: Change) returns (error: Option<Error>)
      modifies this`executions, this`file
      ensures Apply(old(executions), c).Err? ==> error == Some(Apply(old(executions), c).error)
      ensures Apply(old(executions), c).Ok? ==> error.None? || error == Some(Storage)
      ensures error.Some? ==> executions == old(executions) && file == old(file)
      ensures error.None? ==> executions == Trimmed(Apply(old(executions), c).value) && file == Some(StoredAll(executions))
    {
      var next;
      error, next := Mutate(c);
      if error.Some? {
        return;
      }
      next := TrimState(next);
      var ok := Persist(next);
      if !ok {
        return Some(Storage);
      }
      executions := next;
    }

    ghost function Mem(): Memory
      reads this
    {
      Memory(executions, cancellationSignals)
    }

    /** A transaction followed by dropping the intents it settled. */
    method Operate(c: Change) returns (error: Option<Error>)
      modifies this
      ensures (Mem(), error) == Perform(old(Mem()), c, error != Some(Storage))
      ensures error.Some? ==> file == old(file)
      ensures error.None? ==> file == Some(StoredAll(executions))
    {
      var settled := SettledIds(executions, c);
      error := Transact(c);
      if error.None? {
        cancellationSignals := cancellationSignals - settled;
      }
    }

    method RequestCancel(pub: PublicSessionId, signal: string) returns (error: Option<Error>)
      modifies this`cancellationSignals
      ensures (Mem(), error) == RequestCancellation(old(Mem()), pub, signal)
    {
      var i := IndexOfPublic(executions, pub);
      if i == |executions| {
        return Some(UnknownPublicSession);
      }
      if executions[i].state.Ended? {
        return Some(AlreadyTerminal(executions[i].state.terminal.outcome));
      }
      cancellationSignals := cancellationSignals[executions[i].id := BoundedToken(signal)];
      error := None;
    }

    method ClearCancel(pub: PublicSessionId)
      modifies this`cancellationSignals
      ensures Mem() == ClearCancellation(old(Mem()), pub)
    {
      var i := IndexOfPublic(executions, pub);
      if i < |executions| {
        cancellationSignals := cancellationSignals - {executions[i].id};
      }
    }

    method Signal(pub: PublicSessionId) returns (signal: Option<string>)
      ensures signal == CancellationSignal(Mem(), pub)
    {
      var i := IndexOfPublic(executions, pub);
      if i == |executions| || !Live(executions[i]) || executions[i].id !in cancellationSignals {
        return None;
      }
      signal := Some(cancellationSignals[executions[i].id]);
    }

    method Lookup(pub: PublicSessionId) returns (record: Option<Record>)
      ensures record == ForPublicSession(Mem(), pub)
    {
      var i := IndexOfPublic(executions, pub);
      record := if i == |executions| then None else Some(executions[i]);
    }

    /** Works on a copy, as the transaction closures do. */
    method Mutate(c: Change) returns (error: Option<Error>, next: Records)
      ensures Apply(executions, c) == if error.Some? then Err(error.value) else Ok(next)
    {
      next := executions;
      match c
      case OrphanOwnedBy(owner, now) =>
        error := None;
        for i := 0 to |next|
          invariant |next| == |executions|
          invariant forall k | 0 <= k < i :: next[k] == Orphaned(executions[k], owner, now)
          invariant forall k | i <= k < |next| :: next[k] == executions[k]
        {
          next := next[i := Orphaned(next[i], owner, now)];
        }
        assert next == Apply(executions, c).value;
      case ObserveAllRunning(now) =>
        error := None;
        for i := 0 to |next|
          invariant |next| == |executions|
          invariant forall k | 0 <= k < i :: next[k] == Observed(executions[k], now)
          invariant forall k | i <= k < |next| :: next[k] == executions[k]
        {
          next := next[i := Observed(next[i], now)];
        }
        assert next == Apply(executions, c).value;
      case ReapStale(now) =>
        error := None;
        for i := 0 to |next|
          invariant |next| == |executions|
          invariant forall k | 0 <= k < i :: next[k] == Reaped(executions[k], now)
          invariant forall k | i <= k < |next| :: next[k] == executions[k]
        {
          next := next[i := Reaped(next[i], now)];
        }
        assert next == Apply(executions, c).value;
      case TransferWorkflow(task, owner) =>
        error := CheckTransfer(task, owner);
        if error.None? {
          for i := 0 to |next|
            invariant |next| == |executions|
            invariant forall k | 0 <= k < i :: next[k] == Transferred(executions[k], task, owner)
            invariant forall k | i <= k < |next| :: next[k] == executions[k]
          {
            next := next[i := Transferred(next[i], task, owner)];
          }
          assert next == Apply(executions, c).value;
        }
      case _ =>
        var result := Apply(executions, c);
        if result.Ok? {
          error, next := None, result.value;
        } else {
          error := Some(result.error);
        }
    }

    method CheckTransfer(task: TaskId, owner: SessionId) returns (error: Option<Error>)
      ensures error == TransferObstacle(executions, task, owner)
    {
      for i := 0 to |executions|
        invariant TransferObstacle(executions[i..], task, owner) == TransferObstacle(executions, task, owner)
      {
        var r := executions[i];
        assert executions[i..][1..] == executions[i + 1..];
        if r.task == task && Live(r) && r.owner != Some(owner) {
          if r.owner.Some? {
            return Some(OwnerConflict(r.owner.value));
          }
          if r.orphanedAt.None? {
            return Some(NotOrphaned);
          }
        }
      }
      error := None;
    }
  }
}
