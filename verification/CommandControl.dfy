/**
 Polling, writing to and killing a detached command (src-tauri/src/control_plane/command_control.rs).

 One call is one step. The runtime is arbitrary: its reply is an input. `now` and `later` are the clock
 readings for the recorded end and for the reported elapsed time.
 */
module CommandControl {
  import opened Options
  import opened Integers
  import opened ExecutionRegistry
  import opened ExecutionRuns

  datatype Action = Poll | Write | Kill
  datatype KillSignal = Term | KillNow | Interrupt
  datatype Status = StillRunning | HasCompleted | HasFailed | WasCancelled | HasTimedOut | WasLost

  datatype Observation = Observation(
    status: Status, exitCode: Option<int>, signal: Option<string>, stdout: string, stderr: string, truncated: Option<bool>)

  datatype RuntimeError = InvalidCall | NoSession | Mismatch | CallTimedOut | NotAvailable
  datatype RuntimeReply = Observed(observation: Observation) | Failure(error: RuntimeError)

  datatype Request = Request(action: Action, chars: Option<string>, signal: Option<KillSignal>, pub: PublicSessionId)

  datatype ControlError =
    InvalidRequest | SessionUnavailable | RuntimeUnavailable | RuntimeCapabilityMismatch | OperationTimedOut | ExecutionConflict

  datatype Report = Report(
    status: Status, pub: PublicSessionId, task: TaskId, stdout: string, stderr: string,
    elapsed: nat, exitCode: Option<int>, signal: Option<string>, truncated: Option<bool>)

  datatype Answer = Reported(report: Report) | Rejected(error: ControlError)

  function SignalName(s: KillSignal): string {
    match s case Term => "TERM" case KillNow => "KILL" case Interrupt => "INT"
  }

  function TerminalOutcome(s: Status): Option<Outcome> {
    match s
    case StillRunning => None
    case HasCompleted => Some(Completed)
    case HasFailed => Some(Failed)
    case WasCancelled => Some(Cancelled)
    case HasTimedOut => Some(TimedOut)
    case WasLost => Some(Lost)
  }

  function StatusOf(o: Outcome): Status {
    match o
    case Completed => HasCompleted
    case Failed => HasFailed
    case Blocked => HasFailed
    case Cancelled => WasCancelled
    case TimedOut => HasTimedOut
    case Lost => WasLost
  }

  function ErrorCode(o: Outcome): Option<string> {
    match o
    case Completed => None
    case Cancelled => Some("ProcessCancelled")
    case TimedOut => Some("ProcessTimedOut")
    case Lost => Some("SessionUnavailable")
    case Failed => Some("ProcessFailed")
    case Blocked => Some("ProcessFailed")
  }

  function MapRuntimeError(e: RuntimeError): ControlError {
    match e
    case InvalidCall => InvalidRequest
    case NoSession => SessionUnavailable
    case Mismatch => RuntimeCapabilityMismatch
    case CallTimedOut => OperationTimedOut
    case NotAvailable => RuntimeUnavailable
  }

  function MapRegistryError(e: Error): ControlError {
    match e
    case AlreadyTerminal(_) => ExecutionConflict
    case UnknownExecution => SessionUnavailable
    case _ => RuntimeUnavailable
  }

  function FromTerminal(r: Record): Report
    requires r.state.Ended?
  {
    var t := r.state.terminal;
    Report(StatusOf(t.outcome), r.pub, r.task, "", "", SaturatingSub(t.completedAt, r.startedAt), t.exitCode, t.signal, None)
  }

  function OrElse<T>(a: Option<T>, b: Option<T>): Option<T> {
    if a.Some? then a else b
  }

  /** The terminal recorded when the runtime no longer knows a command whose cancellation was requested. */
  function VanishedTerminal(signal: Option<string>, now: nat): Terminal {
    Terminal(Cancelled, None, signal, [], Some("ProcessCancelled"), now)
  }

  function ObservedTerminal(o: Observation, outcome: Outcome, signal: Option<string>, now: nat): Terminal {
    Terminal(outcome, o.exitCode, OrElse(o.signal, signal), [], ErrorCode(outcome), now)
  }

  /** A recorded cancellation intent decides the outcome, whatever the runtime calls it. */
  function Decided(o: Observation, signal: Option<string>): Option<Outcome> {
    if TerminalOutcome(o.status).Some? && signal.Some? then Some(Cancelled) else TerminalOutcome(o.status)
  }

  /** The memory in which the runtime is called. */
  function WithIntent(m: Memory, req: Request): Memory {
    if req.action == Kill
    then RequestCancellation(m, req.pub, SignalName(if req.signal.Some? then req.signal.value else Term)).0
    else m
  }

  function AfterFailure(m: Memory, req: Request, r: Record, e: RuntimeError, now: nat, persisted: bool): (Memory, Answer) {
    var signal := CancellationSignal(m, req.pub);
    if e == NoSession && signal.Some? then
      var (n, error) := Perform(m, Finish(r.id, VanishedTerminal(signal, now)), persisted);
      if error.Some? && !error.value.AlreadyTerminal? then (n, Rejected(MapRegistryError(error.value)))
      else
        var settled := ForPublicSession(n, req.pub);
        if settled.None? then (n, Rejected(SessionUnavailable))
        else if Live(settled.value) then (n, Rejected(ExecutionConflict))
        else (n, Reported(FromTerminal(settled.value)))
    else if e == InvalidCall || e == Mismatch then (ClearCancellation(m, req.pub), Rejected(MapRuntimeError(e)))
    else (m, Rejected(MapRuntimeError(e)))
  }

  function AfterObservation(m: Memory, req: Request, r: Record, o: Observation, now: nat, later: nat, persisted: bool): (Memory, Answer) {
    var signal := CancellationSignal(m, req.pub);
    var outcome := Decided(o, signal);
    var report := Report(
      if outcome == Some(Cancelled) then WasCancelled else o.status,
      req.pub, r.task, o.stdout, o.stderr, SaturatingSub(later, r.startedAt), o.exitCode, OrElse(o.signal, signal), o.truncated);
    if req.action == Kill && o.status == StillRunning then (m, Rejected(OperationTimedOut))
    else if outcome.None? then (m, Reported(report))
    else
      var (n, error) := Perform(m, Finish(r.id, ObservedTerminal(o, outcome.value, signal, now)), persisted);
      if error.Some? then (n, Rejected(MapRegistryError(error.value))) else (n, Reported(report))
  }

  function Control(m: Memory, req: Request, reply: RuntimeReply, now: nat, later: nat, persisted: bool): (Memory, Answer) {
    var found := ForPublicSession(m, req.pub);
    if req.action == Write && (req.chars.None? || req.chars.value == "") then (m, Rejected(InvalidRequest))
    else if found.None? then (m, Rejected(SessionUnavailable))
    else if !Live(found.value) then
      (m, if req.action == Poll then Reported(FromTerminal(found.value)) else Rejected(SessionUnavailable))
    else if found.value.handle.None? then (m, Rejected(SessionUnavailable))
    else match reply
      case Failure(e) => AfterFailure(WithIntent(m, req), req, found.value, e, now, persisted)
      case Observed(o) => AfterObservation(WithIntent(m, req), req, found.value, o, now, later, persisted)
  }

  /** The call as it drives the registry, step by step. */
  method ControlCommand(reg: Registry, req: Request, reply: RuntimeReply, now: nat, later: nat) returns (answer: Answer, ghost persisted: bool)
    modifies reg
    ensures (reg.Mem(), answer) == Control(old(reg.Mem()), req, reply, now, later, persisted)
  {
    persisted := true;
    if req.action == Write && (req.chars.None? || |req.chars.value| == 0) {
      return Rejected(InvalidRequest), true;
    }
    var found := reg.Lookup(req.pub);
    if found.None? {
      return Rejected(SessionUnavailable), true;
    }
    var execution := found.value;
    if execution.state.Ended? {
      answer := if req.action == Poll then Reported(FromTerminal(execution)) else Rejected(SessionUnavailable);
      return;
    }
    if execution.handle.None? {
      return Rejected(SessionUnavailable), true;
    }
    if req.action == Kill {
      var error := reg.RequestCancel(req.pub, SignalName(if req.signal.Some? then req.signal.value else Term));
      match error
      case Some(e) => return Rejected(MapRegistryError(e)), true;
      case None =>
    }
    match reply
    case Failure(e) =>
      answer, persisted := OnFailure(reg, req, execution, e, now);
    case Observed(o) =>
      answer, persisted := OnObservation(reg, req, execution, o, now, later);
  }

  method OnFailure(reg: Registry, req: Request, execution: Record, e: RuntimeError, now: nat) returns (answer: Answer, ghost persisted: bool)
    modifies reg
    ensures (reg.Mem(), answer) == AfterFailure(old(reg.Mem()), req, execution, e, now, persisted)
  {
    persisted := true;
    var signal := reg.Signal(req.pub);
    if e == NoSession && signal.Some? {
      var error := reg.Operate(Finish(execution.id, VanishedTerminal(signal, now)));
      persisted := error != Some(Storage);
      if error.Some? && !error.value.AlreadyTerminal? {
        answer := Rejected(MapRegistryError(error.value));
        return;
      }
      var settled := reg.Lookup(req.pub);
      if settled.None? {
        answer := Rejected(SessionUnavailable);
      } else if Live(settled.value) {
        answer := Rejected(ExecutionConflict);
      } else {
        answer := Reported(FromTerminal(settled.value));
      }
      return;
    }
    if e == InvalidCall || e == Mismatch {
      reg.ClearCancel(req.pub);
    }
    answer := Rejected(MapRuntimeError(e));
  }

  method OnObservation(reg: Registry, req: Request, execution: Record, o: Observation, now: nat, later: nat)
    returns (answer: Answer, ghost persisted: bool)
    modifies reg
    ensures (reg.Mem(), answer) == AfterObservation(old(reg.Mem()), req, execution, o, now, later, persisted)
  {
    persisted := true;
    var signal := reg.Signal(req.pub);
    if req.action == Kill && o.status == StillRunning {
      return Rejected(OperationTimedOut), true;
    }
    var outcome := TerminalOutcome(o.status);
    if outcome.Some? && signal.Some? {
      outcome := Some(Cancelled);
    }
    if outcome.Some? {
      var error := reg.Operate(Finish(execution.id, ObservedTerminal(o, outcome.value, signal, now)));
      persisted := error != Some(Storage);
      if error.Some? {
        answer := Rejected(MapRegistryError(error.value));
        return;
      }
    }
    var status := if outcome == Some(Cancelled) then WasCancelled else o.status;
    answer := Reported(Report(
      status, req.pub, execution.task, o.stdout, o.stderr,
      SaturatingSub(later, execution.startedAt), o.exitCode, OrElse(o.signal, signal), o.truncated));
  }

  // -------------------------------------------------------------------------
  // Main results
  // -------------------------------------------------------------------------

  lemma SamePublic(s: Records, i: nat, j: nat)
    requires AllCompatible(s) && i < |s| && j < |s| && s[i].pub == s[j].pub
    ensures i == j
  {
  }

  /** How many ended executions are listed after the one of a public session. */
  function EndedAfter(m: Memory, pub: PublicSessionId): nat {
    var i := IndexOfPublic(m.executions, pub);
    if i == |m.executions| then 0 else EndedCount(m.executions[i + 1..])
  }

  /**
   Finishing a live execution: its record is then the finished one, and is still listed exactly when fewer
   than 64 ended executions are listed after it.
   */
  lemma FinishSettles(m: Memory, pub: PublicSessionId, t: Terminal)
    requires AllCompatible(m.executions) && ForPublicSession(m, pub).Some? && Live(ForPublicSession(m, pub).value)
    ensures var r := ForPublicSession(m, pub).value;
            var (n, error) := Perform(m, Finish(r.id, t), true);
            && error.None? && r.id !in n.signals
            && ForPublicSession(n, pub) ==
               if EndedAfter(m, pub) < MAX_TERMINAL_EXECUTIONS then Some(Finished(r, t)) else None
  {
    var s, i := m.executions, IndexOfPublic(m.executions, pub);
    var r := s[i];
    SameId(s, IndexOfId(s, r.id), i);
    var u := s[i := Finished(r, t)];
    assert Apply(s, Finish(r.id, t)) == Ok(u);
    forall j | 0 <= j < |u| && j != i ensures u[j].pub != pub {
      assert Compatible(s[if j < i then j else i], s[if j < i then i else j]);
    }
    TrimmedLists(u, i);
    assert u[i + 1..] == s[i + 1..];
    ListedOrNot(Trimmed(u), pub, u[i]);
  }

  lemma ListedOrNot(s: Records, pub: PublicSessionId, r: Record)
    requires forall q | q in s && q.pub == pub :: q == r
    ensures IndexOfPublic(s, pub) < |s| <==> exists q :: q in s && q.pub == pub
    ensures IndexOfPublic(s, pub) < |s| ==> s[IndexOfPublic(s, pub)] == r
  {
    var i := IndexOfPublic(s, pub);
    if i < |s| {
      assert s[i] in s;
    }
  }

  lemma IntentIsRecorded(m: Memory, req: Request)
    requires req.action == Kill && ForPublicSession(m, req.pub).Some? && Live(ForPublicSession(m, req.pub).value)
    ensures var n := WithIntent(m, req); n.executions == m.executions && CancellationSignal(n, req.pub).Some?
  {
  }

  /**
   A command that the runtime no longer knows and whose cancellation was requested is settled as cancelled,
   and the caller gets that report exactly when fewer than 64 ended executions are listed after it; otherwise
   the record just settled has been trimmed and the session is reported as unavailable.
   */
  lemma VanishedIsReportedExactlyWhen(m: Memory, req: Request, now: nat)
    requires AllCompatible(m.executions) && ForPublicSession(m, req.pub).Some? && Live(ForPublicSession(m, req.pub).value)
    requires CancellationSignal(m, req.pub).Some?
    ensures var r := ForPublicSession(m, req.pub).value;
            AfterFailure(m, req, r, NoSession, now, true).1 ==
              if EndedAfter(m, req.pub) < MAX_TERMINAL_EXECUTIONS
              then Reported(FromTerminal(Finished(r, VanishedTerminal(CancellationSignal(m, req.pub), now))))
              else Rejected(SessionUnavailable)
  {
    FinishSettles(m, req.pub, VanishedTerminal(CancellationSignal(m, req.pub), now));
  }

  /** What the call leaves of the record it found live: as it was, ended, or evicted. */
  ghost predicate Leaves(n: Memory, pub: PublicSessionId, r: Record, outcome: Outcome) {
    var after := ForPublicSession(n, pub);
    after == Some(r) || after.None? || (after.value.state.Ended? && after.value.state.terminal.outcome == outcome)
  }

  lemma FinishLeaves(m: Memory, pub: PublicSessionId, t: Terminal, persisted: bool)
    requires AllCompatible(m.executions) && ForPublicSession(m, pub).Some? && Live(ForPublicSession(m, pub).value)
    ensures var r := ForPublicSession(m, pub).value;
            var (n, error) := Perform(m, Finish(r.id, t), persisted);
            && Leaves(n, pub, r, t.outcome)
            && (error.None? ==> ForPublicSession(n, pub) != Some(r))
  {
    FinishSettles(m, pub, t);
  }

  lemma FailureSettles(m: Memory, req: Request, e: RuntimeError, now: nat, persisted: bool)
    requires AllCompatible(m.executions) && ForPublicSession(m, req.pub).Some? && Live(ForPublicSession(m, req.pub).value)
    ensures var r := ForPublicSession(m, req.pub).value;
            var (n, answer) := AfterFailure(m, req, r, e, now, persisted);
            && Leaves(n, req.pub, r, Cancelled)
            && (answer.Reported? ==> answer.report.status == WasCancelled && ForPublicSession(n, req.pub) != Some(r))
  {
    FinishSettles(m, req.pub, VanishedTerminal(CancellationSignal(m, req.pub), now));
  }

  lemma ObservedAnswer(m: Memory, req: Request, r: Record, o: Observation, now: nat, later: nat, persisted: bool)
    requires Decided(o, CancellationSignal(m, req.pub)).Some?
    ensures var signal := CancellationSignal(m, req.pub);
            var outcome := Decided(o, signal).value;
            var (n, answer) := AfterObservation(m, req, r, o, now, later, persisted);
            var (after, error) := Perform(m, Finish(r.id, ObservedTerminal(o, outcome, signal, now)), persisted);
            n == after && (answer.Reported? ==> error.None? && answer.report.status == StatusOf(outcome))
  {
  }

  lemma ObservationSettles(m: Memory, req: Request, o: Observation, now: nat, later: nat, persisted: bool)
    requires AllCompatible(m.executions) && ForPublicSession(m, req.pub).Some? && Live(ForPublicSession(m, req.pub).value)
    ensures var r := ForPublicSession(m, req.pub).value;
            var (n, answer) := AfterObservation(m, req, r, o, now, later, persisted);
            var outcome := Decided(o, CancellationSignal(m, req.pub));
            if outcome.None? then
              n == m && (answer.Reported? ==> req.action != Kill && answer.report.status == StillRunning)
            else
              && Leaves(n, req.pub, r, outcome.value)
              && (answer.Reported? ==> answer.report.status == StatusOf(outcome.value) && ForPublicSession(n, req.pub) != Some(r))
  {
    var signal := CancellationSignal(m, req.pub);
    if Decided(o, signal).Some? {
      ObservedAnswer(m, req, ForPublicSession(m, req.pub).value, o, now, later, persisted);
      FinishLeaves(m, req.pub, ObservedTerminal(o, Decided(o, signal).value, signal, now), persisted);
    }
  }

  /** The intent does not change the records. */
  lemma IntentKeepsRecords(m: Memory, req: Request)
    ensures WithIntent(m, req).executions == m.executions
    ensures req.action != Kill ==> WithIntent(m, req) == m
  {
  }

  lemma IntentInPlace(m: Memory, req: Request)
    requires AllCompatible(m.executions) && ForPublicSession(m, req.pub).Some? && Live(ForPublicSession(m, req.pub).value)
    ensures var w := WithIntent(m, req);
            ForPublicSession(w, req.pub) == ForPublicSession(m, req.pub) && AllCompatible(w.executions)
    ensures req.action == Kill ==> CancellationSignal(WithIntent(m, req), req.pub).Some?
  {
    IntentKeepsRecords(m, req);
    if req.action == Kill {
      IntentIsRecorded(m, req);
    }
  }

  /** A kill that is answered with a report reports the command as cancelled. */
  lemma KillReportsCancelled(m: Memory, req: Request, reply: RuntimeReply, now: nat, later: nat, persisted: bool)
    requires AllCompatible(m.executions) && req.action == Kill
    ensures var answer := Control(m, req, reply, now, later, persisted).1;
            answer.Reported? ==> answer.report.status == WasCancelled
  {
    var found := ForPublicSession(m, req.pub);
    if found.Some? && Live(found.value) {
      IntentInPlace(m, req);
      match reply
      case Failure(e) => FailureSettles(WithIntent(m, req), req, e, now, persisted);
      case Observed(o) => ObservationSettles(WithIntent(m, req), req, o, now, later, persisted);
    }
  }

  /** The execution ended during this call. */
  ghost predicate EndedBy(m: Memory, n: Memory, pub: PublicSessionId) {
    && ForPublicSession(m, pub).Some? && Live(ForPublicSession(m, pub).value)
    && ForPublicSession(n, pub).Some? && !Live(ForPublicSession(n, pub).value)
  }

  /** If a cancellation was requested, by this call or before it, an end this call records is a cancellation. */
  lemma CancellationWins(m: Memory, req: Request, reply: RuntimeReply, now: nat, later: nat, persisted: bool)
    requires AllCompatible(m.executions)
    requires req.action == Kill || CancellationSignal(m, req.pub).Some?
    ensures var n := Control(m, req, reply, now, later, persisted).0;
            EndedBy(m, n, req.pub) ==> ForPublicSession(n, req.pub).value.state.terminal.outcome == Cancelled
  {
    var found := ForPublicSession(m, req.pub);
    if found.Some? && Live(found.value) {
      IntentInPlace(m, req);
      IntentKeepsRecords(m, req);
      match reply
      case Failure(e) => FailureSettles(WithIntent(m, req), req, e, now, persisted);
      case Observed(o) => ObservationSettles(WithIntent(m, req), req, o, now, later, persisted);
    }
  }

  /** A report is what the record says, unless the record was evicted. */
  lemma ReportMatchesRecord(m: Memory, req: Request, reply: RuntimeReply, now: nat, later: nat, persisted: bool)
    requires AllCompatible(m.executions)
    ensures var (n, answer) := Control(m, req, reply, now, later, persisted);
            answer.Reported? && ForPublicSession(n, req.pub).Some? ==>
              var r := ForPublicSession(n, req.pub).value;
              answer.report.status == if Live(r) then StillRunning else StatusOf(r.state.terminal.outcome)
  {
    var found := ForPublicSession(m, req.pub);
    if found.Some? && Live(found.value) {
      IntentInPlace(m, req);
      match reply
      case Failure(e) => FailureSettles(WithIntent(m, req), req, e, now, persisted);
      case Observed(o) => ObservationSettles(WithIntent(m, req), req, o, now, later, persisted);
    }
  }

  /** On every registry that can arise, for every request, reply and disk behaviour. */
  lemma ControlGuarantees(events: seq<Event>, req: Request, reply: RuntimeReply, now: nat, later: nat, persisted: bool)
    ensures var m := Run(events).mem;
            var (n, answer) := Control(m, req, reply, now, later, persisted);
            var after := ForPublicSession(n, req.pub);
            && (req.action == Kill && answer.Reported? ==> answer.report.status == WasCancelled)
            && ((req.action == Kill || CancellationSignal(m, req.pub).Some?) && EndedBy(m, n, req.pub) ==>
                  after.value.state.terminal.outcome == Cancelled)
            && (answer.Reported? && after.Some? ==>
                  answer.report.status == if Live(after.value) then StillRunning else StatusOf(after.value.state.terminal.outcome))
  {
    InvHolds(events);
    var m := Run(events).mem;
    ReportMatchesRecord(m, req, reply, now, later, persisted);
    if req.action == Kill {
      KillReportsCancelled(m, req, reply, now, later, persisted);
    }
    if req.action == Kill || CancellationSignal(m, req.pub).Some? {
      CancellationWins(m, req, reply, now, later, persisted);
    }
  }

  /** The registry operation a reply leads to, if any. */
  function FollowUp(w: Memory, req: Request, r: Record, reply: RuntimeReply, now: nat, persisted: bool): Option<Event> {
    var signal := CancellationSignal(w, req.pub);
    match reply
    case Failure(e) =>
      if e == NoSession && signal.Some? then Some(Do(Finish(r.id, VanishedTerminal(signal, now)), persisted))
      else if e == InvalidCall || e == Mismatch then Some(ClearCancel(req.pub))
      else None
    case Observed(o) =>
      if Decided(o, signal).Some?
      then Some(Do(Finish(r.id, ObservedTerminal(o, Decided(o, signal).value, signal, now)), persisted))
      else None
  }

  lemma FollowUpIsReply(w: World, req: Request, r: Record, reply: RuntimeReply, now: nat, later: nat, persisted: bool)
    ensures var e := FollowUp(w.mem, req, r, reply, now, persisted);
            (if e.None? then w else Next(w, e.value)).mem ==
            match reply
            case Failure(f) => AfterFailure(w.mem, req, r, f, now, persisted).0
            case Observed(o) => AfterObservation(w.mem, req, r, o, now, later, persisted).0
  {
  }

  /** A control call does to the registry what some registry operations would do in its place. */
  lemma ControlIsRegistryRun(events: seq<Event>, req: Request, reply: RuntimeReply, now: nat, later: nat, persisted: bool)
    returns (more: seq<Event>)
    ensures Run(events + more).mem == Control(Run(events).mem, req, reply, now, later, persisted).0
  {
    more := [];
    assert events + [] == events;
    var m := Run(events).mem;
    var found := ForPublicSession(m, req.pub);
    if found.None? || !Live(found.value) || found.value.handle.None? {
      return;
    }
    if req.action == Write && (req.chars.None? || req.chars.value == "") {
      return;
    }
    if req.action == Kill {
      more := [RequestCancel(req.pub, SignalName(if req.signal.Some? then req.signal.value else Term))];
      AppendOne(events, more[0]);
    }
    var w := Run(events + more);
    FollowUpIsReply(w, req, found.value, reply, now, later, persisted);
    var next := FollowUp(w.mem, req, found.value, reply, now, persisted);
    if next.Some? {
      AppendOne(events + more, next.value);
      assert (events + more) + [next.value] == events + (more + [next.value]);
      more := more + [next.value];
    }
  }

  lemma AppendOne(events: seq<Event>, e: Event)
    ensures Run(events + [e]) == Next(Run(events), e)
  {
    assert (events + [e])[..|events|] == events;
  }

  /** After an execution has ended, every later poll that still finds its record repeats that end. */
  lemma LaterPollsRepeat(before: seq<Event>, after: seq<Event>, r: Record, q: Record, req: Request, reply: RuntimeReply,
                         now: nat, later: nat, persisted: bool)
    requires r in Run(before).mem.executions && !Live(r)
    requires q in Run(before + after).mem.executions && q.id == r.id
    requires req.action == Poll && req.pub == r.pub
    ensures var (m, answer) := Control(Run(before + after).mem, req, reply, now, later, persisted);
            && m == Run(before + after).mem
            && answer.Reported? && answer.report.status == StatusOf(r.state.terminal.outcome)
            && answer.report.exitCode == r.state.terminal.exitCode && answer.report.signal == r.state.terminal.signal
  {
    OutcomeIsFinal(before, after, r, q);
    InvHolds(before + after);
    var s := Run(before + after).mem.executions;
    var j :| 0 <= j < |s| && s[j] == q;
    SamePublic(s, IndexOfPublic(s, req.pub), j);
  }
}
