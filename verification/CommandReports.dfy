/**
 What one control call answers and records, for every reply of the runtime, and how a later poll compares
 (src-tauri/src/control_plane/command_control.rs).
 */
module CommandReports {
  import opened Options
  import opened ExecutionRegistry
  import opened ExecutionRuns
  import opened CommandControl

  /** The cancellation intent that stands when the runtime has replied. */
  function Intent(m: Memory, req: Request): Option<string> {
    if req.action != Kill then CancellationSignal(m, req.pub)
    else if req.signal == Some(KillNow) then Some("KILL")
    else if req.signal == Some(Interrupt) then Some("INT")
    else Some("TERM")
  }

  /** A text as the registry keeps it: its first 128 characters. */
  function Cut(s: Option<string>): Option<string> {
    if s.Some? && |s.value| > 128 then Some(s.value[..128]) else s
  }

  /** The call gets as far as the runtime, which has the execution `r`. */
  ghost predicate Reaches(m: Memory, req: Request, r: Record) {
    && AllCompatible(m.executions) && ForPublicSession(m, req.pub) == Some(r) && Live(r) && r.handle.Some?
    && (req.action == Write ==> req.chars.Some? && req.chars.value != "")
  }

  lemma IntentStands(m: Memory, req: Request, r: Record)
    requires Reaches(m, req, r)
    ensures var w := WithIntent(m, req);
            && w.executions == m.executions && ForPublicSession(w, req.pub) == Some(r)
            && CancellationSignal(w, req.pub) == Intent(m, req)
            && EndedAfter(w, req.pub) == EndedAfter(m, req.pub) && OnlyIntent(m, w, req, r)
  {
    IntentInPlace(m, req);
    IntentKeepsRecords(m, req);
  }

  /** The call leaves the records, and of the intents only its own. */
  ghost predicate OnlyIntent(m: Memory, n: Memory, req: Request, r: Record) {
    && n.executions == m.executions
    && n.signals == if req.action == Kill then m.signals[r.id := Intent(m, req).value] else m.signals
  }

  // -------------------------------------------------------------------------
  // Calls that stop before the runtime
  // -------------------------------------------------------------------------

  /**
   A write of nothing is invalid; an execution that is unknown or has no handle is unavailable; one that has
   ended answers a poll from its record and nothing else. None of these changes anything.
   */
  lemma StoppedCall(m: Memory, req: Request, reply: RuntimeReply, now: nat, later: nat, persisted: bool)
    ensures
      var (n, answer) := Control(m, req, reply, now, later, persisted);
      var found := ForPublicSession(m, req.pub);
      if req.action == Write && (req.chars.None? || req.chars == Some("")) then n == m && answer == Rejected(InvalidRequest)
      else if found.None? then n == m && answer == Rejected(SessionUnavailable)
      else if !Live(found.value) && req.action == Poll then
        var t := found.value.state.terminal;
        && n == m && answer.Reported?
        && answer.report.pub == found.value.pub && answer.report.task == found.value.task
        && answer.report.stdout == "" && answer.report.stderr == "" && answer.report.truncated.None?
        && answer.report.exitCode == t.exitCode && answer.report.signal == t.signal
        && answer.report.elapsed == (if t.completedAt <= found.value.startedAt then 0 else t.completedAt - found.value.startedAt)
        && answer.report.status ==
             if t.outcome == Completed then HasCompleted
             else if t.outcome == Cancelled then WasCancelled
             else if t.outcome == TimedOut then HasTimedOut
             else if t.outcome == Lost then WasLost
             else HasFailed
      else !Live(found.value) || found.value.handle.None? ==> n == m && answer == Rejected(SessionUnavailable)
  {
  }

  // -------------------------------------------------------------------------
  // Ends
  // -------------------------------------------------------------------------

  ghost predicate CodeOf(outcome: Outcome, code: Option<string>) {
    code ==
      if outcome == Completed then None
      else if outcome == Cancelled then Some("ProcessCancelled")
      else if outcome == TimedOut then Some("ProcessTimedOut")
      else if outcome == Lost then Some("SessionUnavailable")
      else Some("ProcessFailed")
  }

  /** The record of `r` says that it ended at `now` in this way; nothing else of it but token and handle has changed. */
  ghost predicate EndRecorded(q: Record, r: Record, outcome: Outcome, exitCode: Option<int>, signal: Option<string>, now: nat) {
    && q.id == r.id && q.pub == r.pub && q.task == r.task && q.owner == r.owner
    && q.startedAt == r.startedAt && q.orphanedAt == r.orphanedAt && q.observedAt == now
    && q.handle.None? && q.hash.None? && q.state.Ended?
    && q.state.terminal.outcome == outcome && q.state.terminal.exitCode == exitCode && q.state.terminal.signal == signal
    && q.state.terminal.outputRefs == [] && q.state.terminal.completedAt == now
    && CodeOf(outcome, q.state.terminal.errorCode)
  }

  function EndOf(status: Status, cancelled: bool): Outcome
    requires status != StillRunning
  {
    if cancelled then Cancelled
    else match status
      case HasCompleted => Completed
      case HasFailed => Failed
      case WasCancelled => Cancelled
      case HasTimedOut => TimedOut
      case WasLost => Lost
  }

  ghost predicate Found(w: Memory, pub: PublicSessionId, r: Record) {
    AllCompatible(w.executions) && ForPublicSession(w, pub) == Some(r) && Live(r)
  }

  /** The end of `r` is recorded, or the record has been evicted. */
  ghost predicate Ends(n: Memory, pub: PublicSessionId, listed: bool, r: Record, t: Terminal) {
    var after := ForPublicSession(n, pub);
    && (after.Some? <==> listed)
    && (after.Some? ==> EndRecorded(after.value, r, t.outcome, t.exitCode, Cut(t.signal), t.completedAt))
  }

  lemma FinishRecords(w: Memory, pub: PublicSessionId, r: Record, t: Terminal, n: Memory)
    requires Found(w, pub, r) && t.outputRefs == [] && CodeOf(t.outcome, t.errorCode)
    requires n == Perform(w, Finish(r.id, t), true).0
    ensures Perform(w, Finish(r.id, t), true).1.None? && Ends(n, pub, EndedAfter(w, pub) < 64, r, t)
  {
    FinishSettles(w, pub, t);
    FinishedIsRecorded(r, t, Finished(r, t));
  }

  lemma FinishedIsRecorded(r: Record, t: Terminal, q: Record)
    requires q == Finished(r, t) && t.outputRefs == [] && CodeOf(t.outcome, t.errorCode)
    ensures EndRecorded(q, r, t.outcome, t.exitCode, Cut(t.signal), t.completedAt)
  {
  }

  /** The end that a runtime's observation is taken for. */
  function EndSeen(o: Observation, intent: Option<string>, now: nat): Terminal
    requires o.status != StillRunning
  {
    Terminal(EndOf(o.status, intent.Some?), o.exitCode, if o.signal.Some? then o.signal else intent, [], None, now)
  }

  /** The answer to an observed end, and its record. */
  ghost predicate EndTold(pub: PublicSessionId, r: Record, o: Observation, intent: Option<string>, listed: bool,
                          now: nat, later: nat, n: Memory, answer: Answer)
    requires o.status != StillRunning
  {
    && answer == Reported(Report(
         if intent.Some? then WasCancelled else o.status, pub, r.task, o.stdout, o.stderr,
         if later <= r.startedAt then 0 else later - r.startedAt,
         o.exitCode, if o.signal.Some? then o.signal else intent, o.truncated))
    && Ends(n, pub, listed, r, EndSeen(o, intent, now))
  }

  lemma SeenIsRecorded(o: Observation, intent: Option<string>, now: nat, t: Terminal)
    requires o.status != StillRunning && t == ObservedTerminal(o, Decided(o, intent).value, intent, now)
    ensures t == EndSeen(o, intent, now).(errorCode := t.errorCode) && CodeOf(t.outcome, t.errorCode)
    ensures Decided(o, intent) == Some(t.outcome) && (t.outcome == Cancelled ==> intent.Some? || o.status == WasCancelled)
  {
  }

  lemma SeenIsReported(w: Memory, req: Request, r: Record, o: Observation, intent: Option<string>, now: nat, later: nat, t: Terminal)
    requires o.status != StillRunning && CancellationSignal(w, req.pub) == intent
    requires t == ObservedTerminal(o, Decided(o, intent).value, intent, now) && Perform(w, Finish(r.id, t), true).1.None?
    ensures AfterObservation(w, req, r, o, now, later, true) ==
            (Perform(w, Finish(r.id, t), true).0,
             Reported(Report(if intent.Some? then WasCancelled else o.status, req.pub, r.task, o.stdout, o.stderr,
               if later <= r.startedAt then 0 else later - r.startedAt,
               o.exitCode, if o.signal.Some? then o.signal else intent, o.truncated)))
  {
    SeenIsRecorded(o, intent, now, t);
  }

  lemma EndIsTold(w: Memory, req: Request, r: Record, o: Observation, now: nat, later: nat, n: Memory, answer: Answer)
    requires Found(w, req.pub, r) && o.status != StillRunning
    requires (n, answer) == AfterObservation(w, req, r, o, now, later, true)
    ensures EndTold(req.pub, r, o, CancellationSignal(w, req.pub), EndedAfter(w, req.pub) < 64, now, later, n, answer)
  {
    var intent := CancellationSignal(w, req.pub);
    var t := ObservedTerminal(o, Decided(o, intent).value, intent, now);
    SeenIsRecorded(o, intent, now, t);
    var (after, error) := Perform(w, Finish(r.id, t), true);
    FinishRecords(w, req.pub, r, t, after);
    SeenIsReported(w, req, r, o, intent, now, later, t);
  }

  /**
   The runtime reports an end. If it is written, the report is what the runtime observed, except that a
   standing intent makes it a cancellation and names the signal where the runtime did not; and the record,
   when it is still listed, has the same outcome, exit code and, up to its first 128 characters, signal.
   */
  lemma ObservedEnd(m: Memory, req: Request, r: Record, o: Observation, now: nat, later: nat)
    requires Reaches(m, req, r) && o.status != StillRunning
    ensures var (n, answer) := Control(m, req, Observed(o), now, later, true);
            EndTold(req.pub, r, o, Intent(m, req), EndedAfter(m, req.pub) < 64, now, later, n, answer)
  {
    IntentStands(m, req, r);
    var (n, answer) := AfterObservation(WithIntent(m, req), req, r, o, now, later, true);
    EndIsTold(WithIntent(m, req), req, r, o, now, later, n, answer);
  }

  /** The answer to a cancelled command that vanished, and its record. */
  ghost predicate VanishTold(pub: PublicSessionId, r: Record, signal: Option<string>, listed: bool, now: nat, n: Memory, answer: Answer) {
    && Ends(n, pub, listed, r, Terminal(Cancelled, None, signal, [], None, now))
    && answer ==
         if !listed then Rejected(SessionUnavailable)
         else Reported(Report(WasCancelled, pub, r.task, "", "",
                if now <= r.startedAt then 0 else now - r.startedAt, None, Cut(signal), None))
  }

  lemma VanishIsTold(w: Memory, req: Request, r: Record, now: nat, n: Memory, answer: Answer)
    requires Found(w, req.pub, r) && CancellationSignal(w, req.pub).Some?
    requires (n, answer) == AfterFailure(w, req, r, NoSession, now, true)
    ensures VanishTold(req.pub, r, CancellationSignal(w, req.pub), EndedAfter(w, req.pub) < 64, now, n, answer)
  {
    var t := VanishedTerminal(CancellationSignal(w, req.pub), now);
    FinishRecords(w, req.pub, r, t, Perform(w, Finish(r.id, t), true).0);
    VanishedIsReportedExactlyWhen(w, req, now);
  }

  /** The runtime no longer knows a command whose cancellation was requested: it is recorded as cancelled. */
  lemma VanishedEnd(m: Memory, req: Request, r: Record, now: nat, later: nat)
    requires Reaches(m, req, r) && Intent(m, req).Some?
    ensures var (n, answer) := Control(m, req, Failure(NoSession), now, later, true);
            VanishTold(req.pub, r, Intent(m, req), EndedAfter(m, req.pub) < 64, now, n, answer)
  {
    IntentStands(m, req, r);
    var (n, answer) := AfterFailure(WithIntent(m, req), req, r, NoSession, now, true);
    VanishIsTold(WithIntent(m, req), req, r, now, n, answer);
  }

  lemma UnwrittenObservation(w: Memory, req: Request, r: Record, o: Observation, now: nat, later: nat)
    requires Found(w, req.pub, r) && o.status != StillRunning
    ensures AfterObservation(w, req, r, o, now, later, false) == (w, Rejected(RuntimeUnavailable))
  {
    FinishIsRefused(w, req.pub, r, ObservedTerminal(o, Decided(o, CancellationSignal(w, req.pub)).value, CancellationSignal(w, req.pub), now));
  }

  lemma UnwrittenFailure(w: Memory, req: Request, r: Record, now: nat)
    requires Found(w, req.pub, r) && CancellationSignal(w, req.pub).Some?
    ensures AfterFailure(w, req, r, NoSession, now, false) == (w, Rejected(RuntimeUnavailable))
  {
    FinishIsRefused(w, req.pub, r, VanishedTerminal(CancellationSignal(w, req.pub), now));
  }

  lemma FinishIsRefused(w: Memory, pub: PublicSessionId, r: Record, t: Terminal)
    requires Found(w, pub, r)
    ensures Perform(w, Finish(r.id, t), false) == (w, Some(Storage))
  {
    SameId(w.executions, IndexOfId(w.executions, r.id), IndexOfPublic(w.executions, pub));
  }

  /** An end that cannot be written is no end: nothing is recorded but the intent, and the runtime is called unavailable. */
  lemma UnwrittenEnd(m: Memory, req: Request, r: Record, reply: RuntimeReply, now: nat, later: nat)
    requires Reaches(m, req, r)
    requires match reply
             case Observed(o) => o.status != StillRunning
             case Failure(e) => e == NoSession && Intent(m, req).Some?
    ensures var (n, answer) := Control(m, req, reply, now, later, false);
            OnlyIntent(m, n, req, r) && answer == Rejected(RuntimeUnavailable)
  {
    IntentStands(m, req, r);
    match reply
    case Observed(o) => UnwrittenObservation(WithIntent(m, req), req, r, o, now, later);
    case Failure(e) => UnwrittenFailure(WithIntent(m, req), req, r, now);
  }

  // -------------------------------------------------------------------------
  // Calls that end nothing
  // -------------------------------------------------------------------------

  /** A command that still runs is reported as running, except to a kill, which has only been requested yet. */
  lemma ObservedRunning(m: Memory, req: Request, r: Record, o: Observation, now: nat, later: nat, persisted: bool)
    requires Reaches(m, req, r) && o.status == StillRunning
    ensures
      var (n, answer) := Control(m, req, Observed(o), now, later, persisted);
      && OnlyIntent(m, n, req, r)
      && answer ==
           if req.action == Kill then Rejected(OperationTimedOut)
           else Reported(Report(StillRunning, req.pub, r.task, o.stdout, o.stderr,
                  if later <= r.startedAt then 0 else later - r.startedAt,
                  o.exitCode, if o.signal.Some? then o.signal else Intent(m, req), o.truncated))
  {
    IntentStands(m, req, r);
  }

  /** A call that the runtime refuses takes the intent back; any other failed call lets it stand. */
  lemma FailedCall(m: Memory, req: Request, r: Record, e: RuntimeError, now: nat, later: nat, persisted: bool)
    requires Reaches(m, req, r) && !(e == NoSession && Intent(m, req).Some?)
    ensures
      var (n, answer) := Control(m, req, Failure(e), now, later, persisted);
      && (if e == InvalidCall || e == Mismatch then n.executions == m.executions && n.signals == m.signals - {r.id}
          else OnlyIntent(m, n, req, r))
      && answer == Rejected(
           match e
           case InvalidCall => InvalidRequest
           case NoSession => SessionUnavailable
           case Mismatch => RuntimeCapabilityMismatch
           case CallTimedOut => OperationTimedOut
           case NotAvailable => RuntimeUnavailable)
  {
    IntentStands(m, req, r);
  }

  // -------------------------------------------------------------------------
  // Later polls
  // -------------------------------------------------------------------------

  /** A report and the record of the end it reports agree, the signal up to its first 128 characters. */
  ghost predicate Agree(report: Report, q: Record) {
    && q.state.Ended? && report.status == StatusOf(q.state.terminal.outcome)
    && report.exitCode == q.state.terminal.exitCode && Cut(report.signal) == q.state.terminal.signal
  }

  lemma ObservedAgrees(m: Memory, req: Request, r: Record, o: Observation, now: nat, later: nat, n: Memory, answer: Answer)
    requires o.status != StillRunning && ForPublicSession(n, req.pub).Some?
    requires EndTold(req.pub, r, o, Intent(m, req), EndedAfter(m, req.pub) < 64, now, later, n, answer)
    ensures answer.Reported? && Agree(answer.report, ForPublicSession(n, req.pub).value)
  {
  }

  lemma VanishedAgrees(req: Request, r: Record, signal: Option<string>, now: nat, n: Memory, answer: Answer)
    requires VanishTold(req.pub, r, signal, ForPublicSession(n, req.pub).Some?, now, n, answer)
    requires ForPublicSession(n, req.pub).Some?
    ensures answer.Reported? && Agree(answer.report, ForPublicSession(n, req.pub).value)
  {
  }

  lemma ReportAgrees(m: Memory, req: Request, r: Record, reply: RuntimeReply, now: nat, later: nat, n: Memory, answer: Answer)
    requires Reaches(m, req, r) && (n, answer) == Control(m, req, reply, now, later, true)
    requires answer.Reported? && answer.report.status != StillRunning && ForPublicSession(n, req.pub).Some?
    ensures Agree(answer.report, ForPublicSession(n, req.pub).value) && ForPublicSession(n, req.pub).value.id == r.id
  {
    match reply
    case Observed(o) => ObservedReportAgrees(m, req, r, o, now, later, n, answer);
    case Failure(e) => FailureReportAgrees(m, req, r, e, now, later, n, answer);
  }

  lemma ObservedReportAgrees(m: Memory, req: Request, r: Record, o: Observation, now: nat, later: nat, n: Memory, answer: Answer)
    requires Reaches(m, req, r) && (n, answer) == Control(m, req, Observed(o), now, later, true)
    requires answer.Reported? && answer.report.status != StillRunning && ForPublicSession(n, req.pub).Some?
    ensures Agree(answer.report, ForPublicSession(n, req.pub).value) && ForPublicSession(n, req.pub).value.id == r.id
  {
    if o.status == StillRunning {
      ObservedRunning(m, req, r, o, now, later, true);
    } else {
      ObservedEnd(m, req, r, o, now, later);
      ObservedAgrees(m, req, r, o, now, later, n, answer);
    }
  }

  lemma FailureReportAgrees(m: Memory, req: Request, r: Record, e: RuntimeError, now: nat, later: nat, n: Memory, answer: Answer)
    requires Reaches(m, req, r) && (n, answer) == Control(m, req, Failure(e), now, later, true)
    requires answer.Reported? && ForPublicSession(n, req.pub).Some?
    ensures Agree(answer.report, ForPublicSession(n, req.pub).value) && ForPublicSession(n, req.pub).value.id == r.id
  {
    if e == NoSession && Intent(m, req).Some? {
      VanishedEnd(m, req, r, now, later);
      VanishedAgrees(req, r, Intent(m, req), now, n, answer);
    } else {
      FailedCall(m, req, r, e, now, later, true);
    }
  }

  /** What the record of an execution says after a call that was answered with its end. */
  ghost predicate Told(m: Memory, n: Memory, req: Request, r: Record, answer: Answer) {
    && Reaches(m, req, r) && answer.Reported? && answer.report.status != StillRunning && ForPublicSession(n, req.pub).Some?
  }

  /**
   Over every run: once a call has been answered with the end of an execution whose record is still listed,
   every poll that finds it later, whatever happened since, answers with the same status and exit code, and
   with the same signal up to its first 128 characters.
   */
  lemma LaterPollAgrees(events: seq<Event>, more: seq<Event>, after: seq<Event>, req: Request, r: Record, reply: RuntimeReply,
                        now: nat, later: nat, n: Memory, answer: Answer, q: Record, poll: Request, second: RuntimeReply)
    requires n == Run(events + more).mem && (n, answer) == Control(Run(events).mem, req, reply, now, later, true)
    requires Told(Run(events).mem, n, req, r, answer)
    requires q in Run(events + more + after).mem.executions && q.id == r.id
    requires poll.action == Poll && poll.pub == req.pub
    ensures
      var repeated := Control(Run(events + more + after).mem, poll, second, now, later, true).1;
      && repeated.Reported? && repeated.report.status == answer.report.status
      && repeated.report.exitCode == answer.report.exitCode && repeated.report.signal == Cut(answer.report.signal)
  {
    ReportAgrees(Run(events).mem, req, r, reply, now, later, n, answer);
    var ended := ForPublicSession(n, req.pub).value;
    assert ended in Run(events + more).mem.executions;
    LaterPollsRepeat(events + more, after, ended, q, poll, second, now, later, true);
  }
}
