/**
 Control calls that overlap: a call reads the cancellation intent, and commits what it observed later
 (src-tauri/src/control_plane/command_control.rs).
 */
module ControlInterleaving {
  import opened Options
  import opened ExecutionRegistry
  import opened ExecutionRuns
  import opened CommandControl

  /** The commit of an observation under an intent, or its absence, that was read earlier. */
  function Committed(m: Memory, id: ExecutionId, o: Observation, read: Option<string>, now: nat, persisted: bool): Memory
    requires Decided(o, read).Some?
  {
    Perform(m, Finish(id, ObservedTerminal(o, Decided(o, read).value, read, now)), persisted).0
  }

  /** An intent stands when the commit is made, and the end it records is not a cancellation. */
  ghost predicate IntentLoses(m: Memory, n: Memory, pub: PublicSessionId) {
    CancellationSignal(m, pub).Some? && EndedBy(m, n, pub) && ForPublicSession(n, pub).value.state.terminal.outcome != Cancelled
  }

  /** Finishing one execution does not end another. */
  lemma FinishLeavesOthers(m: Memory, pub: PublicSessionId, id: ExecutionId, t: Terminal, persisted: bool)
    requires AllCompatible(m.executions) && ForPublicSession(m, pub).Some? && Live(ForPublicSession(m, pub).value)
    requires ForPublicSession(m, pub).value.id != id
    ensures !EndedBy(m, Perform(m, Finish(id, t), persisted).0, pub)
  {
    var s, n := m.executions, Perform(m, Finish(id, t), persisted).0;
    var i, k := IndexOfPublic(s, pub), IndexOfPublic(n.executions, pub);
    if persisted && Apply(s, Finish(id, t)).Ok? && k < |n.executions| {
      var u := Apply(s, Finish(id, t)).value;
      TrimmedMembers(u);
      assert n.executions[k] in Trimmed(u);
      var j :| 0 <= j < |u| && u[j] == n.executions[k];
      assert u[j].pub == s[j].pub;
      SamePublic(s, i, j);
    }
  }

  /**
   Exactly when an intent that stands at the commit does not win: when it was not there at the read, the
   runtime reports an end that is no cancellation, and the commit is written and its record still listed.
   */
  lemma IntentLosesExactlyWhen(m: Memory, pub: PublicSessionId, id: ExecutionId, o: Observation, read: Option<string>, now: nat, persisted: bool)
    requires AllCompatible(m.executions) && Decided(o, read).Some?
    ensures IntentLoses(m, Committed(m, id, o, read, now, persisted), pub) <==>
            && CancellationSignal(m, pub).Some? && ForPublicSession(m, pub).value.id == id
            && read.None? && TerminalOutcome(o.status) != Some(Cancelled)
            && persisted && EndedAfter(m, pub) < MAX_TERMINAL_EXECUTIONS
  {
    var t := ObservedTerminal(o, Decided(o, read).value, read, now);
    if CancellationSignal(m, pub).Some? {
      if ForPublicSession(m, pub).value.id == id {
        FinishSettles(m, pub, t);
      } else {
        FinishLeavesOthers(m, pub, id, t, persisted);
      }
    }
  }

  /** A cancellation of that execution is requested. */
  ghost predicate Requests(w: World, e: Event, id: ExecutionId) {
    e.RequestCancel? && ForPublicSession(w.mem, e.pub).Some? && ForPublicSession(w.mem, e.pub).value.id == id
  }

  lemma OnlyRequestsAdd(w: World, e: Event, id: ExecutionId)
    requires id !in w.mem.signals && id in Next(w, e).mem.signals
    ensures Requests(w, e, id)
  {
  }

  lemma RequestedLast(events: seq<Event>, e: Event, id: ExecutionId)
    requires id !in Run(events).mem.signals && id in Run(events + [e]).mem.signals
    ensures Requests(Run(events), e, id)
  {
    AppendOne(events, e);
    OnlyRequestsAdd(Run(events), e, id);
  }

  /** An intent that was not there at the read and stands at the commit was requested between them. */
  lemma {:induction false} RequestedBetween(events: seq<Event>, mid: seq<Event>, id: ExecutionId) returns (i: nat)
    requires id !in Run(events).mem.signals && id in Run(events + mid).mem.signals
    ensures i < |mid| && Requests(Run(events + mid[..i]), mid[i], id)
    decreases |mid|
  {
    assert events + [] == events;
    var init, last := mid[..|mid| - 1], mid[|mid| - 1];
    assert events + mid == (events + init) + [last];
    if id in Run(events + init).mem.signals {
      i := RequestedBetween(events, init, id);
      assert init[..i] == mid[..i];
    } else {
      RequestedLast(events + init, last, id);
      i := |init|;
    }
  }

  /**
   Over every run: an observing call that finds its execution live at the read and after whose commit an
   intent has lost was overtaken, between read and commit, by a request to cancel that execution.
   */
  lemma LostIntentsOvertake(events: seq<Event>, mid: seq<Event>, pub: PublicSessionId, o: Observation, now: nat, persisted: bool) returns (i: nat)
    requires
      var m := Run(events).mem;
      ForPublicSession(m, pub).Some? && Live(ForPublicSession(m, pub).value) && Decided(o, CancellationSignal(m, pub)).Some?
    requires
      var m, n := Run(events).mem, Run(events + mid).mem;
      var id := ForPublicSession(m, pub).value.id;
      IntentLoses(n, Committed(n, id, o, CancellationSignal(m, pub), now, persisted), pub)
    ensures i < |mid| && Requests(Run(events + mid[..i]), mid[i], ForPublicSession(Run(events).mem, pub).value.id)
  {
    var m, n := Run(events).mem, Run(events + mid).mem;
    var id := ForPublicSession(m, pub).value.id;
    InvHolds(events + mid);
    IntentLosesExactlyWhen(n, pub, id, o, CancellationSignal(m, pub), now, persisted);
    i := RequestedBetween(events, mid, id);
  }

  /**
   And every request there that still stands does lose: whatever else happens between the read and the commit,
   an intent that arrives meanwhile does not win over an end already observed.
   */
  lemma KillBetweenLoses(events: seq<Event>, mid: seq<Event>, pub: PublicSessionId, o: Observation, now: nat)
    requires
      var m, n := Run(events).mem, Run(events + mid).mem;
      && ForPublicSession(m, pub).Some? && Live(ForPublicSession(m, pub).value) && CancellationSignal(m, pub).None?
      && CancellationSignal(n, pub).Some? && ForPublicSession(n, pub).value.id == ForPublicSession(m, pub).value.id
      && EndedAfter(n, pub) < MAX_TERMINAL_EXECUTIONS
    requires TerminalOutcome(o.status).Some? && TerminalOutcome(o.status) != Some(Cancelled)
    ensures
      var n := Run(events + mid).mem;
      IntentLoses(n, Committed(n, ForPublicSession(Run(events).mem, pub).value.id, o, None, now, true), pub)
  {
    InvHolds(events + mid);
    IntentLosesExactlyWhen(Run(events + mid).mem, pub, ForPublicSession(Run(events).mem, pub).value.id, o, None, now, true);
  }

  /** Such requests there are: one that comes alone between the read and the commit. */
  lemma KillAloneLoses(events: seq<Event>, pub: PublicSessionId, signal: string, o: Observation, now: nat)
    requires
      var m := Run(events).mem;
      && ForPublicSession(m, pub).Some? && Live(ForPublicSession(m, pub).value) && CancellationSignal(m, pub).None?
      && EndedAfter(m, pub) < MAX_TERMINAL_EXECUTIONS
    requires TerminalOutcome(o.status).Some? && TerminalOutcome(o.status) != Some(Cancelled)
    ensures
      var n := Run(events + [RequestCancel(pub, signal)]).mem;
      IntentLoses(n, Committed(n, ForPublicSession(Run(events).mem, pub).value.id, o, None, now, true), pub)
  {
    AppendOne(events, RequestCancel(pub, signal));
    InvHolds(events);
    RequestAtCommitLoses(Run(events).mem, pub, signal, o, now);
  }

  lemma RequestAtCommitLoses(m: Memory, pub: PublicSessionId, signal: string, o: Observation, now: nat)
    requires AllCompatible(m.executions) && ForPublicSession(m, pub).Some? && Live(ForPublicSession(m, pub).value)
    requires EndedAfter(m, pub) < MAX_TERMINAL_EXECUTIONS
    requires TerminalOutcome(o.status).Some? && TerminalOutcome(o.status) != Some(Cancelled)
    ensures
      var n := RequestCancellation(m, pub, signal).0;
      IntentLoses(n, Committed(n, ForPublicSession(m, pub).value.id, o, None, now, true), pub)
  {
    var n := RequestCancellation(m, pub, signal).0;
    IntentLosesExactlyWhen(n, pub, ForPublicSession(m, pub).value.id, o, None, now, true);
  }

  /** A call that the runtime fails leaves an intent standing exactly when it neither refuses the call nor settles the execution. */
  lemma IntentSurvivesFailureExactlyWhen(m: Memory, req: Request, e: RuntimeError, now: nat, persisted: bool)
    requires AllCompatible(m.executions) && CancellationSignal(m, req.pub).Some?
    ensures
      var r := ForPublicSession(m, req.pub).value;
      CancellationSignal(AfterFailure(m, req, r, e, now, persisted).0, req.pub).Some? <==>
        e != InvalidCall && e != Mismatch && !(e == NoSession && persisted)
  {
    FinishSettles(m, req.pub, VanishedTerminal(CancellationSignal(m, req.pub), now));
  }
}
