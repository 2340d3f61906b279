/**
 The code between acquiring and releasing the operation lock, as it changes the active slot
 (src-tauri/src/app/background.rs). Each path is a sequence of the atomic actions whose interleavings
 `RuntimeControl` reasons about: no other operation changes the slot meanwhile, but the generation counter
 moves, so each generation check may answer either way, and each call to a runtime may fail.
 */
module RuntimeOwner {
  import opened Options
  import opened RuntimeControl
  import opened RuntimeSections

  /** What one action was told: whether its generation is current, and whether its call succeeds. */
  datatype Answer = Answer(current: bool, ok: bool)

  /** The slot and the next action after as many actions as there are answers. */
  function After(slot: Slot, pc: Pc, answers: seq<Answer>): (Slot, Pc)
    decreases |answers|
  {
    if answers == [] then (slot, pc)
    else
      var (s, p) := Act(slot, pc, answers[0].current, answers[0].ok);
      After(s, p, answers[1..])
  }

  /** Actions in two stretches are actions in one. */
  lemma {:induction false} AfterMore(slot: Slot, pc: Pc, first: seq<Answer>, second: seq<Answer>)
    ensures After(slot, pc, first + second) == After(After(slot, pc, first).0, After(slot, pc, first).1, second)
    decreases |first|
  {
    if first == [] {
      assert first + second == second;
    } else {
      var (s, p) := Act(slot, pc, first[0].current, first[0].ok);
      AfterMore(s, p, first[1..], second);
      assert (first + second)[1..] == first[1..] + second;
    }
  }

  /** Some actions of the lock holder lead from one slot and next action to another. */
  ghost predicate Leads(slot: Slot, pc: Pc, s: Slot, p: Pc) {
    exists answers :: After(slot, pc, answers) == (s, p)
  }

  lemma LeadsStep(slot: Slot, pc: Pc, current: bool, ok: bool)
    ensures var (s, p) := Act(slot, pc, current, ok); Leads(slot, pc, s, p)
  {
    var (s, p) := Act(slot, pc, current, ok);
    var answers := [Answer(current, ok)];
    assert answers[1..] == [];
    assert After(s, p, []) == (s, p);
    assert After(slot, pc, answers) == (s, p);
  }

  lemma LeadsOn(slot: Slot, pc: Pc, s: Slot, p: Pc, s': Slot, p': Pc)
    requires Leads(slot, pc, s, p) && Leads(s, p, s', p')
    ensures Leads(slot, pc, s', p')
  {
    var first :| After(slot, pc, first) == (s, p);
    var second :| After(s, p, second) == (s', p');
    AfterMore(slot, pc, first, second);
    assert After(slot, pc, first + second) == (s', p');
  }

  /** One more action. */
  lemma LeadsOneMore(slot: Slot, pc: Pc, s: Slot, p: Pc, current: bool, ok: bool)
    requires Leads(slot, pc, s, p)
    ensures var (s', p') := Act(s, p, current, ok); Leads(slot, pc, s', p')
  {
    var (s', p') := Act(s, p, current, ok);
    LeadsStep(s, p, current, ok);
    LeadsOn(slot, pc, s, p, s', p');
  }

  /** The calls that take things down, in the order they are made. */
  datatype Call = TunnelStopped(rt: RuntimeId) | GateClosed | LowerFinished(rt: RuntimeId)

  /** What an operation is told on its way: by its generation checks, by `runtime.start`, and by the calls that
   take down the runtime it found. Those that take down its own superseded runtime go unheeded. */
  datatype Answers = Answers(
    currentAtRestart: bool, previousTunnelOk: bool, previousLowerOk: bool, currentAtRecheck: bool,
    currentAtStart: bool, startOk: bool, currentBefore: bool, currentAfter: bool)
  {
    predicate StaysCurrent() {
      currentAtStart && currentBefore && currentAfter
    }

    predicate RestartStaysCurrent() {
      currentAtRestart && currentAtRecheck && StaysCurrent()
    }

    predicate PreviousStops() {
      previousTunnelOk && previousLowerOk
    }
  }

  function StopCalls(previous: Option<RuntimeId>): seq<Call> {
    match previous
    case None => []
    case Some(rt) => [TunnelStopped(rt), LowerFinished(rt)]
  }

  datatype ShutdownReport = ShutdownReport(tunnelFailed: bool, privilegeFailed: bool, lowerFailed: bool)

  /** What is left to do once both stop calls are made. */
  function AfterBoth(why: Why, tunnelOk: bool, lowerOk: bool): Pc {
    match why
    case Replaced => if tunnelOk && lowerOk then RestartRecheck else Leaving(StopFailed)
    case Discarded => Leaving(Superseded)
    case ByStop => Leaving(Stopped)
  }

  function BothCalled(slot: Slot, rt: RuntimeId): Slot {
    slot.(tunnelStops := slot.tunnelStops + multiset{rt}, finishes := slot.finishes + multiset{rt})
  }

  lemma LeadsThroughBoth(slot: Slot, rt: RuntimeId, why: Why, tunnelOk: bool, lowerOk: bool)
    ensures Leads(slot, TunnelStop(rt, why), BothCalled(slot, rt), AfterBoth(why, tunnelOk, lowerOk))
  {
    var stopped := slot.(tunnelStops := slot.tunnelStops + multiset{rt});
    LeadsStep(slot, TunnelStop(rt, why), true, tunnelOk);
    LeadsOneMore(slot, TunnelStop(rt, why), stopped, LowerFinish(rt, why, tunnelOk), true, lowerOk);
  }

  /** What the calls decide: a start fails exactly when its call does, a restart when either stop call does. */
  lemma CallsDecide(slot: Slot, rt: RuntimeId, first: Answer, second: Answer)
    ensures Act(slot, StartRun, first.current, first.ok).1 == Leaving(StartFailed) <==> !first.ok
    ensures After(slot, TunnelStop(rt, Replaced), [first, second]).1 ==
              if first.ok && second.ok then RestartRecheck else Leaving(StopFailed)
  {
    var (s, p) := Act(slot, TunnelStop(rt, Replaced), first.current, first.ok);
    var (s', p') := Act(s, p, second.current, second.ok);
    assert [first, second][1..] == [second];
    assert After(s', p', []) == (s', p');
    assert After(s, p, [second]) == (s', p');
  }

  class ProductionRuntimeOwner {
    var active: Option<RuntimeId>
    var started: nat                    // runtimes are numbered in the order they start
    ghost var tunnelStops: multiset<RuntimeId>
    ghost var finishes: multiset<RuntimeId>
    ghost var calls: seq<Call>

    ghost function Slot(): Slot
      reads this
    {
      RuntimeControl.Slot(active, started, tunnelStops, finishes)
    }

    constructor ()
      ensures Slot() == INIT.slot && calls == []
    {
      active, started, tunnelStops, finishes, calls := None, 0, multiset{}, multiset{}, [];
    }

    method ActivateBoxed(runtime: RuntimeId) returns (registered: bool)
      modifies `active
      ensures registered <==> old(active).None?
      ensures active == if registered then Some(runtime) else old(active)
    {
      if active.Some? {
        return false;
      }
      active := Some(runtime);
      registered := true;
    }

    method TakeActive() returns (runtime: Option<RuntimeId>)
      modifies `active
      ensures runtime == old(active) && active.None?
    {
      runtime := active;
      active := None;
    }

    /** `stop_tunnel_for_exit`, then `finish_exit_after_tunnel` whatever the first returned. */
    method StopTunnelThenFinish(runtime: RuntimeId, ghost why: Why, tunnelAnswer: bool, lowerAnswer: bool)
      returns (tunnelOk: bool, lowerOk: bool)
      modifies `tunnelStops, `finishes, `calls
      ensures tunnelOk == tunnelAnswer && lowerOk == lowerAnswer
      ensures tunnelStops == old(tunnelStops) + multiset{runtime} && finishes == old(finishes) + multiset{runtime}
      ensures calls == old(calls) + [TunnelStopped(runtime), LowerFinished(runtime)]
      ensures Leads(old(Slot()), TunnelStop(runtime, why), Slot(), AfterBoth(why, tunnelOk, lowerOk))
    {
      tunnelOk, lowerOk := tunnelAnswer, lowerAnswer;
      LeadsThroughBoth(Slot(), runtime, why, tunnelOk, lowerOk);
      tunnelStops := tunnelStops + multiset{runtime};
      calls := calls + [TunnelStopped(runtime)];
      finishes := finishes + multiset{runtime};
      calls := calls + [LowerFinished(runtime)];
    }

    /** The privilege gate is closed after the tunnel and before the rest, whatever fails. */
    method ShutdownInSecurityOrder(runtime: Option<RuntimeId>, tunnelOk: bool, gateOk: bool, lowerOk: bool)
      returns (report: ShutdownReport)
      modifies `tunnelStops, `finishes, `calls
      ensures report == ShutdownReport(runtime.Some? && !tunnelOk, !gateOk, runtime.Some? && !lowerOk)
      ensures runtime.None? ==> Slot() == old(Slot()) && calls == old(calls) + [GateClosed]
      ensures runtime.Some? ==>
                && tunnelStops == old(tunnelStops) + multiset{runtime.value}
                && finishes == old(finishes) + multiset{runtime.value}
                && calls == old(calls) + [TunnelStopped(runtime.value), GateClosed, LowerFinished(runtime.value)]
                && Leads(old(Slot()), TunnelStop(runtime.value, ByStop), Slot(), Leaving(Stopped))
    {
      var tunnelFailed, lowerFailed := false, false;
      if runtime.Some? {
        LeadsThroughBoth(Slot(), runtime.value, ByStop, true, true);
        tunnelFailed := !tunnelOk;
        tunnelStops := tunnelStops + multiset{runtime.value};
        calls := calls + [TunnelStopped(runtime.value)];
      }
      var privilegeFailed := !gateOk;
      calls := calls + [GateClosed];
      if runtime.Some? {
        lowerFailed := !lowerOk;
        finishes := finishes + multiset{runtime.value};
        calls := calls + [LowerFinished(runtime.value)];
      }
      report := ShutdownReport(tunnelFailed, privilegeFailed, lowerFailed);
    }

    /** A superseded runtime is given up, whether before or after it took the slot. */
    method ActivateRuntimeIfCurrentLocked(runtime: RuntimeId, a: Answers) returns (result: Result)
      modifies this
      ensures Leads(old(Slot()), ActivateCheck(runtime), Slot(), Leaving(result))
      ensures started == old(started) && result in {Superseded, AlreadyRegistered, Activated}
      ensures result == AlreadyRegistered <==> a.currentBefore && old(active).Some?
      ensures result == Activated <==> a.currentBefore && a.currentAfter && old(active).None?
      ensures active == if result == Activated then Some(runtime) else old(active)
      ensures calls == old(calls) + if result == Superseded then [TunnelStopped(runtime), LowerFinished(runtime)] else []
      ensures tunnelStops == old(tunnelStops) + if result == Superseded then multiset{runtime} else multiset{}
      ensures finishes == old(finishes) + if result == Superseded then multiset{runtime} else multiset{}
    {
      ghost var before, pc := Slot(), ActivateCheck(runtime);
      LeadsStep(before, pc, a.currentBefore, true);
      if !a.currentBefore {
        var tunnelAnswer: bool, lowerAnswer: bool := *, *;
        var tunnelOk, lowerOk := StopTunnelThenFinish(runtime, Discarded, tunnelAnswer, lowerAnswer);
        LeadsOn(before, pc, before, TunnelStop(runtime, Discarded), Slot(), Leaving(Superseded));
        return Superseded;
      }
      LeadsOneMore(before, pc, before, Activate(runtime), true, true);
      var registered := ActivateBoxed(runtime);
      if !registered {
        return AlreadyRegistered;
      }
      ghost var filled := Slot();
      LeadsOneMore(before, pc, filled, ActivateRecheck, a.currentAfter, true);
      if a.currentAfter {
        return Activated;
      }
      var stale := TakeActive();
      ghost var taken := Slot();
      var tunnelAnswer: bool, lowerAnswer: bool := *, *;
      var tunnelOk, lowerOk := StopTunnelThenFinish(stale.value, Discarded, tunnelAnswer, lowerAnswer);
      LeadsOn(before, pc, taken, TunnelStop(runtime, Discarded), Slot(), Leaving(Superseded));
      result := Superseded;
    }

    /** A start leaves a registered runtime alone, and otherwise starts one that it activates or gives up. */
    method StartProductionRuntimeLocked(a: Answers) returns (result: Result)
      modifies this
      ensures Leads(old(Slot()), StartCheck, Slot(), Leaving(result))
      ensures result in {Superseded, AlreadyRegistered, StartFailed, Activated}
      ensures result == AlreadyRegistered <==> a.currentAtStart && old(active).Some?
      ensures result == StartFailed <==> a.currentAtStart && old(active).None? && !a.startOk
      ensures result == Activated <==> a.StaysCurrent() && old(active).None? && a.startOk
      ensures active == if result == Activated then Some(old(started)) else old(active)
      ensures result in {AlreadyRegistered, StartFailed} || !a.currentAtStart ==> Slot() == old(Slot()) && calls == old(calls)
      ensures result == Activated ==>
                started == old(started) + 1 && calls == old(calls)
                && tunnelStops == old(tunnelStops) && finishes == old(finishes)
      ensures result == Superseded && a.currentAtStart ==>
                Slot() == GivenUp(old(Slot())) && calls == old(calls) + [TunnelStopped(old(started)), LowerFinished(old(started))]
    {
      ghost var before := Slot();
      LeadsStep(before, StartCheck, a.currentAtStart, true);
      if !a.currentAtStart {
        return Superseded;
      }
      LeadsOneMore(before, StartCheck, before, StartProbe, true, true);
      if active.Some? {
        return AlreadyRegistered;
      }
      LeadsOneMore(before, StartCheck, before, StartRun, true, a.startOk);
      if !a.startOk {
        return StartFailed;
      }
      var runtime := started;
      started := started + 1;
      ghost var running := Slot();
      result := ActivateRuntimeIfCurrentLocked(runtime, a);
      LeadsOn(before, StartCheck, running, ActivateCheck(runtime), Slot(), Leaving(result));
    }

    /** The previous runtime is taken down, and counts as stopped only if both calls succeed. */
    method TakeDownPrevious(a: Answers) returns (stopped: bool)
      modifies this
      ensures Leads(old(Slot()), RestartTake, Slot(), if stopped then RestartRecheck else Leaving(StopFailed))
      ensures stopped <==> old(active).None? || a.PreviousStops()
      ensures Slot() == TakenDown(old(Slot())) && active.None? && started == old(started)
      ensures calls == old(calls) + StopCalls(old(active))
    {
      ghost var before := Slot();
      LeadsStep(before, RestartTake, true, true);
      var previous := TakeActive();
      ghost var taken := Slot();
      if previous.None? {
        return true;
      }
      var tunnelOk, lowerOk := StopTunnelThenFinish(previous.value, Replaced, a.previousTunnelOk, a.previousLowerOk);
      stopped := tunnelOk && lowerOk;
      LeadsOn(before, RestartTake, taken, TunnelStop(previous.value, Replaced), Slot(), AfterBoth(Replaced, tunnelOk, lowerOk));
    }

    /**
     A restart that is current when it gets the lock takes down the runtime it finds before anything else, and
     then starts in the empty slot: it never finds a runtime registered there.
     */
    method RestartProductionRuntime(a: Answers) returns (result: Result)
      modifies this
      ensures Leads(old(Slot()), RestartCheck, Slot(), Leaving(result))
      ensures result in {Superseded, StopFailed, StartFailed, Activated}
      ensures result == StopFailed <==> a.currentAtRestart && old(active).Some? && !(a.previousTunnelOk && a.previousLowerOk)
      ensures result == StartFailed <==>
                a.currentAtRestart && (old(active).Some? ==> a.PreviousStops()) && a.currentAtRecheck && a.currentAtStart && !a.startOk
      ensures result == Activated <==> a.RestartStaysCurrent() && (old(active).Some? ==> a.PreviousStops()) && a.startOk
      ensures !a.currentAtRestart ==> Slot() == old(Slot()) && calls == old(calls)
      ensures a.currentAtRestart ==>
                active == if result == Activated then Some(old(started)) else None
      ensures a.currentAtRestart ==> old(calls) + StopCalls(old(active)) <= calls
      ensures result in {StopFailed, StartFailed, Activated} ==> calls == old(calls) + StopCalls(old(active))
      ensures result == Superseded && a.currentAtRestart ==>
                if a.currentAtRecheck && a.currentAtStart
                then
                  && Slot() == GivenUp(TakenDown(old(Slot())))
                  && calls == old(calls) + StopCalls(old(active)) + [TunnelStopped(old(started)), LowerFinished(old(started))]
                else Slot() == TakenDown(old(Slot())) && calls == old(calls) + StopCalls(old(active))
      ensures result in {StopFailed, StartFailed} ==> Slot() == TakenDown(old(Slot()))
      ensures result == Activated ==> Slot() == OneStarted(TakenDown(old(Slot()))).(active := Some(old(started)))
    {
      ghost var before := Slot();
      LeadsStep(before, RestartCheck, a.currentAtRestart, true);
      if !a.currentAtRestart {
        return Superseded;
      }
      var stopped := TakeDownPrevious(a);
      ghost var down := Slot();
      LeadsOn(before, RestartCheck, before, RestartTake, down, if stopped then RestartRecheck else Leaving(StopFailed));
      if !stopped {
        return StopFailed;
      }
      LeadsOneMore(before, RestartCheck, down, RestartRecheck, a.currentAtRecheck, true);
      if !a.currentAtRecheck {
        return Superseded;
      }
      result := StartProductionRuntimeLocked(a);
      LeadsOn(before, RestartCheck, down, StartCheck, Slot(), Leaving(result));
    }

    /** Both stop paths and both shutdown paths; all but the control plane's own stop close the privilege gate. */
    method StopServices(closesGate: bool)
      modifies this
      ensures Leads(old(Slot()), StopTake, Slot(), Leaving(Stopped))
      ensures Slot() == TakenDown(old(Slot())) && active.None? && started == old(started)
      ensures calls == old(calls) + match old(active)
                case Some(rt) => if closesGate then [TunnelStopped(rt), GateClosed, LowerFinished(rt)] else [TunnelStopped(rt), LowerFinished(rt)]
                case None => if closesGate then [GateClosed] else []
    {
      ghost var before := Slot();
      LeadsStep(before, StopTake, true, true);
      var previous := TakeActive();
      ghost var taken := Slot();
      var tunnelAnswer: bool, gateAnswer: bool, lowerAnswer: bool := *, *, *;
      if closesGate {
        var report := ShutdownInSecurityOrder(previous, tunnelAnswer, gateAnswer, lowerAnswer);
      } else if previous.Some? {
        var tunnelOk, lowerOk := StopTunnelThenFinish(previous.value, ByStop, tunnelAnswer, lowerAnswer);
      }
      if previous.Some? {
        LeadsOn(before, StopTake, taken, TunnelStop(previous.value, ByStop), Slot(), Leaving(Stopped));
      }
    }
  }
}
