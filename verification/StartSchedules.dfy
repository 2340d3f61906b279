/**
 Schedules of the runtime control protocol: any operation can be run to its end, and a stop that still waits
 for the lock can take the runtime of a start drawn after it (src-tauri/src/app/background.rs).
 */
module StartSchedules {
  import opened Options
  import opened RuntimeControl

  /** Where some events lead from a state. */
  function RunFrom(s: State, more: seq<Event>): State
    decreases |more|
  {
    if more == [] then s else RunFrom(Next(s, more[0]), more[1..])
  }

  lemma RunFromMove(s: State, i: nat, rest: seq<Event>)
    requires i < |s.ops|
    ensures RunFrom(s, [Move(i, true)] + rest) == RunFrom(MoveOp(s, i, true), rest)
  {
    assert ([Move(i, true)] + rest)[1..] == rest;
  }

  lemma {:induction false} RunFromMore(s: State, a: seq<Event>, b: seq<Event>)
    ensures RunFrom(s, a + b) == RunFrom(RunFrom(s, a), b)
    decreases |a|
  {
    if a == [] {
      assert a + b == b;
    } else {
      assert (a + b)[1..] == a[1..] + b;
      RunFromMore(Next(s, a[0]), a[1..], b);
    }
  }

  /** A run is what its later events make of the state its earlier ones lead to. */
  lemma {:induction false} RunSplits(events: seq<Event>, more: seq<Event>)
    ensures Run(events + more) == RunFrom(Run(events), more)
    decreases |more|
  {
    if more == [] {
      assert events + more == events;
    } else {
      assert (events + [more[0]])[..|events|] == events;
      RunSplits(events + [more[0]], more[1..]);
      assert events + more == (events + [more[0]]) + more[1..];
    }
  }

  // -------------------------------------------------------------------------
  // Running one operation to its end
  // -------------------------------------------------------------------------

  /** The newest operation is on its way to a settled slot, if all calls succeed. */
  predicate OnCourse(op: Op) {
    op.kind != Stop &&
    match op.pc
    case Leaving(r) => r in {Activated, AlreadyRegistered}
    case Done(r) => r in {Activated, AlreadyRegistered}
    case TunnelStop(_, why) => why == Replaced
    case LowerFinish(_, why, tunnelOk) => why == Replaced && tunnelOk
    case StopTake => false
    case _ => true
  }

  lemma CourseHolds(slot: Slot, op: Op)
    requires OnCourse(op) && InCritical(op.pc) && !op.pc.Leaving?
    ensures OnCourse(op.(pc := Act(slot, op.pc, true, true).1))
  {
  }

  lemma CourseKept(s: State, i: nat)
    requires i + 1 == |s.ops| && OnCourse(s.ops[i])
    ensures OnCourse(MoveOp(s, i, true).ops[i])
  {
    if InCritical(s.ops[i].pc) && !s.ops[i].pc.Leaving? {
      CourseHolds(s.slot, s.ops[i]);
    }
  }

  predicate MayRun(s: State, i: nat) {
    i < |s.ops| && (s.ops[i].pc.Done? ==> s.lock.None?) && (s.lock.None? || s.lock == Some(i))
  }

  lemma RunsOn(s: State, i: nat)
    requires Exclusive(s) && MayRun(s, i) && !s.ops[i].pc.Done?
    ensures CanAct(s, i) && MayRun(MoveOp(s, i, true), i)
  {
    assert InCritical(s.ops[i].pc) <==> s.lock == Some(i);
    if InCritical(s.ops[i].pc) {
      ActStaysCritical(s.slot, s.ops[i].pc, IsCurrent(s, i), true);
    }
  }

  /** What running an operation to its end leaves of the others. */
  ghost predicate Ran(s: State, t: State, i: nat) {
    && |t.ops| == |s.ops| && i < |s.ops| && t.ops[i].pc.Done? && t.ops[i].kind == s.ops[i].kind && t.lock.None?
    && (forall k | 0 <= k < |s.ops| && k != i :: t.ops[k] == s.ops[k])
    && (i + 1 == |s.ops| && OnCourse(s.ops[i]) ==> OnCourse(t.ops[i]))
  }

  lemma RanStep(s: State, m: State, t: State, i: nat)
    requires i < |s.ops| && |m.ops| == |s.ops| && m.ops[i].kind == s.ops[i].kind && Ran(m, t, i)
    requires forall k | 0 <= k < |s.ops| && k != i :: m.ops[k] == s.ops[k]
    requires i + 1 == |s.ops| && OnCourse(s.ops[i]) ==> OnCourse(m.ops[i])
    ensures Ran(s, t, i)
  {
  }

  lemma {:induction false} RunToEnd(s: State, i: nat) returns (more: seq<Event>, t: State)
    requires Inv(s) && MayRun(s, i)
    ensures NoDraws(more) && t == RunFrom(s, more) && Inv(t) && Ran(s, t, i)
    decreases Left(s.ops[i].pc)
  {
    if s.ops[i].pc.Done? {
      more, t := [], s;
    } else {
      var m := MoveOp(s, i, true);
      RunsOn(s, i);
      ActionsAreBounded(s, i, true);
      MoveKeepsKinds(s, i, true);
      MoveKeepsInv(s, i, true);
      if i + 1 == |s.ops| && OnCourse(s.ops[i]) {
        CourseKept(s, i);
      }
      var rest;
      rest, t := RunToEnd(m, i);
      more := [Move(i, true)] + rest;
      RunFromMove(s, i, rest);
      RanStep(s, m, t, i);
    }
  }

  // -------------------------------------------------------------------------
  // Running everything to its end
  // -------------------------------------------------------------------------

  function Total(ops: seq<Op>): nat {
    if ops == [] then 0 else Left(ops[0].pc) + Total(ops[1..])
  }

  lemma {:induction false} TotalDrops(ops: seq<Op>, i: nat, op: Op)
    requires i < |ops| && Left(op.pc) < Left(ops[i].pc)
    ensures Total(ops[i := op]) < Total(ops)
  {
    var after := ops[i := op];
    if i == 0 {
      assert after[1..] == ops[1..];
    } else {
      TotalDrops(ops[1..], i - 1, op);
      assert after[1..] == ops[1..][i - 1 := op];
    }
  }

  lemma MoveIsUpdate(s: State, i: nat, ok: bool)
    requires i < |s.ops|
    ensures MoveOp(s, i, ok).ops == s.ops[i := MoveOp(s, i, ok).ops[i]] && (s.lateStop ==> MoveOp(s, i, ok).lateStop)
  {
  }

  /** What is over stays as it is, and a late stop stays recorded. */
  ghost predicate Drained(s: State, t: State) {
    && |t.ops| == |s.ops| && Quiescent(t) && (s.lateStop ==> t.lateStop)
    && forall k | 0 <= k < |s.ops| && s.ops[k].pc.Done? :: t.ops[k] == s.ops[k]
  }

  lemma Progress(s: State) returns (i: nat, m: State)
    requires Inv(s) && !Quiescent(s)
    ensures CanAct(s, i) && m == MoveOp(s, i, true) && Inv(m) && Total(m.ops) < Total(s.ops)
  {
    i := SomeCanAct(s);
    m := MoveOp(s, i, true);
    ActionsAreBounded(s, i, true);
    MoveIsUpdate(s, i, true);
    TotalDrops(s.ops, i, m.ops[i]);
    MoveKeepsInv(s, i, true);
  }

  lemma {:induction false} Drain(s: State) returns (more: seq<Event>, t: State)
    requires Inv(s)
    ensures NoDraws(more) && t == RunFrom(s, more) && Inv(t) && Drained(s, t)
    decreases Total(s.ops)
  {
    if Quiescent(s) {
      more, t := [], s;
    } else {
      var i, m := Progress(s);
      var rest;
      rest, t := Drain(m);
      more := [Move(i, true)] + rest;
      RunFromMove(s, i, rest);
      DrainedStep(s, i, t);
    }
  }

  lemma DrainedStep(s: State, i: nat, t: State)
    requires CanAct(s, i) && Drained(MoveOp(s, i, true), t)
    ensures Drained(s, t)
  {
    MoveIsUpdate(s, i, true);
    MoveKeepsKinds(s, i, true);
  }

  // -------------------------------------------------------------------------
  // A stop that comes late
  // -------------------------------------------------------------------------

  /** The newest operation has settled the slot and a stop still waits for the lock. */
  ghost predicate StopWaits(s: State, q: nat) {
    && s.lock.None? && q + 1 < |s.ops| && s.ops[q] == Op(Stop, Queued)
    && s.ops[|s.ops| - 1].pc.Done? && OnCourse(s.ops[|s.ops| - 1])
  }

  /** Whoever holds the lock lets go of it. */
  lemma FreeLock(s: State) returns (more: seq<Event>, t: State)
    requires Inv(s)
    ensures NoDraws(more) && t == RunFrom(s, more) && Inv(t) && |t.ops| == |s.ops| && t.lock.None?
    ensures forall k | 0 <= k < |s.ops| && s.ops[k].pc.Queued? :: t.ops[k] == s.ops[k]
  {
    if s.lock.None? {
      more, t := [], s;
    } else {
      assert InCritical(s.ops[s.lock.value].pc);
      more, t := RunToEnd(s, s.lock.value);
    }
  }

  lemma NewestSettlesFirst(s: State, q: nat) returns (more: seq<Event>, t: State)
    requires Inv(s) && q + 1 < |s.ops| && s.ops[q] == Op(Stop, Queued)
    requires s.ops[|s.ops| - 1].pc.Queued? && s.ops[|s.ops| - 1].kind != Stop
    ensures NoDraws(more) && t == RunFrom(s, more) && Inv(t) && |t.ops| == |s.ops| && StopWaits(t, q)
  {
    var first, m := FreeLock(s);
    var second;
    second, t := RunToEnd(m, |s.ops| - 1);
    more := first + second;
    RunFromMore(s, first, second);
    RanWaits(m, t, q);
  }

  lemma RanWaits(m: State, t: State, q: nat)
    requires q + 1 < |m.ops| && m.ops[q] == Op(Stop, Queued) && OnCourse(m.ops[|m.ops| - 1]) && Ran(m, t, |m.ops| - 1)
    ensures StopWaits(t, q)
  {
  }

  lemma TakeLate(s: State, q: nat)
    requires StopWaits(s, q)
    ensures var t := MoveOp(MoveOp(s, q, true), q, true);
            t.lateStop && |t.ops| == |s.ops| && t.ops[|s.ops| - 1] == s.ops[|s.ops| - 1]
  {
    var m := MoveOp(s, q, true);
    assert m.ops[q] == Op(Stop, StopTake) && m.ops[|s.ops| - 1] == s.ops[|s.ops| - 1];
    assert NewestSettled(m);
  }

  lemma StopTakesLate(s: State, q: nat) returns (more: seq<Event>, t: State)
    requires Inv(s) && StopWaits(s, q)
    ensures NoDraws(more) && t == RunFrom(s, more) && Inv(t) && Quiescent(t) && t.lateStop
    ensures |t.ops| == |s.ops| && t.ops[|s.ops| - 1] == s.ops[|s.ops| - 1]
  {
    var one := MoveOp(s, q, true);
    var two := MoveOp(one, q, true);
    MoveKeepsInv(s, q, true);
    MoveKeepsKinds(s, q, true);
    MoveKeepsInv(one, q, true);
    TakeLate(s, q);
    var rest;
    rest, t := Drain(two);
    RunFromMove(one, q, rest);
    RunFromMove(s, q, [Move(q, true)] + rest);
    more := [Move(q, true)] + ([Move(q, true)] + rest);
  }

  lemma LateStopSchedule(s: State, q: nat) returns (more: seq<Event>, t: State)
    requires Inv(s) && q + 1 < |s.ops| && s.ops[q] == Op(Stop, Queued)
    requires s.ops[|s.ops| - 1].pc.Queued? && s.ops[|s.ops| - 1].kind != Stop
    ensures NoDraws(more) && t == RunFrom(s, more) && Quiescent(t) && |t.ops| == |s.ops|
    ensures OnCourse(t.ops[|t.ops| - 1]) && t.slot.active.None?
  {
    var first, m := NewestSettlesFirst(s, q);
    var second;
    second, t := StopTakesLate(m, q);
    more := first + second;
    RunFromMore(s, first, second);
    EmptyThough(t);
  }

  /** From any reachable state with a queued stop, a start or restart drawn next may settle the slot and still leave it empty. */
  lemma QueuedStopMayWin(before: seq<Event>, kind: Kind, q: nat) returns (after: seq<Event>)
    requires kind != Stop && q < |Run(before).ops| && Run(before).ops[q] == Op(Stop, Queued)
    ensures EndsAfter(before, kind, after) && !NewestDecided(before, kind, after)
  {
    var s := DrawnBehind(before, kind, q);
    var t;
    after, t := LateStopSchedule(s, q);
    RunSplits(before + [Draw(kind)], after);
    SettledButEmpty(before, kind, after, t);
  }

  lemma DrawnBehind(before: seq<Event>, kind: Kind, q: nat) returns (s: State)
    requires kind != Stop && q < |Run(before).ops| && Run(before).ops[q] == Op(Stop, Queued)
    ensures s == Run(before + [Draw(kind)]) && Inv(s) && q + 1 < |s.ops| && s.ops[q] == Op(Stop, Queued)
    ensures s.ops[|s.ops| - 1] == Op(kind, Queued)
  {
    DrawLast(before, kind);
    InvHolds(before + [Draw(kind)]);
    s := Run(before + [Draw(kind)]);
  }

  lemma SettledButEmpty(before: seq<Event>, kind: Kind, after: seq<Event>, t: State)
    requires NoDraws(after) && t == Run(before + [Draw(kind)] + after) && Quiescent(t) && t.ops != []
    requires OnCourse(t.ops[|t.ops| - 1]) && t.slot.active.None?
    ensures EndsAfter(before, kind, after) && !NewestDecided(before, kind, after)
  {
  }

  lemma EmptyThough(s: State)
    requires Inv(s) && s.ops != [] && s.ops[|s.ops| - 1].pc.Done? && OnCourse(s.ops[|s.ops| - 1]) && s.lateStop
    ensures s.slot.active.None?
  {
  }

  /**
   What a caller can tell when a start or restart is drawn: it alone decides whether a runtime is left active,
   in every run that ends with it, exactly when no stop still waits for the lock.
   */
  lemma NewestDecidesExactlyWhen(before: seq<Event>, kind: Kind)
    requires kind != Stop
    ensures (forall after | EndsAfter(before, kind, after) :: NewestDecided(before, kind, after)) <==> NoStopQueued(Run(before))
  {
    if NoStopQueued(Run(before)) {
      forall after | EndsAfter(before, kind, after) ensures NewestDecided(before, kind, after) {
        NewestStartDecides(before, kind, after);
      }
    } else {
      var q :| 0 <= q < |Run(before).ops| && Run(before).ops[q].kind == Stop && Run(before).ops[q].pc.Queued?;
      var after := QueuedStopMayWin(before, kind, q);
    }
  }

  // -------------------------------------------------------------------------
  // The smallest such run
  // -------------------------------------------------------------------------

  lemma StopDrawnFirstStartActivates() returns (events: seq<Event>)
    ensures Run(events) == State([Op(Stop, Queued), Op(Start, Done(Activated))], None, Slot(Some(0), 1, multiset{}, multiset{}), false)
  {
    events := [Draw(Stop), Draw(Start)];
    assert events[..1] == [Draw(Stop)] && events[..1][..0] == [];
    assert Run(events).ops == [Op(Stop, Queued), Op(Start, Queued)];
    for n := 0 to 8
      invariant |Run(events).ops| == 2
      invariant Run(events) == State(
        [Op(Stop, Queued),
         Op(Start, [Queued, StartCheck, StartProbe, StartRun, ActivateCheck(0), Activate(0), ActivateRecheck, Leaving(Activated), Done(Activated)][n])],
        if 0 < n < 8 then Some(1) else None,
        Slot(if n >= 6 then Some(0) else None, if n >= 4 then 1 else 0, multiset{}, multiset{}), false)
    {
      Then(events, 1, true);
      events := events + [Move(1, true)];
    }
  }

  /** The stop of that run after `n` actions. */
  predicate StopRuns(s: State, n: nat) {
    && n <= 5 && |s.ops| == 2 && s.ops[1] == Op(Start, Done(Activated)) && s.ops[0].kind == Stop
    && (s.ops[0].pc == if n == 0 then Queued else if n == 1 then StopTake else if n == 2 then TunnelStop(0, ByStop)
                       else if n == 3 then LowerFinish(0, ByStop, true) else if n == 4 then Leaving(Stopped) else Done(Stopped))
    && s.lock == (if 0 < n < 5 then Some(0) else None)
    && s.slot.active == if n < 2 then Some(0) else None
  }

  lemma StopRunsOn(s: State, n: nat)
    requires StopRuns(s, n) && n < 5
    ensures StopRuns(MoveOp(s, 0, true), n + 1)
  {
  }

  lemma {:induction false} StopRunsOut(s: State, n: nat) returns (more: seq<Event>, t: State)
    requires StopRuns(s, n)
    ensures t == RunFrom(s, more) && StopRuns(t, 5)
    decreases 5 - n
  {
    if n == 5 {
      more, t := [], s;
    } else {
      StopRunsOn(s, n);
      var rest;
      rest, t := StopRunsOut(MoveOp(s, 0, true), n + 1);
      RunFromMove(s, 0, rest);
      more := [Move(0, true)] + rest;
    }
  }

  /** A stop drawn first takes the runtime of a start drawn later, since stops do not check their generation. */
  lemma OlderStopTakesNewerRuntime() returns (events: seq<Event>)
    ensures var s := Run(events);
            && Quiescent(s) && s.slot.active.None?
            && |s.ops| == 2 && s.ops[0].kind == Stop && s.ops[1] == Op(Start, Done(Activated))
  {
    var first := StopDrawnFirstStartActivates();
    events := StopRunsAfter(first, Run(first));
  }

  lemma StopRunsAfter(first: seq<Event>, s: State) returns (events: seq<Event>)
    requires s == Run(first) && StopRuns(s, 0)
    ensures StopRuns(Run(events), 5)
  {
    var more, t := StopRunsOut(s, 0);
    events := first + more;
    RunSplits(first, more);
  }
}
