/**
 Generation-stamped start, restart, stop and shutdown of the production runtime
 (src-tauri/src/app/background.rs).

 Any number of operations run at once. Each first draws a generation from one atomic counter, then
 queues on the operation lock, and re-reads the counter at every staleness check. The model keeps one
 entry per operation, in the order the generations were drawn: the operation at index `i` drew `i + 1`,
 so the counter is the number of entries. One event performs one atomic action of one operation, with
 the outcome of a fallible call (`runtime.start`, `stop_tunnel_for_exit`, `finish_exit_after_tunnel`,
 spawning a thread) chosen by the event.
 */
module RuntimeControl {
  import opened Options

  type RuntimeId = nat

  /** `Stop` stands for both stop paths and both shutdown paths, which treat the active slot alike. */
  datatype Kind = Start | SpawnedStart | Restart | Stop

  datatype Result =
    | Superseded         // a later generation was drawn
    | AlreadyRegistered  // start found a runtime registered
    | StartFailed
    | StopFailed         // restart could not stop the previous runtime
    | SpawnFailed
    | Activated
    | Stopped

  /** Why a runtime is being taken down: by a restart, because its start was superseded, or by a stop. */
  datatype Why = Replaced | Discarded | ByStop

  /** The next action of an operation. Every action from `RestartCheck` on is under the operation lock. */
  datatype Pc =
    | Queued
    | RestartCheck
    | RestartTake
    | RestartRecheck
    | StartCheck
    | StartProbe
    | StartRun
    | ActivateCheck(rt: RuntimeId)
    | Activate(rt: RuntimeId)
    | ActivateRecheck
    | StopTake
    | TunnelStop(rt: RuntimeId, why: Why)
    | LowerFinish(rt: RuntimeId, why: Why, tunnelOk: bool)
    | Leaving(result: Result)
    | Done(result: Result)

  datatype Op = Op(kind: Kind, pc: Pc)

  /** The active slot, and what has happened to the runtimes that were started. */
  datatype Slot = Slot(
    active: Option<RuntimeId>,
    started: nat,                    // runtimes 0..started have had a successful start
    tunnelStops: multiset<RuntimeId>,
    finishes: multiset<RuntimeId>)

  /** `lateStop`: some stop took the slot after the newest operation had settled it. */
  datatype State = State(ops: seq<Op>, lock: Option<nat>, slot: Slot, lateStop: bool)

  datatype Event = Draw(kind: Kind) | Move(op: nat, ok: bool)

  const INIT := State([], None, Slot(None, 0, multiset{}, multiset{}), false)

  predicate IsCurrent(s: State, i: nat) {
    |s.ops| == i + 1
  }

  predicate Settled(op: Op) {
    (op.pc.Leaving? || op.pc.Done?) && op.pc.result in {Activated, AlreadyRegistered}
  }

  /** The slot was settled by the newest operation. */
  predicate NewestSettled(s: State) {
    s.ops != [] && Settled(s.ops[|s.ops| - 1])
  }

  predicate InCritical(pc: Pc) {
    !pc.Queued? && !pc.Done?
  }

  function FirstAction(kind: Kind): Pc {
    match kind
    case Restart => RestartCheck
    case Stop => StopTake
    case Start | SpawnedStart => StartCheck
  }

  /** The action of the lock holder at `pc`; `current` is what its generation check would read. */
  function Act(slot: Slot, pc: Pc, current: bool, ok: bool): (Slot, Pc) {
    match pc
    case RestartCheck => (slot, if current then RestartTake else Leaving(Superseded))
    case RestartTake =>
      if slot.active.None? then (slot, RestartRecheck)
      else (slot.(active := None), TunnelStop(slot.active.value, Replaced))
    case RestartRecheck => (slot, if current then StartCheck else Leaving(Superseded))
    case StartCheck => (slot, if current then StartProbe else Leaving(Superseded))
    case StartProbe => (slot, if slot.active.Some? then Leaving(AlreadyRegistered) else StartRun)
    case StartRun =>
      if !ok then (slot, Leaving(StartFailed)) else (slot.(started := slot.started + 1), ActivateCheck(slot.started))
    case ActivateCheck(rt) => (slot, if current then Activate(rt) else TunnelStop(rt, Discarded))
    case Activate(rt) =>
      if slot.active.Some? then (slot, Leaving(AlreadyRegistered)) else (slot.(active := Some(rt)), ActivateRecheck)
    case ActivateRecheck =>
      if current then (slot, Leaving(Activated))
      else if slot.active.Some? then (slot.(active := None), TunnelStop(slot.active.value, Discarded))
      else (slot, Leaving(Superseded))
    case StopTake =>
      if slot.active.None? then (slot, Leaving(Stopped))
      else (slot.(active := None), TunnelStop(slot.active.value, ByStop))
    case TunnelStop(rt, why) => (slot.(tunnelStops := slot.tunnelStops + multiset{rt}), LowerFinish(rt, why, ok))
    case LowerFinish(rt, why, tunnelOk) =>
      (slot.(finishes := slot.finishes + multiset{rt}),
       match why
       case Replaced => if tunnelOk && ok then RestartRecheck else Leaving(StopFailed)
       case Discarded => Leaving(Superseded)
       case ByStop => Leaving(Stopped))
    case Queued | Leaving(_) | Done(_) => (slot, pc)
  }

  function Goto(s: State, i: nat, pc: Pc): State
    requires i < |s.ops|
  {
    s.(ops := s.ops[i := s.ops[i].(pc := pc)])
  }

  function MoveOp(s: State, i: nat, ok: bool): State
    requires i < |s.ops|
  {
    var op := s.ops[i];
    if op.pc.Queued? then
      if op.kind == SpawnedStart && !ok then Goto(s, i, Done(SpawnFailed))
      else if s.lock.Some? then s
      else Goto(s.(lock := Some(i)), i, FirstAction(op.kind))
    else if op.pc.Leaving? then Goto(s.(lock := None), i, Done(op.pc.result))
    else
      var (slot, pc) := Act(s.slot, op.pc, IsCurrent(s, i), ok);
      Goto(s.(slot := slot, lateStop := s.lateStop || (op.pc.StopTake? && NewestSettled(s))), i, pc)
  }

  function Next(s: State, e: Event): State {
    match e
    case Draw(kind) => s.(ops := s.ops + [Op(kind, Queued)], lateStop := false)
    case Move(i, ok) => if i < |s.ops| then MoveOp(s, i, ok) else s
  }

  function Run(events: seq<Event>): State {
    if events == [] then INIT else Next(Run(events[..|events| - 1]), events[|events| - 1])
  }

  // -------------------------------------------------------------------------
  // What every reachable state satisfies
  // -------------------------------------------------------------------------

  ghost predicate KindFits(op: Op) {
    match op.pc
    case RestartCheck | RestartTake | RestartRecheck => op.kind == Restart
    case StopTake => op.kind == Stop
    case TunnelStop(_, why) => WhyFits(why, op.kind)
    case LowerFinish(_, why, _) => WhyFits(why, op.kind)
    case Queued => true
    case Leaving(r) => r != SpawnFailed && (r == Stopped <==> op.kind == Stop)
    case Done(r) => r == Stopped <==> op.kind == Stop
    case _ => op.kind != Stop
  }

  ghost predicate WhyFits(why: Why, kind: Kind) {
    match why
    case Replaced => kind == Restart
    case Discarded => kind != Stop
    case ByStop => kind == Stop
  }

  /** One operation at a time is between acquiring and releasing the operation lock. */
  ghost predicate Exclusive(s: State) {
    && (s.lock.Some? ==> s.lock.value < |s.ops|)
    && (forall i | 0 <= i < |s.ops| :: InCritical(s.ops[i].pc) <==> s.lock == Some(i))
    && (forall i | 0 <= i < |s.ops| :: KindFits(s.ops[i]))
  }

  function HolderPc(s: State): Pc {
    if s.lock.Some? && s.lock.value < |s.ops| then s.ops[s.lock.value].pc else Queued
  }

  /** The runtime the lock holder has in hand and has not finished with. */
  function InHand(pc: Pc): Option<RuntimeId> {
    match pc
    case ActivateCheck(rt) => Some(rt)
    case Activate(rt) => Some(rt)
    case TunnelStop(rt, _) => Some(rt)
    case LowerFinish(rt, _, _) => Some(rt)
    case _ => None
  }

  /** A runtime is unstarted, active, in hand, or finished with; each stop call is made once, tunnel first. */
  ghost predicate Placed(slot: Slot, pc: Pc, rt: RuntimeId) {
    && slot.finishes[rt] == (if rt < slot.started && slot.active != Some(rt) && InHand(pc) != Some(rt) then 1 else 0)
    && slot.tunnelStops[rt] == (if InHand(pc) == Some(rt) && pc.LowerFinish? then 1 else slot.finishes[rt])
  }

  ghost predicate Conserved(slot: Slot, pc: Pc) {
    && (slot.active.Some? ==> slot.active.value < slot.started)
    && (InHand(pc).Some? ==> InHand(pc).value < slot.started)
    && (forall rt :: Placed(slot, pc, rt))
  }

  predicate SlotKnownEmpty(pc: Pc) {
    InHand(pc).Some? || pc.RestartRecheck? || pc.StartRun?
  }

  ghost predicate SlotTracked(slot: Slot, pc: Pc) {
    && (SlotKnownEmpty(pc) ==> slot.active.None?)
    && (pc.ActivateRecheck? ==> slot.active.Some?)
  }

  lemma ActConserves(slot: Slot, pc: Pc, current: bool, ok: bool)
    requires Conserved(slot, pc) && SlotTracked(slot, pc)
    ensures var (slot', pc') := Act(slot, pc, current, ok); Conserved(slot', pc') && SlotTracked(slot', pc')
  {
    var (slot', pc') := Act(slot, pc, current, ok);
    forall rt ensures Placed(slot', pc', rt) {
      assert Placed(slot, pc, rt);
      ActPlaces(slot, pc, current, ok, rt);
    }
  }

  lemma ActPlaces(slot: Slot, pc: Pc, current: bool, ok: bool, rt: RuntimeId)
    requires Placed(slot, pc, rt) && SlotTracked(slot, pc)
    requires InHand(pc).Some? ==> InHand(pc).value < slot.started
    requires slot.active.Some? ==> slot.active.value < slot.started
    ensures Placed(Act(slot, pc, current, ok).0, Act(slot, pc, current, ok).1, rt)
  {
  }

  predicate TakenByStop(pc: Pc) {
    (pc.TunnelStop? || pc.LowerFinish?) && pc.why == ByStop
  }

  /** Where the lock holder may be once the newest operation has acted: it will not fill the slot. */
  predicate Harmless(pc: Pc) {
    pc.Queued? || pc.RestartCheck? || pc.StartCheck? || pc.StopTake? || TakenByStop(pc) || pc.Leaving?
  }

  predicate Over(pc: Pc) {
    pc.Leaving? || pc.Done?
  }

  /** Once the newest operation has acted on the slot, no older one can fill it again. */
  ghost predicate NewestDecides(newest: Op, slot: Slot, holder: Pc, lateStop: bool) {
    && (newest.kind == Stop && (TakenByStop(newest.pc) || Over(newest.pc)) ==> slot.active.None? && Harmless(holder))
    && (Over(newest.pc) && newest.pc.result in {StartFailed, StopFailed} ==> slot.active.None? && Harmless(holder))
    && (Settled(newest) ==> (slot.active.Some? <==> !lateStop) && Harmless(holder))
    && (!Settled(newest) ==> !lateStop)
    && (Over(newest.pc) ==> newest.pc.result != Superseded)
    && (newest.pc.TunnelStop? || newest.pc.LowerFinish? ==> newest.pc.why != Discarded)
  }

  ghost predicate Inv(s: State) {
    && Exclusive(s)
    && Conserved(s.slot, HolderPc(s)) && SlotTracked(s.slot, HolderPc(s))
    && (s.ops != [] ==> NewestDecides(s.ops[|s.ops| - 1], s.slot, HolderPc(s), s.lateStop))
  }

  lemma ActAsNewest(kind: Kind, slot: Slot, pc: Pc, ok: bool)
    requires InCritical(pc) && !pc.Leaving? && KindFits(Op(kind, pc)) && SlotTracked(slot, pc)
    requires NewestDecides(Op(kind, pc), slot, pc, false)
    ensures var (slot', pc') := Act(slot, pc, true, ok);
            KindFits(Op(kind, pc')) && NewestDecides(Op(kind, pc'), slot', pc', false)
  {
  }

  lemma ActAsOlder(newest: Op, kind: Kind, slot: Slot, pc: Pc, ok: bool, lateStop: bool)
    requires InCritical(pc) && !pc.Leaving? && KindFits(Op(kind, pc)) && SlotTracked(slot, pc)
    requires NewestDecides(newest, slot, pc, lateStop)
    ensures var (slot', pc') := Act(slot, pc, false, ok);
            && KindFits(Op(kind, pc'))
            && NewestDecides(newest, slot', pc', lateStop || (pc.StopTake? && Settled(newest)))
  {
  }

  lemma ActStaysCritical(slot: Slot, pc: Pc, current: bool, ok: bool)
    requires InCritical(pc)
    ensures InCritical(Act(slot, pc, current, ok).1)
  {
  }

  /** Only the moving operation's entry changes, and mutual exclusion is kept. */
  lemma GotoKeepsExclusive(s: State, i: nat, lock: Option<nat>, pc: Pc)
    requires i < |s.ops| && Exclusive(s) && KindFits(s.ops[i].(pc := pc))
    requires InCritical(s.ops[i].pc) || s.lock.None? || lock == s.lock
    requires if InCritical(pc) then lock == Some(i) else lock == if InCritical(s.ops[i].pc) then None else s.lock
    ensures var t := Goto(s.(lock := lock), i, pc); Exclusive(t) && (InCritical(pc) ==> HolderPc(t) == pc)
    ensures !InCritical(pc) && lock == s.lock ==> HolderPc(Goto(s.(lock := lock), i, pc)) == HolderPc(s)
  {
    var t := Goto(s.(lock := lock), i, pc);
    assert forall k | 0 <= k < |s.ops| && k != i :: t.ops[k] == s.ops[k];
    assert InCritical(s.ops[i].pc) <==> s.lock == Some(i);
  }

  lemma ActKindFits(slot: Slot, op: Op, current: bool, ok: bool)
    requires KindFits(op) && InCritical(op.pc) && !op.pc.Leaving?
    ensures KindFits(op.(pc := Act(slot, op.pc, current, ok).1))
  {
  }

  /** The moving lock holder stays the lock holder. */
  lemma ActionKeepsExclusive(s: State, i: nat, ok: bool)
    requires i < |s.ops| && Exclusive(s) && InCritical(s.ops[i].pc) && !s.ops[i].pc.Leaving?
    ensures HolderPc(s) == s.ops[i].pc
    ensures var pc := Act(s.slot, s.ops[i].pc, IsCurrent(s, i), ok).1;
            Exclusive(MoveOp(s, i, ok)) && HolderPc(MoveOp(s, i, ok)) == pc && MoveOp(s, i, ok).ops == s.ops[i := s.ops[i].(pc := pc)]
  {
    assert s.lock == Some(i) && KindFits(s.ops[i]);
    ActStaysCritical(s.slot, s.ops[i].pc, IsCurrent(s, i), ok);
    ActKindFits(s.slot, s.ops[i], IsCurrent(s, i), ok);
    GotoKeepsExclusive(s, i, s.lock, Act(s.slot, s.ops[i].pc, IsCurrent(s, i), ok).1);
  }

  lemma ActionKeepsInv(s: State, i: nat, ok: bool)
    requires i < |s.ops| && Inv(s) && InCritical(s.ops[i].pc) && !s.ops[i].pc.Leaving?
    ensures Inv(MoveOp(s, i, ok))
  {
    var op, n := s.ops[i], |s.ops| - 1;
    assert KindFits(op);
    ActionKeepsExclusive(s, i, ok);
    ActConserves(s.slot, op.pc, IsCurrent(s, i), ok);
    if i == n {
      ActAsNewest(op.kind, s.slot, op.pc, ok);
    } else {
      ActAsOlder(s.ops[n], op.kind, s.slot, op.pc, ok, s.lateStop);
    }
  }

  lemma SamePlaces(slot: Slot, pc: Pc, pc': Pc)
    requires Conserved(slot, pc) && InHand(pc).None? && InHand(pc').None?
    ensures Conserved(slot, pc')
  {
    forall rt ensures Placed(slot, pc', rt) {
      assert Placed(slot, pc, rt);
    }
  }

  lemma UnlockKeepsInv(s: State, i: nat, ok: bool)
    requires i < |s.ops| && Inv(s) && s.ops[i].pc.Leaving?
    ensures Inv(MoveOp(s, i, ok))
  {
    assert KindFits(s.ops[i]) && s.lock == Some(i);
    GotoKeepsExclusive(s, i, None, Done(s.ops[i].pc.result));
    SamePlaces(s.slot, s.ops[i].pc, Queued);
  }

  lemma SpawnFailureDecidesNothing(slot: Slot, holder: Pc, lateStop: bool)
    requires NewestDecides(Op(SpawnedStart, Queued), slot, holder, lateStop)
    ensures NewestDecides(Op(SpawnedStart, Done(SpawnFailed)), slot, holder, lateStop)
  {
  }

  lemma SpawnFailureKeepsExclusive(s: State, i: nat)
    requires i < |s.ops| && Exclusive(s) && s.ops[i] == Op(SpawnedStart, Queued)
    ensures var t := Goto(s, i, Done(SpawnFailed)); Exclusive(t) && HolderPc(t) == HolderPc(s)
  {
    assert s.lock != Some(i);
    GotoKeepsExclusive(s, i, s.lock, Done(SpawnFailed));
  }

  lemma SpawnFailureKeepsInv(s: State, i: nat)
    requires i < |s.ops| && Inv(s) && s.ops[i] == Op(SpawnedStart, Queued)
    ensures Inv(Goto(s, i, Done(SpawnFailed)))
  {
    SpawnFailureKeepsExclusive(s, i);
    if i + 1 == |s.ops| {
      SpawnFailureDecidesNothing(s.slot, HolderPc(s), s.lateStop);
    }
  }

  lemma AcquireKeepsInv(s: State, i: nat)
    requires i < |s.ops| && Inv(s) && s.ops[i].pc.Queued? && s.lock.None?
    ensures Inv(Goto(s.(lock := Some(i)), i, FirstAction(s.ops[i].kind)))
  {
    GotoKeepsExclusive(s, i, Some(i), FirstAction(s.ops[i].kind));
    SamePlaces(s.slot, Queued, FirstAction(s.ops[i].kind));
  }

  lemma MoveKeepsInv(s: State, i: nat, ok: bool)
    requires i < |s.ops| && Inv(s)
    ensures Inv(MoveOp(s, i, ok))
  {
    var op := s.ops[i];
    if op.pc.Leaving? {
      UnlockKeepsInv(s, i, ok);
    } else if op.pc.Queued? {
      if op.kind == SpawnedStart && !ok {
        SpawnFailureKeepsInv(s, i);
      } else if s.lock.None? {
        AcquireKeepsInv(s, i);
      }
    } else if op.pc.Done? {
      assert Goto(s, i, op.pc) == s;
    } else {
      ActionKeepsInv(s, i, ok);
    }
  }

  lemma {:induction false} InvHolds(events: seq<Event>)
    ensures Inv(Run(events))
  {
    if events != [] {
      var s, e := Run(events[..|events| - 1]), events[|events| - 1];
      InvHolds(events[..|events| - 1]);
      match e
      case Draw(kind) =>
        assert HolderPc(Next(s, e)) == HolderPc(s);
      case Move(i, ok) =>
        if i < |s.ops| {
          MoveKeepsInv(s, i, ok);
        }
    }
  }

  // -------------------------------------------------------------------------
  // Main results, over every run
  // -------------------------------------------------------------------------

  ghost predicate Quiescent(s: State) {
    forall i | 0 <= i < |s.ops| :: s.ops[i].pc.Done?
  }

  /** With every operation over, a runtime is left active only if the newest one was to start it. */
  lemma ActiveOnlyIfNewestStarts(events: seq<Event>)
    ensures var s := Run(events);
            Quiescent(s) && s.slot.active.Some? ==> s.ops != [] && s.ops[|s.ops| - 1].kind != Stop
  {
    InvHolds(events);
    if |Run(events).ops| == 0 {
      NoOpsNoRuntime(events);
    }
  }

  lemma {:induction false} NoOpsNoRuntime(events: seq<Event>)
    requires Run(events).ops == []
    ensures Run(events) == INIT
  {
    if events != [] {
      NoOpsNoRuntime(events[..|events| - 1]);
    }
  }

  lemma SettledDecides(s: State)
    requires Inv(s) && Quiescent(s) && s.ops != [] && s.ops[|s.ops| - 1].pc != Done(SpawnFailed)
    ensures s.slot.active.Some? <==> s.ops[|s.ops| - 1].pc.result in {Activated, AlreadyRegistered} && !s.lateStop
  {
    assert KindFits(s.ops[|s.ops| - 1]);
  }

  // What a caller of a start can tell beforehand.

  /** Every stop drawn so far has at least got the operation lock. */
  predicate NoStopQueued(s: State) {
    forall i | 0 <= i < |s.ops| :: s.ops[i].kind == Stop ==> !s.ops[i].pc.Queued?
  }

  /** No stop reached the slot after the newest operation had settled it, and none will. */
  predicate NoLateStop(s: State) {
    !s.lateStop && NoStopQueued(s) && forall i | 0 <= i < |s.ops| :: s.ops[i].pc.StopTake? ==> !NewestSettled(s)
  }

  predicate NoDraws(events: seq<Event>) {
    forall i | 0 <= i < |events| :: events[i].Move?
  }

  /** Moves change neither how many operations there are nor their kinds. */
  lemma MoveKeepsKinds(s: State, i: nat, ok: bool)
    requires i < |s.ops|
    ensures |MoveOp(s, i, ok).ops| == |s.ops| && forall k | 0 <= k < |s.ops| :: MoveOp(s, i, ok).ops[k].kind == s.ops[k].kind
    ensures forall k | 0 <= k < |s.ops| && k != i :: MoveOp(s, i, ok).ops[k] == s.ops[k]
  {
  }

  lemma RunMove(events: seq<Event>)
    requires events != [] && events[|events| - 1].Move?
    ensures var s, e := Run(events[..|events| - 1]), events[|events| - 1];
            Run(events) == if e.op < |s.ops| then MoveOp(s, e.op, e.ok) else s
  {
  }

  /** While a stop is about to take the slot, the newest operation waits. */
  lemma TakerKeepsOthersOut(s: State, i: nat, ok: bool, k: nat)
    requires Exclusive(s) && i < |s.ops| && k < |s.ops| && k != i && s.ops[k].pc.StopTake? && !NewestSettled(s)
    ensures !NewestSettled(MoveOp(s, i, ok))
  {
    assert s.lock == Some(k) && !InCritical(s.ops[i].pc);
    MoveKeepsKinds(s, i, ok);
  }

  lemma NoLateStopStays(s: State, i: nat, ok: bool)
    requires Exclusive(s) && i < |s.ops| && NoLateStop(s)
    ensures NoLateStop(MoveOp(s, i, ok))
  {
    var t := MoveOp(s, i, ok);
    MoveKeepsKinds(s, i, ok);
    MoverOfNoStop(s, i, ok);
    forall k | 0 <= k < |t.ops| && t.ops[k].pc.StopTake? ensures !NewestSettled(t) {
      if k != i {
        TakerKeepsOthersOut(s, i, ok, k);
      }
    }
  }

  lemma MoverOfNoStop(s: State, i: nat, ok: bool)
    requires Exclusive(s) && i < |s.ops| && NoLateStop(s)
    ensures !MoveOp(s, i, ok).lateStop && !MoveOp(s, i, ok).ops[i].pc.StopTake?
    ensures s.ops[i].kind == Stop ==> !MoveOp(s, i, ok).ops[i].pc.Queued?
  {
    assert KindFits(s.ops[i]);
  }

  lemma {:induction false} NoLateStopThroughout(events: seq<Event>, more: seq<Event>)
    requires NoLateStop(Run(events)) && NoDraws(more)
    ensures NoLateStop(Run(events + more))
  {
    if more == [] {
      assert events + more == events;
    } else {
      var init, last := more[..|more| - 1], more[|more| - 1];
      NoLateStopThroughout(events, init);
      NoLateStopMore(events + init, last);
      assert events + more == (events + init) + [last];
    }
  }

  lemma NoLateStopMore(events: seq<Event>, e: Event)
    requires NoLateStop(Run(events)) && e.Move?
    ensures NoLateStop(Run(events + [e]))
  {
    assert (events + [e])[..|events|] == events;
    InvHolds(events);
    if e.op < |Run(events).ops| {
      NoLateStopStays(Run(events), e.op, e.ok);
    }
  }

  lemma DrawLast(before: seq<Event>, kind: Kind)
    ensures var s, t := Run(before), Run(before + [Draw(kind)]);
            t == s.(ops := s.ops + [Op(kind, Queued)], lateStop := false)
  {
    assert (before + [Draw(kind)])[..|before|] == before;
  }

  // A start whose thread could not be spawned.

  /** An older operation that will empty the slot at its next action there. */
  predicate WillTake(op: Op) {
    op.pc.RestartTake? || op.pc.ActivateRecheck? || op.pc.StopTake? || (op.kind == Stop && op.pc.Queued?)
  }

  /** The slot holds a runtime that no operation in flight will take. */
  predicate SlotStays(s: State) {
    s.slot.active.Some? && forall i | 0 <= i < |s.ops| :: !WillTake(s.ops[i])
  }

  lemma OlderAct(slot: Slot, op: Op, ok: bool)
    requires InCritical(op.pc) && !op.pc.Leaving? && KindFits(op) && SlotTracked(slot, op.pc)
    ensures var (slot', pc') := Act(slot, op.pc, false, ok);
            slot'.active.Some? && !WillTake(op.(pc := pc')) <==> slot.active.Some? && !WillTake(op)
  {
  }

  lemma OlderMove(s: State, i: nat, ok: bool)
    requires i + 1 < |s.ops| && Exclusive(s) && SlotTracked(s.slot, HolderPc(s))
    ensures var t := MoveOp(s, i, ok);
            t.slot.active.Some? && !WillTake(t.ops[i]) <==> s.slot.active.Some? && !WillTake(s.ops[i])
  {
    var op := s.ops[i];
    assert KindFits(op) && (InCritical(op.pc) <==> s.lock == Some(i));
    if InCritical(op.pc) && !op.pc.Leaving? {
      OlderAct(s.slot, op, ok);
    }
  }

  lemma SlotStaysStep(s: State, i: nat, ok: bool)
    requires i + 1 < |s.ops| && Exclusive(s) && SlotTracked(s.slot, HolderPc(s))
    ensures SlotStays(MoveOp(s, i, ok)) <==> SlotStays(s)
  {
    OlderMove(s, i, ok);
    MoveKeepsKinds(s, i, ok);
    OneOpChanged(s, MoveOp(s, i, ok), i);
  }

  lemma OneOpChanged(s: State, t: State, i: nat)
    requires |t.ops| == |s.ops| && i < |s.ops| && forall k | 0 <= k < |s.ops| && k != i :: t.ops[k] == s.ops[k]
    requires t.slot.active.Some? && !WillTake(t.ops[i]) <==> s.slot.active.Some? && !WillTake(s.ops[i])
    ensures SlotStays(t) <==> SlotStays(s)
  {
    if SlotStays(s) {
      forall k | 0 <= k < |t.ops| ensures !WillTake(t.ops[k]) {
        assert !WillTake(s.ops[k]) && !WillTake(s.ops[i]);
      }
    }
    if SlotStays(t) {
      forall k | 0 <= k < |s.ops| ensures !WillTake(s.ops[k]) {
        assert !WillTake(t.ops[k]) && !WillTake(t.ops[i]);
      }
    }
  }

  /** The newest operation is a spawned start that has no thread yet, or never gets one. */
  predicate NewestIdle(s: State) {
    s.ops != [] && var op := s.ops[|s.ops| - 1]; op.kind == SpawnedStart && (op.pc.Queued? || op.pc == Done(SpawnFailed))
  }

  lemma IdleStep(s: State, i: nat, ok: bool)
    requires Exclusive(s) && SlotTracked(s.slot, HolderPc(s)) && i < |s.ops|
    requires NewestIdle(MoveOp(s, i, ok))
    ensures NewestIdle(s) && (SlotStays(MoveOp(s, i, ok)) <==> SlotStays(s))
  {
    MoveKeepsKinds(s, i, ok);
    if i + 1 < |s.ops| {
      SlotStaysStep(s, i, ok);
    } else {
      LastIdle(s, i, ok);
      OneOpChanged(s, MoveOp(s, i, ok), i);
    }
  }

  lemma LastIdle(s: State, i: nat, ok: bool)
    requires Exclusive(s) && i + 1 == |s.ops| && NewestIdle(MoveOp(s, i, ok))
    ensures NewestIdle(s) && MoveOp(s, i, ok).slot == s.slot && !WillTake(s.ops[i]) && !WillTake(MoveOp(s, i, ok).ops[i])
  {
    var op := s.ops[i];
    assert KindFits(op);
    if InCritical(op.pc) && !op.pc.Leaving? {
      ActStaysCritical(s.slot, op.pc, IsCurrent(s, i), ok);
    }
  }

  lemma {:induction false} IdleThroughout(events: seq<Event>, more: seq<Event>)
    requires NoDraws(more) && NewestIdle(Run(events + more))
    ensures NewestIdle(Run(events)) && (SlotStays(Run(events + more)) <==> SlotStays(Run(events)))
  {
    if more == [] {
      assert events + more == events;
    } else {
      var init, all := more[..|more| - 1], events + more;
      assert all[..|all| - 1] == events + init;
      RunMove(all);
      InvHolds(events + init);
      if more[|more| - 1].op < |Run(events + init).ops| {
        IdleStep(Run(events + init), more[|more| - 1].op, more[|more| - 1].ok);
      }
      IdleThroughout(events, init);
    }
  }

  /**
   A start drawn last that never gets its thread leaves a runtime active exactly when there was one when it
   was drawn, no stop had yet to reach the slot, and the lock holder was not about to empty it.
   */
  lemma SpawnFailureDecides(before: seq<Event>, after: seq<Event>)
    requires NoDraws(after)
    requires var s := Run(before + [Draw(SpawnedStart)] + after);
             Quiescent(s) && s.ops != [] && s.ops[|s.ops| - 1] == Op(SpawnedStart, Done(SpawnFailed))
    ensures Run(before + [Draw(SpawnedStart)] + after).slot.active.Some? <==> SlotStays(Run(before))
  {
    DrawLast(before, SpawnedStart);
    IdleThroughout(before + [Draw(SpawnedStart)], after);
    var s, t := Run(before), Run(before + [Draw(SpawnedStart)]);
    DrawKeepsStays(s, t);
    assert forall i | 0 <= i < |Run(before + [Draw(SpawnedStart)] + after).ops| ::
        !WillTake(Run(before + [Draw(SpawnedStart)] + after).ops[i]);
  }

  lemma DrawKeepsStays(s: State, t: State)
    requires t == s.(ops := s.ops + [Op(SpawnedStart, Queued)], lateStop := false)
    ensures SlotStays(t) <==> SlotStays(s)
  {
    assert forall k | 0 <= k < |s.ops| :: t.ops[k] == s.ops[k];
    if SlotStays(t) {
      forall k | 0 <= k < |s.ops| ensures !WillTake(s.ops[k]) {
        assert !WillTake(t.ops[k]);
      }
    }
  }

  /**
   Exactly when a runtime is left active. If the newest operation got its thread: when it found or registered
   a runtime and no older stop reached the slot after it. If it did not: when the slot was to stay as it was.
   */
  lemma ActiveExactlyWhen(events: seq<Event>)
    requires Quiescent(Run(events)) && Run(events).ops != []
    ensures var s := Run(events);
            s.ops[|s.ops| - 1].pc != Done(SpawnFailed) ==>
              (s.slot.active.Some? <==> s.ops[|s.ops| - 1].pc.result in {Activated, AlreadyRegistered} && !s.lateStop)
    ensures var s := Run(events);
            s.ops[|s.ops| - 1] == Op(SpawnedStart, Done(SpawnFailed)) ==>
              forall before, after | events == before + [Draw(SpawnedStart)] + after && NoDraws(after) ::
                s.slot.active.Some? <==> SlotStays(Run(before))
  {
    InvHolds(events);
    var s := Run(events);
    if s.ops[|s.ops| - 1].pc != Done(SpawnFailed) {
      SettledDecides(s);
    }
    if s.ops[|s.ops| - 1] == Op(SpawnedStart, Done(SpawnFailed)) {
      forall before, after | events == before + [Draw(SpawnedStart)] + after && NoDraws(after)
        ensures s.slot.active.Some? <==> SlotStays(Run(before))
      {
        SpawnFailureDecides(before, after);
      }
    }
  }

  /** A run in which nothing is drawn after that operation, which got its thread, and all are over. */
  ghost predicate EndsAfter(before: seq<Event>, kind: Kind, after: seq<Event>) {
    var s := Run(before + [Draw(kind)] + after);
    NoDraws(after) && Quiescent(s) && s.ops != [] && s.ops[|s.ops| - 1].pc != Done(SpawnFailed)
  }

  /** A runtime is left active exactly when the newest operation registered one or found one registered. */
  ghost predicate NewestDecided(before: seq<Event>, kind: Kind, after: seq<Event>)
    requires EndsAfter(before, kind, after)
  {
    var s := Run(before + [Draw(kind)] + after);
    s.slot.active.Some? <==> s.ops[|s.ops| - 1].pc.result in {Activated, AlreadyRegistered}
  }

  /** If no stop is still queued when a start or restart is drawn last, that operation decides. */
  lemma NewestStartDecides(before: seq<Event>, kind: Kind, after: seq<Event>)
    requires kind != Stop && NoStopQueued(Run(before)) && EndsAfter(before, kind, after)
    ensures NewestDecided(before, kind, after)
  {
    DrawnInTime(before, kind);
    NoLateStopThroughout(before + [Draw(kind)], after);
    InvHolds(before + [Draw(kind)] + after);
    SettledDecides(Run(before + [Draw(kind)] + after));
  }

  lemma DrawnInTime(before: seq<Event>, kind: Kind)
    requires kind != Stop && NoStopQueued(Run(before))
    ensures NoLateStop(Run(before + [Draw(kind)]))
  {
    DrawLast(before, kind);
    DrawnUnsettled(Run(before), Run(before + [Draw(kind)]), kind);
  }

  lemma DrawnUnsettled(s: State, t: State, kind: Kind)
    requires kind != Stop && NoStopQueued(s) && t == s.(ops := s.ops + [Op(kind, Queued)], lateStop := false)
    ensures NoLateStop(t)
  {
    assert forall k | 0 <= k < |s.ops| :: t.ops[k] == s.ops[k];
  }

  lemma Then(events: seq<Event>, i: nat, ok: bool)
    requires i < |Run(events).ops|
    ensures Run(events + [Move(i, ok)]) == MoveOp(Run(events), i, ok)
  {
    assert (events + [Move(i, ok)])[..|events|] == events;
  }

  /** With every operation over, each started runtime is the active one or was stopped and finished once. */
  lemma RuntimesConserved(events: seq<Event>, rt: RuntimeId)
    requires Quiescent(Run(events)) && rt < Run(events).slot.started
    ensures var slot := Run(events).slot;
            if slot.active == Some(rt) then slot.tunnelStops[rt] == 0 && slot.finishes[rt] == 0
            else slot.tunnelStops[rt] == 1 && slot.finishes[rt] == 1
  {
    InvHolds(events);
    var s := Run(events);
    assert s.lock.Some? ==> !InCritical(s.ops[s.lock.value].pc);
    assert Placed(s.slot, HolderPc(s), rt);
  }

  /** At every moment a lower finish has its tunnel stop before it, and neither is ever repeated. */
  lemma TunnelFirst(events: seq<Event>, rt: RuntimeId)
    ensures var slot := Run(events).slot; slot.finishes[rt] <= slot.tunnelStops[rt] <= 1
  {
    InvHolds(events);
    assert Placed(Run(events).slot, HolderPc(Run(events)), rt);
  }

  /** Registering a runtime never finds another one registered. */
  lemma ActivateFindsSlotFree(events: seq<Event>, i: nat)
    requires i < |Run(events).ops| && Run(events).ops[i].pc.Activate?
    ensures Run(events).slot.active.None? && Run(events).lock == Some(i)
  {
    InvHolds(events);
    assert InCritical(Run(events).ops[i].pc);
  }

  /** Bounds the actions an operation has left. */
  function Left(pc: Pc): nat {
    match pc
    case Queued => 15
    case RestartCheck => 14
    case RestartTake => 13
    case TunnelStop(_, why) => if why == Replaced then 12 else 3
    case LowerFinish(_, why, _) => if why == Replaced then 11 else 2
    case RestartRecheck => 10
    case StartCheck => 9
    case StartProbe => 8
    case StartRun => 7
    case ActivateCheck(_) => 6
    case Activate(_) => 5
    case ActivateRecheck => 4
    case StopTake => 4
    case Leaving(_) => 1
    case Done(_) => 0
  }

  predicate CanAct(s: State, i: nat) {
    i < |s.ops| && (InCritical(s.ops[i].pc) || (s.ops[i].pc.Queued? && s.lock.None?))
  }

  /** Every action of an operation brings it closer to its end, so it acts a bounded number of times. */
  lemma ActionsAreBounded(s: State, i: nat, ok: bool)
    requires CanAct(s, i)
    ensures Left(MoveOp(s, i, ok).ops[i].pc) < Left(s.ops[i].pc)
  {
  }

  lemma SomeCanAct(s: State) returns (i: nat)
    requires Inv(s) && !Quiescent(s)
    ensures CanAct(s, i)
  {
    var q :| 0 <= q < |s.ops| && !s.ops[q].pc.Done?;
    i := if s.lock.Some? then s.lock.value else q;
    assert InCritical(s.ops[i].pc) <==> s.lock == Some(i);
  }

  /** Until all operations are over some operation can act: the lock is never held by a finished one. */
  lemma NeverStuck(events: seq<Event>)
    requires !Quiescent(Run(events))
    ensures exists i :: CanAct(Run(events), i)
  {
    InvHolds(events);
    var i := SomeCanAct(Run(events));
  }
}
