/**
 What one operation does to the active slot between getting the operation lock and letting go of it, told
 from the slot it found (src-tauri/src/app/background.rs).
 */
module RuntimeSections {
  import opened Options
  import opened RuntimeControl

  /** The slot once the runtime it held has been taken out, its tunnel stopped and the rest finished. */
  function TakenDown(slot: Slot): Slot {
    match slot.active
    case None => slot
    case Some(rt) => Slot(None, slot.started, slot.tunnelStops + multiset{rt}, slot.finishes + multiset{rt})
  }

  /** The slot once a new runtime has been started besides. */
  function OneStarted(slot: Slot): Slot {
    slot.(started := slot.started + 1)
  }

  /** The slot once a runtime was started and given up again. */
  function GivenUp(slot: Slot): Slot {
    slot.(started := slot.started + 1,
          tunnelStops := slot.tunnelStops + multiset{slot.started}, finishes := slot.finishes + multiset{slot.started})
  }

  /** The stop calls for a runtime that has been taken out of the slot `found`, up to the next action. */
  predicate TakingDown(found: Slot, pc: Pc, slot: Slot, rt: RuntimeId) {
    match pc
    case TunnelStop(r, _) => r == rt && slot == found.(active := None)
    case LowerFinish(r, _, _) => r == rt && slot == found.(active := None, tunnelStops := found.tunnelStops + multiset{rt})
    case _ => false
  }

  /** A start that found `found`: nothing but its own runtime is ever touched. */
  predicate StartGoes(found: Slot, pc: Pc, slot: Slot) {
    match pc
    case StartCheck => slot == found
    case StartProbe => slot == found
    case StartRun => slot == found && found.active.None?
    case ActivateCheck(rt) => found.active.None? && rt == found.started && slot == OneStarted(found)
    case Activate(rt) => found.active.None? && rt == found.started && slot == OneStarted(found)
    case ActivateRecheck => found.active.None? && slot == OneStarted(found).(active := Some(found.started))
    case TunnelStop(_, why) => why == Discarded && found.active.None? && TakingDown(OneStarted(found), pc, slot, found.started)
    case LowerFinish(_, why, _) => why == Discarded && found.active.None? && TakingDown(OneStarted(found), pc, slot, found.started)
    case Leaving(r) =>
      (match r
       case Activated => found.active.None? && slot == OneStarted(found).(active := Some(found.started))
       case AlreadyRegistered => found.active.Some? && slot == found
       case StartFailed => found.active.None? && slot == found
       case Superseded => slot == found || (found.active.None? && slot == GivenUp(found))
       case _ => false)
    case _ => false
  }

  /** A restart that found `found`: it takes down the runtime there first, and then starts in an empty slot. */
  predicate RestartGoes(found: Slot, pc: Pc, slot: Slot) {
    match pc
    case RestartCheck => slot == found
    case RestartTake => slot == found
    case TunnelStop(_, why) =>
      if why == Replaced then found.active.Some? && TakingDown(found, pc, slot, found.active.value)
      else StartGoes(TakenDown(found), pc, slot)
    case LowerFinish(_, why, _) =>
      if why == Replaced then found.active.Some? && TakingDown(found, pc, slot, found.active.value)
      else StartGoes(TakenDown(found), pc, slot)
    case RestartRecheck => slot == TakenDown(found)
    case Leaving(r) =>
      (match r
       case StopFailed => found.active.Some? && slot == TakenDown(found)
       case Superseded => slot == found || slot == TakenDown(found) || slot == GivenUp(TakenDown(found))
       case _ => StartGoes(TakenDown(found), pc, slot))
    case _ => StartGoes(TakenDown(found), pc, slot)
  }

  /** A stop that found `found`. */
  predicate StopGoes(found: Slot, pc: Pc, slot: Slot) {
    match pc
    case StopTake => slot == found
    case TunnelStop(_, why) => why == ByStop && found.active.Some? && TakingDown(found, pc, slot, found.active.value)
    case LowerFinish(_, why, _) => why == ByStop && found.active.Some? && TakingDown(found, pc, slot, found.active.value)
    case Leaving(r) => r == Stopped && slot == TakenDown(found)
    case _ => false
  }

  predicate Goes(kind: Kind, found: Slot, pc: Pc, slot: Slot) {
    match kind
    case Restart => RestartGoes(found, pc, slot)
    case Stop => StopGoes(found, pc, slot)
    case _ => StartGoes(found, pc, slot)
  }

  lemma StartGoesOn(found: Slot, pc: Pc, slot: Slot, current: bool, ok: bool)
    requires StartGoes(found, pc, slot) && !pc.Leaving?
    ensures var (slot', pc') := Act(slot, pc, current, ok); StartGoes(found, pc', slot')
  {
  }

  lemma RestartGoesOn(found: Slot, pc: Pc, slot: Slot, current: bool, ok: bool)
    requires RestartGoes(found, pc, slot) && !pc.Leaving?
    ensures var (slot', pc') := Act(slot, pc, current, ok); RestartGoes(found, pc', slot')
  {
    if StartGoes(TakenDown(found), pc, slot) {
      StartGoesOn(TakenDown(found), pc, slot, current, ok);
    }
  }

  lemma StopGoesOn(found: Slot, pc: Pc, slot: Slot, current: bool, ok: bool)
    requires StopGoes(found, pc, slot) && !pc.Leaving?
    ensures var (slot', pc') := Act(slot, pc, current, ok); StopGoes(found, pc', slot')
  {
  }

  lemma GoesOn(kind: Kind, found: Slot, pc: Pc, slot: Slot, current: bool, ok: bool)
    requires Goes(kind, found, pc, slot) && !pc.Leaving?
    ensures var (slot', pc') := Act(slot, pc, current, ok); Goes(kind, found, pc', slot')
  {
    match kind
    case Restart => RestartGoesOn(found, pc, slot, current, ok);
    case Stop => StopGoesOn(found, pc, slot, current, ok);
    case Start => StartGoesOn(found, pc, slot, current, ok);
    case SpawnedStart => StartGoesOn(found, pc, slot, current, ok);
  }

  // What is said of the lock holder here holds of any relation between its next action and the slot that
  // every action of the holder keeps.

  type Relation = (Pc, Slot) -> bool

  ghost predicate KeptByActions(rel: Relation) {
    forall pc, slot, current, ok | rel(pc, slot) && !pc.Leaving? ::
      rel(Act(slot, pc, current, ok).1, Act(slot, pc, current, ok).0)
  }

  ghost predicate Underway(s: State, i: nat, rel: Relation) {
    i < |s.ops| && s.lock == Some(i) && rel(s.ops[i].pc, s.slot)
  }

  /** While one operation holds the lock no other changes the slot. */
  lemma OthersLeaveSlot(s: State, i: nat, k: nat, ok: bool)
    requires Exclusive(s) && i < |s.ops| && k < |s.ops| && k != i && s.lock == Some(i)
    ensures var t := MoveOp(s, k, ok); t.slot == s.slot && t.lock == s.lock && t.ops[i] == s.ops[i]
  {
    assert !InCritical(s.ops[k].pc);
  }

  lemma UnderwayMoves(s: State, i: nat, k: nat, ok: bool, rel: Relation)
    requires Exclusive(s) && Underway(s, i, rel) && KeptByActions(rel) && k < |s.ops|
    ensures var t := MoveOp(s, k, ok); t.lock == Some(i) ==> Underway(t, i, rel)
  {
    if k != i {
      OthersLeaveSlot(s, i, k, ok);
    } else {
      assert InCritical(s.ops[i].pc);
    }
  }

  lemma UnderwayNext(events: seq<Event>, i: nat, e: Event, rel: Relation)
    requires Underway(Run(events), i, rel) && KeptByActions(rel)
    ensures Run(events + [e]).lock == Some(i) ==> Underway(Run(events + [e]), i, rel)
  {
    assert (events + [e])[..|events|] == events;
    InvHolds(events);
    match e
    case Draw(kind) =>
    case Move(k, ok) => if k < |Run(events).ops| { UnderwayMoves(Run(events), i, k, ok, rel); }
  }

  /** The lock stays with the operation throughout. */
  ghost predicate Keeps(events: seq<Event>, more: seq<Event>, i: nat) {
    forall n | 0 <= n <= |more| :: Run(events + more[..n]).lock == Some(i)
  }

  lemma KeepsInit(events: seq<Event>, more: seq<Event>, i: nat)
    requires more != [] && Keeps(events, more, i)
    ensures Keeps(events, more[..|more| - 1], i) && Run(events + more).lock == Some(i)
  {
    assert more[..|more|] == more;
    var init := more[..|more| - 1];
    forall n | 0 <= n <= |init| ensures Run(events + init[..n]).lock == Some(i) {
      assert init[..n] == more[..n];
    }
  }

  lemma {:induction false} UnderwayThroughout(events: seq<Event>, more: seq<Event>, i: nat, rel: Relation)
    requires Underway(Run(events), i, rel) && KeptByActions(rel) && Keeps(events, more, i)
    ensures Underway(Run(events + more), i, rel)
    decreases |more|
  {
    if more == [] {
      assert events + more == events;
    } else {
      var init, last := more[..|more| - 1], more[|more| - 1];
      KeepsInit(events, more, i);
      UnderwayThroughout(events, init, i, rel);
      assert events + more == (events + init) + [last];
      UnderwayNext(events + init, i, last, rel);
    }
  }

  lemma Acquired(events: seq<Event>, i: nat)
    requires i < |Run(events).ops| && Run(events).ops[i].pc.Queued?
    requires Run(events + [Move(i, true)]).lock == Some(i)
    ensures Run(events + [Move(i, true)]) == Goto(Run(events).(lock := Some(i)), i, FirstAction(Run(events).ops[i].kind))
  {
    InvHolds(events);
    Then(events, i, true);
    assert Run(events).lock != Some(i);
  }

  function Going(kind: Kind, found: Slot): Relation {
    (pc, slot) => Goes(kind, found, pc, slot)
  }

  lemma GoingIsKept(kind: Kind, found: Slot)
    ensures KeptByActions(Going(kind, found))
  {
    forall pc, slot, current, ok | Going(kind, found)(pc, slot) && !pc.Leaving?
      ensures Going(kind, found)(Act(slot, pc, current, ok).1, Act(slot, pc, current, ok).0)
    {
      GoesOn(kind, found, pc, slot, current, ok);
    }
  }

  lemma GoingStarts(kind: Kind, found: Slot)
    ensures Going(kind, found)(FirstAction(kind), found)
  {
  }

  /**
   Over every run: from the moment an operation gets the lock until it lets go of it, the slot is what its kind
   makes of the slot it found.
   */
  lemma SlotIsHolders(events: seq<Event>, more: seq<Event>, i: nat)
    requires i < |Run(events).ops| && Run(events).ops[i].pc.Queued? && Keeps(events + [Move(i, true)], more, i)
    ensures Underway(Run(events + [Move(i, true)] + more), i, Going(Run(events).ops[i].kind, Run(events).slot))
  {
    var first := events + [Move(i, true)];
    var rel := Going(Run(events).ops[i].kind, Run(events).slot);
    assert more[..0] == [] && first + [] == first;
    Acquired(events, i);
    GoingStarts(Run(events).ops[i].kind, Run(events).slot);
    GoingIsKept(Run(events).ops[i].kind, Run(events).slot);
    UnderwayThroughout(first, more, i, rel);
  }

  /** The slot that an operation of some kind leaves, for each way it can end. */
  lemma EndsAs(kind: Kind, found: Slot, r: Result, slot: Slot)
    requires Goes(kind, found, Leaving(r), slot)
    ensures r == AlreadyRegistered ==> kind != Restart && kind != Stop && found.active.Some? && slot == found
    ensures r == StopFailed ==> kind == Restart && found.active.Some? && slot.active.None? && slot.started == found.started
    ensures r == StartFailed ==> slot.active.None? && slot.started == found.started
    ensures r == Activated ==>
              && slot.active == Some(found.started) && slot.started == found.started + 1
              && (found.active.Some? ==> kind == Restart)
    ensures r == Stopped ==> kind == Stop && slot.active.None? && slot.started == found.started
    ensures r in {Activated, StopFailed, StartFailed, Stopped} && found.active.Some? ==>
              && slot.tunnelStops == found.tunnelStops + multiset{found.active.value}
              && slot.finishes == found.finishes + multiset{found.active.value}
    ensures r in {Activated, StartFailed, Stopped} && found.active.None? ==>
              slot.tunnelStops == found.tunnelStops && slot.finishes == found.finishes
  {
  }

  /** An operation that has got the lock, done its actions and not let go of it yet, with its result. */
  ghost predicate EndsWith(events: seq<Event>, more: seq<Event>, i: nat, kind: Kind, r: Result) {
    var s := Run(events + [Move(i, true)] + more);
    && i < |Run(events).ops| && Run(events).ops[i] == Op(kind, Queued) && Keeps(events + [Move(i, true)], more, i)
    && i < |s.ops| && s.ops[i].pc == Leaving(r)
  }

  /** Over every run, what each operation leaves, for each way it can end. */
  lemma SectionEnds(events: seq<Event>, more: seq<Event>, i: nat, kind: Kind, r: Result)
    requires EndsWith(events, more, i, kind, r)
    ensures Goes(kind, Run(events).slot, Leaving(r), Run(events + [Move(i, true)] + more).slot)
  {
    SlotIsHolders(events, more, i);
  }

  /**
   Over every run: a restart never finds a runtime registered, and when it ends with its own runtime active,
   the one it found has been stopped once and finished once, and its own is one it started.
   */
  lemma RestartReplaces(events: seq<Event>, more: seq<Event>, i: nat, r: Result)
    requires EndsWith(events, more, i, Restart, r)
    ensures
      var found, slot := Run(events).slot, Run(events + [Move(i, true)] + more).slot;
      && r != AlreadyRegistered
      && (r == Activated ==> slot.active == Some(found.started) && slot.started == found.started + 1)
      && (r in {Activated, StartFailed, StopFailed} && found.active.Some? ==>
            slot.tunnelStops[found.active.value] == 1 && slot.finishes[found.active.value] == 1)
  {
    var found := Run(events).slot;
    SectionEnds(events, more, i, Restart, r);
    EndsAs(Restart, found, r, Run(events + [Move(i, true)] + more).slot);
    if found.active.Some? {
      NotYetStopped(events, found.active.value);
    }
  }

  /** The active runtime has had neither stop call. */
  lemma NotYetStopped(events: seq<Event>, rt: RuntimeId)
    requires Run(events).slot.active == Some(rt)
    ensures Run(events).slot.tunnelStops[rt] == 0 && Run(events).slot.finishes[rt] == 0
  {
    InvHolds(events);
    var s := Run(events);
    assert Placed(s.slot, HolderPc(s), rt);
  }
}
