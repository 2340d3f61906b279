/**
 What each critical section of the work scheduler does in a run, told from the state it finds, and what a
 cancellation means for the rest of the run (src-tauri/src/control_plane/scheduler.rs).
 */
module SchedulerSections {
  import opened Options
  import opened Integers
  import opened WorkScheduler
  import opened SchedulerRuns

  lemma Then(events: seq<Event>, e: Event)
    ensures Run(events + [e]) == Next(Run(events), e)
  {
    assert (events + [e])[..|events|] == events;
  }

  // -------------------------------------------------------------------------
  // Admission
  // -------------------------------------------------------------------------

  ghost predicate Admitted(w: World, v: World, work: QueuedWork) {
    var s, t := w.shared, work.ticket;
    if s.closed then v.shared == s && v.returned == w.returned[t := Refused(Closed)]
    else if s.running == 0 && s.queue == [] then
      && v.shared == s.(running := 1) && v.returned == w.returned[t := Granted]
      && v.holders == {t} && v.grants == w.grants + [t]
    else if |s.queue| == 32 then
      && v.shared == s.(rejected := SaturatingAdd(s.rejected, 1))
      && v.returned == w.returned[t := Refused(QueueCapacityExceeded)]
    else
      && v.shared == s.(queue := s.queue + [work], sleeping := s.sleeping + {t})
      && v.returned == w.returned && v.waiting == w.waiting + {t}
  }

  lemma EnterAdmits(w: World, work: QueuedWork)
    requires |w.shared.queue| <= 32 && w.shared.running == |w.holders|
    ensures Admitted(w, EnterWork(w, work), work)
  {
  }

  /**
   An admission is refused when the scheduler is closed, granted at once when the slot is free and nobody
   waits, refused when 32 wait, and otherwise blocked as the last of the queue.
   */
  lemma AdmissionIsExact(events: seq<Event>, work: QueuedWork, w: World)
    requires w == Run(events) && work.ticket !in w.drawn
    ensures Admitted(w, Next(w, Enter(work)), work)
  {
    CountersAreExact(events);
    EnterAdmits(w, work);
  }

  /**
   A waiter that is awake returns cancelled if it was cancelled, takes the slot if it is at the front and
   the slot is free, and otherwise sleeps again.
   */
  lemma RecheckIsExact(events: seq<Event>, t: Ticket, w: World)
    requires w == Run(events) && t in w.waiting && t !in w.shared.sleeping
    ensures
      var v, s := Next(w, Resume(t)), w.shared;
      if t in s.cancelled then
        && v.shared == s.(cancelled := s.cancelled - {t}) && v.returned == w.returned[t := Refused(Cancelled)]
        && v.waiting == w.waiting - {t} && v.grants == w.grants
      else if s.queue != [] && s.queue[0].ticket == t && s.running == 0 then
        && v.shared == s.(queue := s.queue[1..], running := 1) && v.returned == w.returned[t := Granted]
        && v.waiting == w.waiting - {t} && v.holders == {t} && v.grants == w.grants + [t]
      else v == w.(shared := s.(sleeping := s.sleeping + {t}))
  {
    CountersAreExact(events);
  }

  ghost predicate InLane(w: World, v: World, lane: Lane) {
    var s := w.shared;
    if s.closed then v == w
    else if (if lane == Observation then s.observation else s.control) == 16 then
      v == w.(shared := s.(rejected := SaturatingAdd(s.rejected, 1)))
    else if lane == Observation then v == w.(shared := s.(observation := s.observation + 1), observers := w.observers + 1)
    else v == w.(shared := s.(control := s.control + 1), controllers := w.controllers + 1)
  }

  lemma LaneStep(w: World, lane: Lane)
    requires w.shared.observation <= 16 && w.shared.control <= 16
    ensures InLane(w, Lanes(w, lane, true), lane)
  {
  }

  /** Each immediate lane turns a call away when the scheduler is closed or sixteen calls are in that lane. */
  lemma LanesAreExact(events: seq<Event>, lane: Lane, w: World)
    requires w == Run(events)
    ensures InLane(w, Next(w, EnterLane(lane)), lane)
  {
    CountersAreExact(events);
    LaneStep(w, lane);
  }

  /** A released slot is free, and wakes every waiter. */
  lemma ReleaseFreesSlot(events: seq<Event>, t: Ticket)
    requires t in Run(events).holders
    ensures
      var w, v := Run(events), Run(events + [ReleaseWork(t)]);
      v.shared == w.shared.(running := 0, sleeping := {}) && v.holders == {} && v.grants == w.grants && v.returned == w.returned
  {
    Then(events, ReleaseWork(t));
    InvHolds(events);
    OnlyMember(Run(events).holders, t);
  }

  lemma OnlyMember(s: set<Ticket>, t: Ticket)
    requires |s| <= 1 && t in s
    ensures s == {t}
  {
    assert |s - {t}| == 0;
  }

  // -------------------------------------------------------------------------
  // Cancellation
  // -------------------------------------------------------------------------

  /** The entries that a cancellation takes out of the queue. */
  ghost predicate Names(e: Event, queue: seq<QueuedWork>, i: nat) {
    && i < |queue|
    && match e
       case CancelRequestOf(request) => FirstOfRequest(queue, request, i)
       case CancelTaskOf(owner, task) => FirstOfTask(queue, owner, task, i)
       case CancelSessionOf(owner) => queue[i].owner == owner
       case CloseAll => true
       case _ => false
  }

  ghost predicate Named(e: Event, queue: seq<QueuedWork>, t: Ticket) {
    exists i: nat :: Names(e, queue, i) && queue[i].ticket == t
  }

  function TakenOut(e: Event, queue: seq<QueuedWork>): set<Ticket> {
    match e
    case CancelRequestOf(request) =>
      (match FirstForRequest(queue, request) case None => {} case Some(i) => {queue[i].ticket})
    case CancelTaskOf(owner, task) =>
      (match FirstForTask(queue, owner, task) case None => {} case Some(i) => {queue[i].ticket})
    case CancelSessionOf(owner) => OwnedBy(queue, owner)
    case CloseAll => AllTickets(queue)
    case _ => {}
  }

  lemma TakenOutIsNamed(e: Event, queue: seq<QueuedWork>, t: Ticket)
    requires IsCancel(e)
    ensures t in TakenOut(e, queue) <==> Named(e, queue, t)
  {
    match e
    case CancelRequestOf(request) =>
      var first := FirstForRequest(queue, request);
      if first.Some? { assert Names(e, queue, first.value); }
      assert forall i: nat | Names(e, queue, i) :: first == Some(i);
    case CancelTaskOf(owner, task) =>
      var first := FirstForTask(queue, owner, task);
      if first.Some? { assert Names(e, queue, first.value); }
      assert forall i: nat | Names(e, queue, i) :: first == Some(i);
    case CancelSessionOf(owner) =>
      OwnedIsNamed(queue, owner, t);
    case CloseAll =>
      AllIsNamed(queue, t);
  }

  lemma OwnedIsNamed(queue: seq<QueuedWork>, owner: SessionId, t: Ticket)
    ensures t in OwnedBy(queue, owner) <==> Named(CancelSessionOf(owner), queue, t)
  {
    if t in OwnedBy(queue, owner) {
      var i: nat :| i < |queue| && queue[i].owner == owner && queue[i].ticket == t;
      assert Names(CancelSessionOf(owner), queue, i);
    }
    if Named(CancelSessionOf(owner), queue, t) {
      var i: nat :| Names(CancelSessionOf(owner), queue, i) && queue[i].ticket == t;
      assert queue[i] in queue;
    }
  }

  lemma AllIsNamed(queue: seq<QueuedWork>, t: Ticket)
    ensures t in AllTickets(queue) <==> Named(CloseAll, queue, t)
  {
    if t in AllTickets(queue) {
      var i: nat :| i < |queue| && queue[i].ticket == t;
      assert Names(CloseAll, queue, i);
    }
    if Named(CloseAll, queue, t) {
      var i: nat :| Names(CloseAll, queue, i) && queue[i].ticket == t;
      assert queue[i] in queue;
    }
  }

  lemma CancellationTakesOut(w: World, e: Event)
    requires Inv(w) && IsCancel(e)
    ensures var gone := TakenOut(e, w.shared.queue); var v := Next(w, e);
            && v.revoked == w.revoked + gone && v.shared.cancelled == w.shared.cancelled + gone
            && AllTickets(v.shared.queue) == AllTickets(w.shared.queue) - gone
            && v.grants == w.grants && v.returned == w.returned && v.waiting == w.waiting && v.holders == w.holders
            && (v.shared.closed <==> w.shared.closed || e.CloseAll?)
  {
    var queue := w.shared.queue;
    KeepTickets(queue, TakenOut(e, queue));
    KeepNone(queue, AllTickets(queue));
  }

  lemma RevokedStep(w: World, e: Event)
    ensures w.revoked <= Next(w, e).revoked
  {
  }

  ghost predicate RevokedIn(events: seq<Event>, t: Ticket) {
    t in Run(events).revoked
  }

  lemma RevokedOneMore(events: seq<Event>, e: Event, t: Ticket)
    requires RevokedIn(events, t)
    ensures RevokedIn(events + [e], t)
  {
    Then(events, e);
    RevokedStep(Run(events), e);
  }

  lemma {:induction false} RevokedForGood(before: seq<Event>, after: seq<Event>, t: Ticket)
    requires RevokedIn(before, t)
    ensures RevokedIn(before + after, t)
    decreases |after|
  {
    if after == [] {
      assert before + after == before;
    } else {
      var init, last := after[..|after| - 1], after[|after| - 1];
      RevokedForGood(before, init, t);
      assert before + after == (before + init) + [last];
      RevokedOneMore(before + init, last, t);
    }
  }

  lemma RevokedIsNeverGranted(events: seq<Event>, t: Ticket)
    requires t in Run(events).revoked
    ensures t !in Run(events).grants && t !in Tickets(Run(events).shared.queue)
  {
    InvHolds(events);
    OneFateEach(events, t);
  }

  /**
   A cancellation takes out of the queue exactly what it names: the first entry of the request or of the
   task, every entry of the session, or all of them. Nothing else of the queue is touched.
   */
  lemma CancellationIsExact(events: seq<Event>, e: Event, t: Ticket)
    requires IsCancel(e)
    ensures
      var w, v := Run(events), Run(events + [e]);
      var named := Named(e, w.shared.queue, t);
      && (t in v.revoked <==> t in w.revoked || named)
      && (t in v.shared.cancelled <==> t in w.shared.cancelled || named)
      && (t in AllTickets(v.shared.queue) <==> t in AllTickets(w.shared.queue) && !named)
      && v.grants == w.grants && v.returned == w.returned && v.holders == w.holders
      && (v.shared.closed <==> w.shared.closed || e.CloseAll?)
  {
    InvHolds(events);
    Then(events, e);
    CancellationTakesOut(Run(events), e);
    TakenOutIsNamed(e, Run(events).shared.queue, t);
  }

  /**
   What a cancellation names is granted in no continuation of the run: it is queued no more, its waiter is
   awake, and the only way its admission can return is cancelled.
   */
  lemma CancelledForGood(events: seq<Event>, e: Event, after: seq<Event>, i: nat)
    requires IsCancel(e) && Names(e, Run(events).shared.queue, i)
    ensures
      var t, v, u := Run(events).shared.queue[i].ticket, Run(events + [e]), Run(events + [e] + after);
      && t in v.waiting && t in v.shared.cancelled && t !in v.shared.sleeping
      && t in u.revoked && t !in u.grants && t !in Tickets(u.shared.queue)
      && (t in u.returned ==> u.returned[t] == Refused(Cancelled))
  {
    var t := Run(events).shared.queue[i].ticket;
    assert Named(e, Run(events).shared.queue, t);
    CancellationIsExact(events, e, t);
    NoLostWakeup(events + [e]);
    RevokedForGood(events + [e], after, t);
    RevokedIsNeverGranted(events + [e] + after, t);
    InvHolds(events + [e] + after);
  }
}
