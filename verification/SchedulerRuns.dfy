/**
 Runs of the work scheduler: any number of admission threads, cancellations, closes and permit drops,
 interleaved critical section by critical section, with spurious wake-ups.
 */
module SchedulerRuns {
  import opened Options
  import opened WorkScheduler

  /**
   The shared state with what the threads know: which admissions are blocked, which permits are live,
   and how each admission that returned did so. `entered` lists the admissions that were granted or
   queued, in the order they held the lock; `revoked` holds every ticket a cancellation ever removed.
   */
  datatype World = World(
    shared: Shared,
    drawn: set<Ticket>, waiting: set<Ticket>, holders: set<Ticket>,
    observers: nat, controllers: nat,
    entered: seq<Ticket>, grants: seq<Ticket>, revoked: set<Ticket>,
    returned: map<Ticket, Turn>)

  datatype Event =
    | Enter(work: QueuedWork)
    | SpuriousWake(ticket: Ticket)
    | Resume(ticket: Ticket)
    | CancelRequestOf(request: RequestKey)
    | CancelTaskOf(owner: SessionId, task: TaskId)
    | CancelSessionOf(owner: SessionId)
    | CloseAll
    | ReleaseWork(ticket: Ticket)
    | EnterLane(lane: Lane)
    | ReleaseLane(lane: Lane)

  const START := World(IDLE, {}, {}, {}, 0, 0, [], [], {}, map[])

  function Grant(w: World, shared: Shared, t: Ticket): World {
    w.(shared := shared, waiting := w.waiting - {t}, holders := w.holders + {t},
       grants := w.grants + [t], returned := w.returned[t := Granted])
  }

  function EnterWork(w: World, work: QueuedWork): World {
    var (shared, turn) := Admit(w.shared, work);
    var v := w.(drawn := w.drawn + {work.ticket});
    match turn
    case Granted => Grant(v, shared, work.ticket).(entered := w.entered + [work.ticket])
    case Waits => v.(shared := shared, waiting := w.waiting + {work.ticket}, entered := w.entered + [work.ticket])
    case Refused(_) => v.(shared := shared, returned := w.returned[work.ticket := turn])
  }

  function ResumeWork(w: World, t: Ticket): World {
    var (shared, turn) := Recheck(w.shared, t);
    match turn
    case Granted => Grant(w, shared, t)
    case Waits => w.(shared := shared)
    case Refused(_) => w.(shared := shared, waiting := w.waiting - {t}, returned := w.returned[t := turn])
  }

  function CancelWork(w: World, shared: Shared): World {
    w.(shared := shared, revoked := w.revoked + shared.cancelled)
  }

  function Lanes(w: World, lane: Lane, enter: bool): World {
    if enter then
      var (shared, error) := EnterImmediate(w.shared, lane);
      if error.Some? then w.(shared := shared)
      else if lane == Observation then w.(shared := shared, observers := w.observers + 1)
      else w.(shared := shared, controllers := w.controllers + 1)
    else if lane == Observation && w.observers > 0 then
      w.(shared := DropImmediate(w.shared, lane), observers := w.observers - 1)
    else if lane == Control && w.controllers > 0 then
      w.(shared := DropImmediate(w.shared, lane), controllers := w.controllers - 1)
    else w
  }

  /** An event that its thread could not perform in this state leaves it as it is. */
  function Next(w: World, e: Event): World {
    match e
    case Enter(work) => if work.ticket in w.drawn then w else EnterWork(w, work)
    case SpuriousWake(t) => w.(shared := w.shared.(sleeping := w.shared.sleeping - {t}))
    case Resume(t) => if t in w.waiting && t !in w.shared.sleeping then ResumeWork(w, t) else w
    case CancelRequestOf(request) => CancelWork(w, CancelAt(w.shared, FirstForRequest(w.shared.queue, request)))
    case CancelTaskOf(owner, task) => CancelWork(w, CancelAt(w.shared, FirstForTask(w.shared.queue, owner, task)))
    case CancelSessionOf(owner) => CancelWork(w, CancelSession(w.shared, owner))
    case CloseAll => CancelWork(w, Close(w.shared))
    case ReleaseWork(t) => if t in w.holders then w.(shared := DropWork(w.shared), holders := w.holders - {t}) else w
    case EnterLane(lane) => Lanes(w, lane, true)
    case ReleaseLane(lane) => Lanes(w, lane, false)
  }

  function Run(events: seq<Event>): World {
    if events == [] then START else Next(Run(events[..|events| - 1]), events[|events| - 1])
  }

  // -------------------------------------------------------------------------
  // Invariants
  // -------------------------------------------------------------------------

  /** Blocked admissions are the queued ones and the cancelled ones that have not woken yet. */
  ghost predicate Blocked(w: World) {
    var s := w.shared;
    && Distinct(s.queue) && |s.queue| <= MAX_WORK_QUEUE
    && AllTickets(s.queue) !! s.cancelled
    && w.waiting == AllTickets(s.queue) + s.cancelled
    && s.sleeping <= AllTickets(s.queue)
    && w.waiting <= w.drawn && w.holders <= w.drawn && w.waiting !! w.holders
    && (s.closed ==> s.queue == [])
  }

  /** If the slot is free, the front waiter has been notified and is not asleep again. */
  ghost predicate FrontAwake(w: World) {
    w.shared.running == 0 && w.shared.queue != [] ==> w.shared.queue[0].ticket !in w.shared.sleeping
  }

  ghost predicate PermitsCounted(w: World) {
    && w.shared.running == |w.holders| <= FOREGROUND_WORK_SLOTS
    && w.shared.observation == w.observers <= MAX_OBSERVATION_ACTIVE
    && w.shared.control == w.controllers <= MAX_CONTROL_ACTIVE
  }

  /** The sequence without the members of a set. */
  function Without(s: seq<Ticket>, gone: set<Ticket>): seq<Ticket> {
    if s == [] then []
    else (if s[0] in gone then [] else [s[0]]) + Without(s[1..], gone)
  }

  ghost predicate AllDifferent(s: seq<Ticket>) {
    forall i, j | 0 <= i < j < |s| :: s[i] != s[j]
  }

  ghost predicate InOrder(w: World) {
    && w.grants + Tickets(w.shared.queue) == Without(w.entered, w.revoked)
    && AllDifferent(w.entered)
    && (forall t | t in w.entered :: t in w.drawn)
    && (forall t | t in w.revoked :: t in w.entered)
    && w.shared.cancelled <= w.revoked
  }

  /** An admission has returned exactly when it is not blocked, and says why. */
  ghost predicate Accounted(w: World) {
    && w.returned.Keys == w.drawn - w.waiting
    && (forall t | t in w.returned :: w.returned[t] == Granted <==> t in w.grants)
    && (forall t | t in w.returned :: w.returned[t] == Refused(Cancelled) <==> t in w.revoked)
    && (forall t | t in w.returned :: !w.returned[t].Waits?)
    && (forall t | t in w.holders :: t in w.grants)
  }

  ghost predicate Inv(w: World) {
    Blocked(w) && FrontAwake(w) && PermitsCounted(w) && InOrder(w) && Accounted(w)
  }

  // -------------------------------------------------------------------------
  // Filtering
  // -------------------------------------------------------------------------

  lemma {:induction false} WithoutAppend(a: seq<Ticket>, b: seq<Ticket>, gone: set<Ticket>)
    ensures Without(a + b, gone) == Without(a, gone) + Without(b, gone)
  {
    if a == [] {
      assert a + b == b;
    } else {
      assert (a + b)[1..] == a[1..] + b;
      WithoutAppend(a[1..], b, gone);
    }
  }

  lemma {:induction false} WithoutTwice(s: seq<Ticket>, a: set<Ticket>, b: set<Ticket>)
    ensures Without(Without(s, a), b) == Without(s, a + b)
  {
    if s != [] {
      WithoutTwice(s[1..], a, b);
      WithoutAppend(if s[0] in a then [] else [s[0]], Without(s[1..], a), b);
    }
  }

  lemma {:induction false} WithoutNone(s: seq<Ticket>, gone: set<Ticket>)
    requires forall t | t in s :: t !in gone
    ensures Without(s, gone) == s
  {
    if s != [] {
      WithoutNone(s[1..], gone);
    }
  }

  lemma {:induction false} WithoutMembers(s: seq<Ticket>, gone: set<Ticket>)
    ensures forall t :: t in Without(s, gone) <==> t in s && t !in gone
  {
    if s != [] {
      WithoutMembers(s[1..], gone);
    }
  }

  /** Filtering keeps a duplicate-free sequence duplicate-free. */
  lemma {:induction false} WithoutDistinct(s: seq<Ticket>, gone: set<Ticket>)
    requires AllDifferent(s)
    ensures AllDifferent(Without(s, gone))
  {
    if s != [] {
      WithoutDistinct(s[1..], gone);
      WithoutMembers(s[1..], gone);
      var rest := Without(s[1..], gone);
      forall i | 0 <= i < |rest| ensures rest[i] != s[0] {
        assert rest[i] in rest;
      }
    }
  }

  lemma {:induction false} TicketsOfKept(queue: seq<QueuedWork>, gone: set<Ticket>)
    ensures Tickets(Keep(queue, gone)) == Without(Tickets(queue), gone)
  {
    if queue != [] {
      TicketsOfKept(queue[1..], gone);
      assert Tickets(queue)[1..] == Tickets(queue[1..]);
      var kept := Keep(queue[1..], gone);
      assert queue[0].ticket !in gone ==> ([queue[0]] + kept)[1..] == kept;
    }
  }

  /** Nothing granted is also queued or revoked. */
  lemma GrantsApart(w: World)
    requires InOrder(w)
    ensures forall t | t in w.grants :: t !in AllTickets(w.shared.queue) && t !in w.revoked && t in w.entered
    ensures forall t | t in AllTickets(w.shared.queue) :: t in w.entered && t !in w.revoked
    ensures forall t | t in w.entered :: t in w.revoked || t in w.grants || t in AllTickets(w.shared.queue)
  {
    var order, queued := Without(w.entered, w.revoked), Tickets(w.shared.queue);
    WithoutMembers(w.entered, w.revoked);
    WithoutDistinct(w.entered, w.revoked);
    assert order == w.grants + queued;
    forall t | t in w.grants ensures t !in AllTickets(w.shared.queue) && t in order {
      var i :| 0 <= i < |w.grants| && w.grants[i] == t;
      assert order[i] == t;
      forall q | q in w.shared.queue ensures q.ticket != t {
        var k :| 0 <= k < |queued| && w.shared.queue[k] == q;
        assert order[|w.grants| + k] == q.ticket && i < |w.grants| + k;
      }
    }
    forall t | t in AllTickets(w.shared.queue) ensures t in order {
      var k :| 0 <= k < |queued| && w.shared.queue[k].ticket == t;
      assert order[|w.grants| + k] == t;
    }
    forall t | t in order ensures t in w.grants || t in AllTickets(w.shared.queue) {
      if t !in w.grants {
        assert t in queued;
        var k :| 0 <= k < |queued| && queued[k] == t;
        assert w.shared.queue[k] in w.shared.queue;
      }
    }
  }

  // -------------------------------------------------------------------------
  // Each event keeps the invariants
  // -------------------------------------------------------------------------

  lemma PushTickets(queue: seq<QueuedWork>, work: QueuedWork)
    requires Distinct(queue) && work.ticket !in AllTickets(queue)
    ensures Distinct(queue + [work]) && AllTickets(queue + [work]) == AllTickets(queue) + {work.ticket}
  {
    forall i | 0 <= i < |queue| ensures queue[i].ticket != work.ticket {
      assert queue[i] in queue;
    }
  }

  lemma PopTickets(queue: seq<QueuedWork>)
    requires Distinct(queue) && queue != []
    ensures Distinct(queue[1..]) && AllTickets(queue[1..]) == AllTickets(queue) - {queue[0].ticket}
  {
    assert queue == [queue[0]] + queue[1..];
    forall q | q in queue[1..] ensures q.ticket != queue[0].ticket {
      var i :| 1 <= i < |queue| && queue[i] == q;
    }
  }

  lemma EnterKeepsBlocked(w: World, work: QueuedWork)
    requires Blocked(w) && work.ticket !in w.drawn
    ensures Blocked(EnterWork(w, work))
  {
    assert work.ticket !in AllTickets(w.shared.queue);
    PushTickets(w.shared.queue, work);
  }

  lemma EnterKeepsCounts(w: World, work: QueuedWork)
    requires PermitsCounted(w) && FrontAwake(w) && w.holders <= w.drawn && work.ticket !in w.drawn
    requires work.ticket !in AllTickets(w.shared.queue)
    ensures PermitsCounted(EnterWork(w, work)) && FrontAwake(EnterWork(w, work))
  {
    assert w.shared.queue != [] ==> w.shared.queue[0] in w.shared.queue;
  }

  lemma WithoutOneMore(entered: seq<Ticket>, t: Ticket, gone: set<Ticket>)
    requires t !in gone
    ensures Without(entered + [t], gone) == Without(entered, gone) + [t]
  {
    WithoutAppend(entered, [t], gone);
    assert [t][1..] == [] && Without([t], gone) == [t] + Without([], gone) == [t];
  }

  lemma DifferentOneMore(entered: seq<Ticket>, t: Ticket)
    requires AllDifferent(entered) && t !in entered
    ensures AllDifferent(entered + [t])
  {
  }

  /** A ticket that entered last is queued or granted last. */
  lemma EnterKeepsOrderOf(w: World, v: World, t: Ticket)
    requires InOrder(w) && t !in w.drawn
    requires v.entered == w.entered + [t] && v.revoked == w.revoked && v.drawn == w.drawn + {t} && v.shared.cancelled == w.shared.cancelled
    requires v.grants + Tickets(v.shared.queue) == w.grants + Tickets(w.shared.queue) + [t]
    ensures InOrder(v)
  {
    WithoutOneMore(w.entered, t, w.revoked);
    DifferentOneMore(w.entered, t);
  }

  lemma EnterKeepsOrder(w: World, work: QueuedWork)
    requires InOrder(w) && work.ticket !in w.drawn
    ensures InOrder(EnterWork(w, work))
  {
    var t, turn := work.ticket, Admit(w.shared, work).1;
    if turn.Granted? {
      assert w.shared.queue == [] && Tickets(w.shared.queue) == [];
      EnterKeepsOrderOf(w, EnterWork(w, work), t);
    } else if turn.Waits? {
      TicketsAppend(w.shared.queue, work);
      assert w.grants + (Tickets(w.shared.queue) + [t]) == w.grants + Tickets(w.shared.queue) + [t];
      EnterKeepsOrderOf(w, EnterWork(w, work), t);
    }
  }

  /** A ticket that has just returned. */
  lemma ReturnKeepsAccounts(w: World, v: World, t: Ticket, turn: Turn)
    requires Accounted(w) && t !in w.returned && !turn.Waits? && t !in w.revoked && (turn.Granted? || turn != Refused(Cancelled))
    requires v.returned == w.returned[t := turn] && v.revoked == w.revoked && v.drawn - v.waiting == (w.drawn - w.waiting) + {t}
    requires if turn.Granted? then v.grants == w.grants + [t] && v.holders == w.holders + {t} else v.grants == w.grants && v.holders == w.holders
    requires t !in w.grants
    ensures Accounted(v)
  {
  }

  lemma EnterKeepsAccounts(w: World, work: QueuedWork)
    requires Accounted(w) && InOrder(w) && work.ticket !in w.drawn && w.waiting <= w.drawn
    ensures Accounted(EnterWork(w, work))
  {
    GrantsApart(w);
    var turn := Admit(w.shared, work).1;
    if !turn.Waits? {
      ReturnKeepsAccounts(w, EnterWork(w, work), work.ticket, turn);
    }
  }

  lemma {:induction false} TicketsAppend(queue: seq<QueuedWork>, work: QueuedWork)
    ensures Tickets(queue + [work]) == Tickets(queue) + [work.ticket]
  {
  }

  lemma ResumeKeepsBlocked(w: World, t: Ticket)
    requires Blocked(w) && t in w.waiting && t !in w.shared.sleeping
    ensures Blocked(ResumeWork(w, t))
  {
    if w.shared.queue != [] {
      PopTickets(w.shared.queue);
    }
  }

  lemma ResumeKeepsCounts(w: World, t: Ticket)
    requires PermitsCounted(w) && FrontAwake(w) && t !in w.holders
    ensures PermitsCounted(ResumeWork(w, t)) && FrontAwake(ResumeWork(w, t))
  {
  }

  lemma ResumeKeepsOrder(w: World, t: Ticket)
    requires InOrder(w)
    ensures InOrder(ResumeWork(w, t))
  {
    var q := w.shared.queue;
    if q != [] {
      assert w.grants + Tickets(q) == (w.grants + [q[0].ticket]) + Tickets(q[1..]);
    }
  }

  lemma ResumeKeepsAccounts(w: World, t: Ticket)
    requires Accounted(w) && InOrder(w) && t in w.waiting && w.waiting <= w.drawn
    ensures Accounted(ResumeWork(w, t))
  {
    GrantsApart(w);
    assert w.shared.queue != [] ==> w.shared.queue[0] in w.shared.queue;
  }

  lemma CancelKeepsBlocked(w: World, gone: set<Ticket>)
    requires Blocked(w) && PermitsCounted(w) && gone <= AllTickets(w.shared.queue)
    ensures var v := CancelWork(w, CancelTickets(w.shared, gone)); Blocked(v) && FrontAwake(v) && PermitsCounted(v)
  {
    var q := w.shared.queue;
    KeepDistinct(q, gone);
    KeepCounts(q, gone);
  }

  lemma TicketsOfMore(first: QueuedWork, rest: seq<QueuedWork>)
    ensures AllTickets([first] + rest) == {first.ticket} + AllTickets(rest)
  {
    var queue := [first] + rest;
    forall t | t in AllTickets(rest) ensures t in AllTickets(queue) {
      var q :| q in rest && q.ticket == t;
      assert q in queue;
    }
    assert first in queue;
  }

  lemma {:induction false} KeepShorter(queue: seq<QueuedWork>, gone: set<Ticket>)
    ensures |Keep(queue, gone)| <= |queue|
  {
    if queue != [] {
      KeepShorter(queue[1..], gone);
    }
  }

  lemma {:induction false} KeepTickets(queue: seq<QueuedWork>, gone: set<Ticket>)
    ensures AllTickets(Keep(queue, gone)) == AllTickets(queue) - gone
  {
    if queue != [] {
      var rest := queue[1..];
      KeepTickets(rest, gone);
      assert queue == [queue[0]] + rest;
      TicketsOfMore(queue[0], rest);
      if queue[0].ticket in gone {
        assert Keep(queue, gone) == Keep(rest, gone);
      } else {
        TicketsOfMore(queue[0], Keep(rest, gone));
      }
    }
  }

  lemma KeepCounts(queue: seq<QueuedWork>, gone: set<Ticket>)
    ensures |Keep(queue, gone)| <= |queue|
    ensures AllTickets(Keep(queue, gone)) == AllTickets(queue) - gone
  {
    KeepShorter(queue, gone);
    KeepTickets(queue, gone);
  }

  lemma CancelKeepsOrder(w: World, gone: set<Ticket>)
    requires Blocked(w) && InOrder(w) && Accounted(w) && gone <= AllTickets(w.shared.queue)
    ensures var v := CancelWork(w, CancelTickets(w.shared, gone)); InOrder(v) && Accounted(v)
  {
    var queued := Tickets(w.shared.queue);
    GrantsApart(w);
    assert w.revoked + (w.shared.cancelled + gone) == w.revoked + gone;
    WithoutTwice(w.entered, w.revoked, gone);
    WithoutAppend(w.grants, queued, gone);
    WithoutNone(w.grants, gone);
    TicketsOfKept(w.shared.queue, gone);
  }

  lemma CancelKeepsInv(w: World, gone: set<Ticket>)
    requires Inv(w) && gone <= AllTickets(w.shared.queue)
    ensures Inv(CancelWork(w, CancelTickets(w.shared, gone)))
  {
    CancelKeepsBlocked(w, gone);
    CancelKeepsOrder(w, gone);
  }

  lemma WakeKeepsInv(w: World, t: Ticket)
    requires Inv(w)
    ensures Inv(w.(shared := w.shared.(sleeping := w.shared.sleeping - {t})))
  {
  }

  lemma ReleaseKeepsInv(w: World, t: Ticket)
    requires Inv(w) && t in w.holders
    ensures Inv(w.(shared := DropWork(w.shared), holders := w.holders - {t}))
  {
  }

  /** Nothing about work admissions depends on the immediate lanes. */
  lemma LanesApart(w: World, observation: nat, control: nat, rejected: nat, observers: nat, controllers: nat)
    requires Inv(w)
    ensures var v := w.(shared := w.shared.(observation := observation, control := control, rejected := rejected),
                        observers := observers, controllers := controllers);
            Blocked(v) && FrontAwake(v) && InOrder(v) && Accounted(v)
  {
  }

  lemma LaneEntered(w: World, lane: Lane)
    requires Inv(w)
    ensures Inv(Lanes(w, lane, true))
  {
    var v := Lanes(w, lane, true);
    LanesApart(w, v.shared.observation, v.shared.control, v.shared.rejected, v.observers, v.controllers);
  }

  lemma LaneLeft(w: World, lane: Lane)
    requires Inv(w)
    ensures Inv(Lanes(w, lane, false))
  {
    var v := Lanes(w, lane, false);
    LanesApart(w, v.shared.observation, v.shared.control, v.shared.rejected, v.observers, v.controllers);
  }

  lemma CloseKeepsInv(w: World)
    requires Inv(w)
    ensures Inv(CancelWork(w, Close(w.shared)))
  {
    var all := AllTickets(w.shared.queue);
    CancelKeepsInv(w, all);
    KeepNone(w.shared.queue, all);
    var v := CancelWork(w, CancelTickets(w.shared, all));
    assert CancelWork(w, Close(w.shared)) == v.(shared := v.shared.(closed := true));
  }

  lemma CancelAtKeepsInv(w: World, index: Option<nat>)
    requires Inv(w) && (index.Some? ==> index.value < |w.shared.queue|)
    ensures Inv(CancelWork(w, CancelAt(w.shared, index)))
  {
    if index.Some? {
      assert w.shared.queue[index.value] in w.shared.queue;
      CancelKeepsInv(w, {w.shared.queue[index.value].ticket});
    } else {
      assert CancelWork(w, w.shared) == w;
    }
  }

  lemma EnterKeepsInv(w: World, work: QueuedWork)
    requires Inv(w) && work.ticket !in w.drawn
    ensures Inv(EnterWork(w, work))
  {
    EnterKeepsBlocked(w, work);
    EnterKeepsCounts(w, work);
    EnterKeepsOrder(w, work);
    EnterKeepsAccounts(w, work);
  }

  lemma ResumeKeepsInv(w: World, t: Ticket)
    requires Inv(w) && t in w.waiting && t !in w.shared.sleeping
    ensures Inv(ResumeWork(w, t))
  {
    ResumeKeepsBlocked(w, t);
    ResumeKeepsCounts(w, t);
    ResumeKeepsOrder(w, t);
    ResumeKeepsAccounts(w, t);
  }

  predicate IsCancel(e: Event) {
    e.CancelRequestOf? || e.CancelTaskOf? || e.CancelSessionOf? || e.CloseAll?
  }

  lemma CancellationKeepsInv(w: World, e: Event)
    requires Inv(w) && IsCancel(e)
    ensures Inv(Next(w, e))
  {
    match e
    case CancelRequestOf(request) => CancelAtKeepsInv(w, FirstForRequest(w.shared.queue, request));
    case CancelTaskOf(owner, task) => CancelAtKeepsInv(w, FirstForTask(w.shared.queue, owner, task));
    case CancelSessionOf(owner) => CancelKeepsInv(w, OwnedBy(w.shared.queue, owner));
    case CloseAll => CloseKeepsInv(w);
  }

  predicate IsAdmission(e: Event) {
    e.Enter? || e.Resume? || e.SpuriousWake?
  }

  lemma AdmissionKeepsInv(w: World, e: Event)
    requires Inv(w) && IsAdmission(e)
    ensures Inv(Next(w, e))
  {
    match e
    case Enter(work) => if work.ticket !in w.drawn { EnterKeepsInv(w, work); }
    case Resume(t) => if t in w.waiting && t !in w.shared.sleeping { ResumeKeepsInv(w, t); }
    case SpuriousWake(t) => WakeKeepsInv(w, t);
  }

  lemma PermitKeepsInv(w: World, e: Event)
    requires Inv(w) && !IsCancel(e) && !IsAdmission(e)
    ensures Inv(Next(w, e))
  {
    match e
    case ReleaseWork(t) => if t in w.holders { ReleaseKeepsInv(w, t); }
    case EnterLane(lane) => LaneEntered(w, lane);
    case ReleaseLane(lane) => LaneLeft(w, lane);
  }

  lemma NextKeepsInv(w: World, e: Event)
    requires Inv(w)
    ensures Inv(Next(w, e))
  {
    if IsCancel(e) {
      CancellationKeepsInv(w, e);
    } else if IsAdmission(e) {
      AdmissionKeepsInv(w, e);
    } else {
      PermitKeepsInv(w, e);
    }
  }

  lemma {:induction false} InvHolds(events: seq<Event>)
    ensures Inv(Run(events))
  {
    if events != [] {
      InvHolds(events[..|events| - 1]);
      NextKeepsInv(Run(events[..|events| - 1]), events[|events| - 1]);
    }
  }

  // -------------------------------------------------------------------------
  // Main results, over every run
  // -------------------------------------------------------------------------

  /**
   No wake-up is lost. If the slot is free and work is queued, the front waiter is awake and its next
   turn takes the slot; a waiter that was cancelled is awake and its next turn returns Cancelled.
   */
  lemma NoLostWakeup(events: seq<Event>)
    ensures var w := Run(events); var s := w.shared;
            && (s.running == 0 && s.queue != [] ==>
                  var front := s.queue[0].ticket;
                  && front in w.waiting && front !in s.sleeping
                  && Next(w, Resume(front)).holders == {front} && Next(w, Resume(front)).grants == w.grants + [front])
            && (forall t | t in s.cancelled ::
                  && t in w.waiting && t !in s.sleeping
                  && t in Next(w, Resume(t)).returned && Next(w, Resume(t)).returned[t] == Refused(Cancelled))
  {
    InvHolds(events);
    var w := Run(events);
    if w.shared.queue != [] {
      assert w.shared.queue[0] in w.shared.queue;
    }
    if w.shared.running == 0 {
      assert w.holders == {};
    }
  }

  /** Permits are granted in the order admissions held the lock, leaving out the cancelled ones. */
  lemma GrantsAreFifo(events: seq<Event>)
    ensures var w := Run(events); w.grants + Tickets(w.shared.queue) == Without(w.entered, w.revoked)
    ensures AllDifferent(Run(events).grants)
  {
    InvHolds(events);
    var w := Run(events);
    WithoutDistinct(w.entered, w.revoked);
    assert forall i | 0 <= i < |w.grants| :: w.grants[i] == Without(w.entered, w.revoked)[i];
  }

  /** An accepted admission is queued, granted or cancelled, never two of these. */
  lemma OneFateEach(events: seq<Event>, t: Ticket)
    requires t in Run(events).entered
    ensures var w := Run(events);
            var queued, granted, cancelled := t in Tickets(w.shared.queue), t in w.grants, t in w.revoked;
            && (queued || granted || cancelled)
            && !(queued && granted) && !(queued && cancelled) && !(granted && cancelled)
    ensures var w := Run(events);
            t in w.returned ==> w.returned[t] == if t in w.grants then Granted else Refused(Cancelled)
  {
    InvHolds(events);
    var w := Run(events);
    GrantsApart(w);
    if t in Tickets(w.shared.queue) {
      var k :| 0 <= k < |w.shared.queue| && Tickets(w.shared.queue)[k] == t;
      assert w.shared.queue[k] in w.shared.queue;
    }
    if t in AllTickets(w.shared.queue) {
      var k :| 0 <= k < |w.shared.queue| && w.shared.queue[k].ticket == t;
      assert Tickets(w.shared.queue)[k] == t;
    }
  }

  /** The counters are the live permits, within their limits, so no saturating subtraction clips. */
  lemma CountersAreExact(events: seq<Event>)
    ensures var w := Run(events);
            && w.shared.running == |w.holders| <= 1
            && w.shared.observation == w.observers <= 16
            && w.shared.control == w.controllers <= 16
            && |w.shared.queue| <= 32
  {
    InvHolds(events);
  }

  lemma ClosedStep(w: World, e: Event)
    requires w.shared.closed && w.shared.queue == []
    ensures var v := Next(w, e); v.shared.closed && v.shared.queue == [] && v.grants == w.grants && v.entered == w.entered
  {
  }

  ghost predicate ClosedWith(events: seq<Event>, grants: seq<Ticket>, entered: seq<Ticket>) {
    var w := Run(events);
    w.shared.closed && w.shared.queue == [] && w.grants == grants && w.entered == entered
  }

  lemma ClosedOneMore(events: seq<Event>, e: Event, grants: seq<Ticket>, entered: seq<Ticket>)
    requires ClosedWith(events, grants, entered)
    ensures ClosedWith(events + [e], grants, entered)
  {
    assert (events + [e])[..|events|] == events;
    ClosedStep(Run(events), e);
  }

  lemma {:induction false} ClosedForGood(before: seq<Event>, after: seq<Event>, grants: seq<Ticket>, entered: seq<Ticket>)
    requires ClosedWith(before, grants, entered)
    ensures ClosedWith(before + after, grants, entered)
    decreases |after|
  {
    if after == [] {
      assert before + after == before;
    } else {
      var most, last := after[..|after| - 1], after[|after| - 1];
      ClosedForGood(before, most, grants, entered);
      ClosedOneMore(before + most, last, grants, entered);
      assert before + after == (before + most) + [last];
    }
  }

  /** Once closed, the scheduler stays closed, keeps no queue and grants nothing more. */
  lemma NothingGrantedAfterClose(before: seq<Event>, after: seq<Event>)
    requires Run(before).shared.closed
    ensures var w := Run(before + after);
            w.shared.closed && w.shared.queue == [] && w.grants == Run(before).grants && w.entered == Run(before).entered
  {
    InvHolds(before);
    ClosedForGood(before, after, Run(before).grants, Run(before).entered);
  }
}
