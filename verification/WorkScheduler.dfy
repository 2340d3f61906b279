/**
 The work scheduler: one foreground slot, a bounded queue, cancellation, close and a condition
 variable (src-tauri/src/control_plane/scheduler.rs).

 `Shared` is what the mutex guards, together with the condition variable's set of sleeping waiters.
 Each function below it is one critical section; class `Scheduler` performs the same sections on its
 fields. A blocked admission is cut at its `wait`: `Admit` runs up to the first wait and `Recheck` is
 one turn of the loop body, run by a waiter that is awake.
 */
module WorkScheduler {
  import opened Options
  import opened Integers

  type Ticket = nat
  type SessionId = string
  type TaskId = string
  type RequestKey = string

  const MAX_WORK_QUEUE := 32
  const MAX_OBSERVATION_ACTIVE := 16
  const MAX_CONTROL_ACTIVE := 16
  const FOREGROUND_WORK_SLOTS := 1

  datatype Lane = Observation | Control
  datatype AdmissionError = QueueCapacityExceeded | ImmediateCapacityExceeded | Cancelled | Closed
  datatype QueuedWork = QueuedWork(ticket: Ticket, owner: SessionId, task: TaskId, request: RequestKey)

  /** What a critical section of a work admission ends with. */
  datatype Turn = Granted | Waits | Refused(error: AdmissionError)

  datatype Shared = Shared(
    observation: nat, control: nat, running: nat,
    queue: seq<QueuedWork>, cancelled: set<Ticket>, rejected: nat, closed: bool,
    sleeping: set<Ticket>)

  const IDLE := Shared(0, 0, 0, [], {}, 0, false, {})

  function Tickets(queue: seq<QueuedWork>): (r: seq<Ticket>)
    ensures |r| == |queue| && forall i | 0 <= i < |r| :: r[i] == queue[i].ticket
  {
    if queue == [] then [] else [queue[0].ticket] + Tickets(queue[1..])
  }

  /** No ticket is queued twice. */
  ghost predicate Distinct(queue: seq<QueuedWork>) {
    forall i, j | 0 <= i < j < |queue| :: queue[i].ticket != queue[j].ticket
  }

  /** The queue without the given tickets, in its order. */
  function Keep(queue: seq<QueuedWork>, gone: set<Ticket>): seq<QueuedWork> {
    if queue == [] then []
    else (if queue[0].ticket in gone then [] else [queue[0]]) + Keep(queue[1..], gone)
  }

  // -------------------------------------------------------------------------
  // Critical sections
  // -------------------------------------------------------------------------

  function EnterImmediate(s: Shared, lane: Lane): (Shared, Option<AdmissionError>) {
    if s.closed then (s, Some(Closed))
    else match lane
      case Observation =>
        if s.observation >= MAX_OBSERVATION_ACTIVE
        then (s.(rejected := SaturatingAdd(s.rejected, 1)), Some(ImmediateCapacityExceeded))
        else (s.(observation := s.observation + 1), None)
      case Control =>
        if s.control >= MAX_CONTROL_ACTIVE
        then (s.(rejected := SaturatingAdd(s.rejected, 1)), Some(ImmediateCapacityExceeded))
        else (s.(control := s.control + 1), None)
  }

  function Admit(s: Shared, work: QueuedWork): (Shared, Turn) {
    if s.closed then (s, Refused(Closed))
    else if s.running < FOREGROUND_WORK_SLOTS && s.queue == [] then (s.(running := s.running + 1), Granted)
    else if |s.queue| >= MAX_WORK_QUEUE then
      (s.(rejected := SaturatingAdd(s.rejected, 1)), Refused(QueueCapacityExceeded))
    else (s.(queue := s.queue + [work], sleeping := s.sleeping + {work.ticket}), Waits)
  }

  function Recheck(s: Shared, ticket: Ticket): (Shared, Turn) {
    if ticket in s.cancelled then (s.(cancelled := s.cancelled - {ticket}), Refused(Cancelled))
    else if s.queue != [] && s.queue[0].ticket == ticket && s.running < FOREGROUND_WORK_SLOTS then
      (s.(queue := s.queue[1..], running := s.running + 1), Granted)
    else (s.(sleeping := s.sleeping + {ticket}), Waits)
  }

  /** Cancels a set of queued tickets and wakes every waiter. */
  function CancelTickets(s: Shared, gone: set<Ticket>): Shared {
    s.(queue := Keep(s.queue, gone), cancelled := s.cancelled + gone, sleeping := {})
  }

  /** The first queued entry for the request, if any. */
  function FirstForRequest(queue: seq<QueuedWork>, request: RequestKey): (r: Option<nat>)
    ensures r.Some? ==> r.value < |queue| && queue[r.value].request == request
    ensures forall i | 0 <= i < (if r.Some? then r.value else |queue|) :: queue[i].request != request
  {
    if queue == [] then None
    else if queue[0].request == request then Some(0)
    else match FirstForRequest(queue[1..], request) case None => None case Some(i) => Some(i + 1)
  }

  function FirstForTask(queue: seq<QueuedWork>, owner: SessionId, task: TaskId): (r: Option<nat>)
    ensures r.Some? ==> r.value < |queue| && queue[r.value].owner == owner && queue[r.value].task == task
    ensures forall i | 0 <= i < (if r.Some? then r.value else |queue|) :: queue[i].owner != owner || queue[i].task != task
  {
    if queue == [] then None
    else if queue[0].owner == owner && queue[0].task == task then Some(0)
    else match FirstForTask(queue[1..], owner, task) case None => None case Some(i) => Some(i + 1)
  }

  ghost predicate FirstOfRequest(queue: seq<QueuedWork>, request: RequestKey, i: nat) {
    i < |queue| && queue[i].request == request && forall j | 0 <= j < i :: queue[j].request != request
  }

  ghost predicate FirstOfTask(queue: seq<QueuedWork>, owner: SessionId, task: TaskId, i: nat) {
    && i < |queue| && queue[i].owner == owner && queue[i].task == task
    && forall j | 0 <= j < i :: queue[j].owner != owner || queue[j].task != task
  }

  function CancelAt(s: Shared, index: Option<nat>): Shared
    requires index.Some? ==> index.value < |s.queue|
  {
    if index.None? then s else CancelTickets(s, {s.queue[index.value].ticket})
  }

  function OwnedBy(queue: seq<QueuedWork>, owner: SessionId): set<Ticket> {
    set q | q in queue && q.owner == owner :: q.ticket
  }

  function AllTickets(queue: seq<QueuedWork>): set<Ticket> {
    set q | q in queue :: q.ticket
  }

  function CancelSession(s: Shared, owner: SessionId): Shared {
    CancelTickets(s, OwnedBy(s.queue, owner))
  }

  function Close(s: Shared): Shared {
    CancelTickets(s, AllTickets(s.queue)).(closed := true)
  }

  function DropImmediate(s: Shared, lane: Lane): Shared {
    match lane
    case Observation => s.(observation := SaturatingSub(s.observation, 1))
    case Control => s.(control := SaturatingSub(s.control, 1))
  }

  function DropWork(s: Shared): Shared {
    s.(running := SaturatingSub(s.running, 1), sleeping := {})
  }

  // -------------------------------------------------------------------------
  // Facts about the queue
  // -------------------------------------------------------------------------

  lemma {:induction false} KeepAppend(a: seq<QueuedWork>, b: seq<QueuedWork>, gone: set<Ticket>)
    ensures Keep(a + b, gone) == Keep(a, gone) + Keep(b, gone)
  {
    if a == [] {
      assert a + b == b;
    } else {
      assert (a + b)[1..] == a[1..] + b;
      KeepAppend(a[1..], b, gone);
    }
  }

  lemma {:induction false} KeepAll(queue: seq<QueuedWork>, gone: set<Ticket>)
    requires forall q | q in queue :: q.ticket !in gone
    ensures Keep(queue, gone) == queue
  {
    if queue != [] {
      KeepAll(queue[1..], gone);
    }
  }

  lemma {:induction false} KeepNone(queue: seq<QueuedWork>, gone: set<Ticket>)
    requires forall q | q in queue :: q.ticket in gone
    ensures Keep(queue, gone) == []
  {
    if queue != [] {
      KeepNone(queue[1..], gone);
    }
  }

  /** Removing one entry is keeping the others. */
  lemma {:induction false} RemoveIsKeep(queue: seq<QueuedWork>, i: nat)
    requires i < |queue| && Distinct(queue)
    ensures Keep(queue, {queue[i].ticket}) == queue[..i] + queue[i + 1..]
  {
    var rest := queue[1..];
    if i == 0 {
      KeepAll(rest, {queue[0].ticket});
    } else {
      RemoveIsKeep(rest, i - 1);
      assert queue[..i] + queue[i + 1..] == [queue[0]] + (rest[..i - 1] + rest[i..]);
    }
  }

  /** One more entry taken off the front of a queue that is being filtered. */
  lemma TakeOne(queue: seq<QueuedWork>, n: nat, gone: set<Ticket>)
    requires n < |queue|
    ensures Keep(queue[..n + 1], gone) == Keep(queue[..n], gone) + if queue[n].ticket in gone then [] else [queue[n]]
    ensures TasksOf(queue[..n + 1], gone) == TasksOf(queue[..n], gone) + if queue[n].ticket in gone then [queue[n].task] else []
    ensures AllTickets(queue[..n + 1]) == AllTickets(queue[..n]) + {queue[n].ticket}
  {
    assert queue[..n + 1] == queue[..n] + [queue[n]];
    KeepAppend(queue[..n], [queue[n]], gone);
    TasksAppend(queue[..n], queue[n], gone);
  }

  // -------------------------------------------------------------------------
  // The scheduler object
  // -------------------------------------------------------------------------

  class Scheduler {
    var observationActive: nat
    var controlActive: nat
    var workRunning: nat
    var queue: seq<QueuedWork>
    var cancelled: set<Ticket>
    var rejectedTotal: nat
    var closed: bool
    /** The waiters blocked on the condition variable. */
    var sleeping: set<Ticket>

    ghost predicate Valid()
      reads this
    {
      Distinct(queue)
    }

    ghost function State(): Shared
      reads this
    {
      Shared(observationActive, controlActive, workRunning, queue, cancelled, rejectedTotal, closed, sleeping)
    }

    constructor ()
      ensures Valid() && State() == IDLE
    {
      observationActive, controlActive, workRunning, queue := 0, 0, 0, [];
      cancelled, rejectedTotal, closed, sleeping := {}, 0, false, {};
    }

    method NotifyAll()
      modifies this`sleeping
      ensures sleeping == {}
    {
      sleeping := {};
    }

    method EnterImmediateLane(lane: Lane) returns (error: Option<AdmissionError>)
      modifies this
      ensures (State(), error) == EnterImmediate(old(State()), lane)
      ensures error == Some(Closed) <==> old(closed)
      ensures error == Some(ImmediateCapacityExceeded) <==>
                !old(closed) && (if lane == Observation then old(observationActive) else old(controlActive)) >= 16
      ensures error == Some(Closed) ==> State() == old(State())
      ensures error == Some(ImmediateCapacityExceeded) ==>
                State() == old(State()).(rejected := SaturatingAdd(old(rejectedTotal), 1))
      ensures error.None? ==>
                if lane == Observation then State() == old(State()).(observation := old(observationActive) + 1)
                else State() == old(State()).(control := old(controlActive) + 1)
    {
      if closed {
        return Some(Closed);
      }
      match lane {
        case Observation =>
          if observationActive >= MAX_OBSERVATION_ACTIVE {
            rejectedTotal := SaturatingAdd(rejectedTotal, 1);
            return Some(ImmediateCapacityExceeded);
          }
          observationActive := observationActive + 1;
        case Control =>
          if controlActive >= MAX_CONTROL_ACTIVE {
            rejectedTotal := SaturatingAdd(rejectedTotal, 1);
            return Some(ImmediateCapacityExceeded);
          }
          controlActive := controlActive + 1;
      }
      error := None;
    }

    method AdmitWork(work: QueuedWork) returns (turn: Turn)
      requires Valid() && work.ticket !in AllTickets(queue)
      modifies this
      ensures Valid() && (State(), turn) == Admit(old(State()), work)
      ensures turn == Refused(Closed) <==> old(closed)
      ensures turn == Granted <==> !old(closed) && old(workRunning) == 0 && old(queue) == []
      ensures turn == Refused(QueueCapacityExceeded) <==> !old(closed) && |old(queue)| >= 32
      ensures turn in {Refused(Closed), Refused(QueueCapacityExceeded), Granted, Waits}
      ensures turn == Refused(Closed) ==> State() == old(State())
      ensures turn == Refused(QueueCapacityExceeded) ==> State() == old(State()).(rejected := SaturatingAdd(old(rejectedTotal), 1))
      ensures turn == Granted ==> State() == old(State()).(running := 1)
      ensures turn == Waits ==> State() == old(State()).(queue := old(queue) + [work], sleeping := old(sleeping) + {work.ticket})
    {
      if closed {
        return Refused(Closed);
      }
      if workRunning < FOREGROUND_WORK_SLOTS && |queue| == 0 {
        workRunning := workRunning + 1;
        return Granted;
      }
      if |queue| >= MAX_WORK_QUEUE {
        rejectedTotal := SaturatingAdd(rejectedTotal, 1);
        return Refused(QueueCapacityExceeded);
      }
      queue := queue + [work];
      sleeping := sleeping + {work.ticket};
      turn := Waits;
    }

    method RecheckWork(ticket: Ticket) returns (turn: Turn)
      requires Valid()
      modifies this
      ensures Valid() && (State(), turn) == Recheck(old(State()), ticket)
      ensures turn == Refused(Cancelled) <==> ticket in old(cancelled)
      ensures turn == Granted <==>
                ticket !in old(cancelled) && old(queue) != [] && old(queue)[0].ticket == ticket && old(workRunning) == 0
      ensures turn in {Refused(Cancelled), Granted, Waits}
      ensures turn == Refused(Cancelled) ==> State() == old(State()).(cancelled := old(cancelled) - {ticket})
      ensures turn == Granted ==> State() == old(State()).(queue := old(queue)[1..], running := 1)
      ensures turn == Waits ==> State() == old(State()).(sleeping := old(sleeping) + {ticket})
    {
      if ticket in cancelled {
        cancelled := cancelled - {ticket};
        return Refused(Cancelled);
      }
      var isFront := |queue| > 0 && queue[0].ticket == ticket;
      if isFront && workRunning < FOREGROUND_WORK_SLOTS {
        queue := queue[1..];
        workRunning := workRunning + 1;
        return Granted;
      }
      sleeping := sleeping + {ticket};
      turn := Waits;
    }

    method RemoveQueued(index: nat)
      requires Valid() && index < |queue|
      modifies this
      ensures Valid() && State() == CancelTickets(old(State()), {old(queue)[index].ticket})
      ensures State() == old(State()).(
                queue := old(queue)[..index] + old(queue)[index + 1..],
                cancelled := old(cancelled) + {old(queue)[index].ticket},
                sleeping := {})
    {
      RemoveIsKeep(queue, index);
      KeepDistinct(queue, {queue[index].ticket});
      cancelled := cancelled + {queue[index].ticket};
      queue := queue[..index] + queue[index + 1..];
      NotifyAll();
    }

    method CancelQueuedRequest(request: RequestKey) returns (task: Option<TaskId>)
      requires Valid()
      modifies this
      ensures Valid() && State() == CancelAt(old(State()), FirstForRequest(old(queue), request))
      ensures forall i: nat | FirstOfRequest(old(queue), request, i) ::
                && task == Some(old(queue)[i].task)
                && State() == old(State()).(
                     queue := old(queue)[..i] + old(queue)[i + 1..],
                     cancelled := old(cancelled) + {old(queue)[i].ticket},
                     sleeping := {})
      ensures (forall q | q in old(queue) :: q.request != request) ==> task == None && State() == old(State())
    {
      var index := 0;
      while index < |queue| && queue[index].request != request
        invariant index <= |queue| && forall i | 0 <= i < index :: queue[i].request != request
      {
        index := index + 1;
      }
      if index == |queue| {
        return None;
      }
      task := Some(queue[index].task);
      ghost var before := queue;
      RemoveQueued(index);
      assert forall i: nat | FirstOfRequest(before, request, i) :: i == index;
    }

    method CancelQueuedTask(owner: SessionId, task: TaskId) returns (found: bool)
      requires Valid()
      modifies this
      ensures Valid() && State() == CancelAt(old(State()), FirstForTask(old(queue), owner, task))
      ensures forall i: nat | FirstOfTask(old(queue), owner, task, i) ::
                && found == true
                && State() == old(State()).(
                     queue := old(queue)[..i] + old(queue)[i + 1..],
                     cancelled := old(cancelled) + {old(queue)[i].ticket},
                     sleeping := {})
      ensures (forall q | q in old(queue) :: q.owner != owner || q.task != task) ==> found == false && State() == old(State())
    {
      var index := 0;
      while index < |queue| && (queue[index].owner != owner || queue[index].task != task)
        invariant index <= |queue| && forall i | 0 <= i < index :: queue[i].owner != owner || queue[i].task != task
      {
        index := index + 1;
      }
      if index == |queue| {
        return false;
      }
      ghost var before := queue;
      RemoveQueued(index);
      assert forall i: nat | FirstOfTask(before, owner, task, i) :: i == index;
      found := true;
    }

    /** The loop of `CancelQueuedBySession`: the queue is emptied into the retained part. */
    method DrainSession(owner: SessionId) returns (retained: seq<QueuedWork>, tasks: seq<TaskId>)
      requires Distinct(queue)
      modifies `queue, `cancelled
      ensures retained == Keep(old(queue), OwnedBy(old(queue), owner))
      ensures tasks == TasksOf(old(queue), OwnedBy(old(queue), owner))
      ensures cancelled == old(cancelled) + OwnedBy(old(queue), owner)
    {
      ghost var before, gone := queue, OwnedBy(queue, owner);
      retained, tasks := [], [];
      ghost var n := 0;
      while |queue| > 0
        invariant n <= |before| && queue == before[n..]
        invariant retained == Keep(before[..n], gone)
        invariant tasks == TasksOf(before[..n], gone)
        invariant cancelled == old(cancelled) + OwnedBy(before[..n], owner)
        decreases |queue|
      {
        var queued := queue[0];
        queue := queue[1..];
        TakeOne(before, n, gone);
        OwnersDecide(before, n, owner);
        if queued.owner == owner {
          cancelled := cancelled + {queued.ticket};
          tasks := tasks + [queued.task];
        } else {
          retained := retained + [queued];
        }
        n := n + 1;
      }
      assert before[..n] == before;
    }

    method CancelQueuedBySession(owner: SessionId) returns (tasks: seq<TaskId>)
      requires Valid()
      modifies this
      ensures Valid() && State() == CancelSession(old(State()), owner)
      ensures tasks == TasksOf(old(queue), OwnedBy(old(queue), owner))
      ensures State() == old(State()).(queue := queue, cancelled := cancelled, sleeping := {})
      ensures forall q :: q in queue <==> q in old(queue) && q.owner != owner
      ensures forall t :: t in cancelled <==> t in old(cancelled) || exists q :: q in old(queue) && q.owner == owner && q.ticket == t
    {
      ghost var before := queue;
      var retained;
      retained, tasks := DrainSession(owner);
      queue := retained;
      OthersStay(before, owner);
      NotifyAll();
    }

    /** The loop of `CloseScheduler`. */
    method DrainAll() returns (tasks: seq<TaskId>)
      modifies `queue, `cancelled
      ensures queue == [] && cancelled == old(cancelled) + AllTickets(old(queue))
      ensures tasks == TasksOf(old(queue), AllTickets(old(queue)))
    {
      ghost var before, gone := queue, AllTickets(queue);
      tasks := [];
      ghost var n := 0;
      while |queue| > 0
        invariant n <= |before| && queue == before[n..]
        invariant tasks == TasksOf(before[..n], gone)
        invariant cancelled == old(cancelled) + AllTickets(before[..n])
        decreases |queue|
      {
        var queued := queue[0];
        queue := queue[1..];
        TakeOne(before, n, gone);
        assert queued in before;
        cancelled := cancelled + {queued.ticket};
        tasks := tasks + [queued.task];
        n := n + 1;
      }
      assert before[..n] == before;
    }

    method CloseScheduler() returns (tasks: seq<TaskId>)
      requires Valid()
      modifies this
      ensures Valid() && State() == Close(old(State()))
      ensures |tasks| == |old(queue)| && forall i | 0 <= i < |tasks| :: tasks[i] == old(queue)[i].task
      ensures State() == old(State()).(queue := [], cancelled := cancelled, closed := true, sleeping := {})
      ensures forall t :: t in cancelled <==> t in old(cancelled) || exists q :: q in old(queue) && q.ticket == t
    {
      ghost var before := queue;
      closed := true;
      tasks := DrainAll();
      TasksOfAll(before, AllTickets(before));
      KeepNone(before, AllTickets(before));
      NotifyAll();
    }

    method DropImmediatePermit(lane: Lane)
      modifies this
      ensures State() == DropImmediate(old(State()), lane)
      ensures lane == Observation ==>
                State() == old(State()).(observation := if old(observationActive) == 0 then 0 else old(observationActive) - 1)
      ensures lane == Control ==>
                State() == old(State()).(control := if old(controlActive) == 0 then 0 else old(controlActive) - 1)
    {
      match lane {
        case Observation => observationActive := SaturatingSub(observationActive, 1);
        case Control => controlActive := SaturatingSub(controlActive, 1);
      }
    }

    method DropWorkPermit()
      modifies this
      ensures State() == DropWork(old(State()))
      ensures State() == old(State()).(running := if old(workRunning) == 0 then 0 else old(workRunning) - 1, sleeping := {})
    {
      workRunning := SaturatingSub(workRunning, 1);
      NotifyAll();
    }
  }

  /** The tasks of the cancelled entries, in queue order. */
  function TasksOf(queue: seq<QueuedWork>, gone: set<Ticket>): seq<TaskId> {
    if queue == [] then []
    else (if queue[0].ticket in gone then [queue[0].task] else []) + TasksOf(queue[1..], gone)
  }

  lemma {:induction false} TasksAppend(a: seq<QueuedWork>, last: QueuedWork, gone: set<Ticket>)
    ensures TasksOf(a + [last], gone) == TasksOf(a, gone) + if last.ticket in gone then [last.task] else []
  {
    if a == [] {
      assert a + [last] == [last];
    } else {
      assert (a + [last])[1..] == a[1..] + [last];
      TasksAppend(a[1..], last, gone);
    }
  }

  lemma {:induction false} TasksOfAll(queue: seq<QueuedWork>, gone: set<Ticket>)
    requires forall q | q in queue :: q.ticket in gone
    ensures |TasksOf(queue, gone)| == |queue| && forall i | 0 <= i < |queue| :: TasksOf(queue, gone)[i] == queue[i].task
  {
    if queue != [] {
      TasksOfAll(queue[1..], gone);
    }
  }

  /** Tickets are distinct, so an entry is cancelled with its owner's exactly when it is its owner's. */
  lemma OwnersDecide(queue: seq<QueuedWork>, n: nat, owner: SessionId)
    requires Distinct(queue) && n < |queue|
    ensures queue[n].ticket in OwnedBy(queue, owner) <==> queue[n].owner == owner
    ensures OwnedBy(queue[..n + 1], owner) ==
            OwnedBy(queue[..n], owner) + if queue[n].owner == owner then {queue[n].ticket} else {}
  {
    assert queue[..n + 1] == queue[..n] + [queue[n]];
    assert queue[n] in queue;
    forall q | q in queue && q.ticket == queue[n].ticket ensures q == queue[n] {
      var i :| 0 <= i < |queue| && queue[i] == q;
      assert i == n;
    }
  }

  lemma {:induction false} KeepDistinct(queue: seq<QueuedWork>, gone: set<Ticket>)
    requires Distinct(queue)
    ensures Distinct(Keep(queue, gone))
    ensures forall q | q in Keep(queue, gone) :: q in queue && q.ticket !in gone
  {
    if queue != [] {
      KeepDistinct(queue[1..], gone);
      var rest := Keep(queue[1..], gone);
      forall i | 0 <= i < |rest| ensures rest[i].ticket != queue[0].ticket {
        assert rest[i] in queue[1..];
        var k :| 1 <= k < |queue| && queue[k] == rest[i];
      }
    }
  }

  lemma {:induction false} KeepsOthers(queue: seq<QueuedWork>, gone: set<Ticket>, q: QueuedWork)
    requires q in queue && q.ticket !in gone
    ensures q in Keep(queue, gone)
  {
    if queue[0] != q {
      KeepsOthers(queue[1..], gone, q);
    }
  }

  /** Taking out the work of one session leaves exactly the work of the others. */
  lemma OthersStay(queue: seq<QueuedWork>, owner: SessionId)
    requires Distinct(queue)
    ensures var kept := Keep(queue, OwnedBy(queue, owner));
            Distinct(kept) && forall q :: q in kept <==> q in queue && q.owner != owner
  {
    var gone := OwnedBy(queue, owner);
    KeepDistinct(queue, gone);
    forall q | q in queue ensures q.ticket in gone <==> q.owner == owner {
      var n :| 0 <= n < |queue| && queue[n] == q;
      OwnersDecide(queue, n, owner);
    }
    forall q | q in queue && q.owner != owner ensures q in Keep(queue, gone) {
      KeepsOthers(queue, gone, q);
    }
  }
}
