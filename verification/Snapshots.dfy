/**
 The published control-plane snapshot: its sections, its owner and its authorization gate
 (src-tauri/src/control_plane/snapshot.rs and the publishing code in src-tauri/src/app/background.rs).
 */
module Snapshots {
  import opened Options
  import opened Integers
  import opened Convergence

  datatype Availability = SectionReady | TemporarilyUnavailable | SectionFault

  datatype Section<T> = Section(availability: Availability, stale: bool, value: Option<T>)

  function ReadySection<T>(value: T): Section<T> {
    Section(SectionReady, false, Some(value))
  }

  function FaultedSection<T>(previous: Option<T>): Section<T> {
    Section(SectionFault, previous.Some?, previous)
  }

  function StaleSection<T>(previous: Option<T>): Section<T> {
    Section(TemporarilyUnavailable, true, previous)
  }

  // Parts that no rule looks into are kept as text.
  type Detail = string

  datatype RuntimeProjection = RuntimeProjection(active: bool, state: RuntimeState, localEnvironment: Option<bool>, detail: Detail)
  datatype AuthorityProjection = AuthorityProjection(
    desired: PermissionMode, effective: PermissionMode, broker: PrivilegeState, structuredPaths: StructuredPaths, reconciliation: Reconciliation)
  datatype EffectiveAvailability = IsAvailable | IsUnavailable
  datatype WorkspaceProjection = WorkspaceProjection(
    desiredId: Option<string>, desiredPath: Option<Path>, observedPath: Option<Path>, effective: EffectiveAvailability)
  datatype ConnectionProjection = ConnectionProjection(
    desiredTunnelId: Option<string>, desiredEpoch: Option<nat>, observedTunnelId: Option<string>, observedEpoch: Option<nat>,
    effective: EffectiveAvailability)
  datatype TaskAggregate = TaskAggregate(tasks: Detail, scheduler: Detail)

  datatype FaultSource = FromRuntime | FromAuthority | FromSettings
  datatype OperationError = OperationError(code: string, category: string, message: string, retryable: bool)
  datatype PersistentFault = PersistentFault(id: string, source: FaultSource, error: OperationError, firstSeen: nat, lastSeen: nat)

  datatype Draft = Draft(
    runtime: Section<RuntimeProjection>, authority: Section<AuthorityProjection>, scheduler: Section<Detail>,
    workspace: Section<WorkspaceProjection>, connection: Section<ConnectionProjection>, settings: Section<Detail>,
    activity: Section<TaskAggregate>, update: Section<Detail>, faults: seq<PersistentFault>)

  datatype Snapshot = Snapshot(revision: nat, capturedAt: nat, contents: Draft)

  function NoValue<T>(): Section<T> {
    Section(TemporarilyUnavailable, false, None)
  }

  const EMPTY_DRAFT := Draft(NoValue(), NoValue(), NoValue(), NoValue(), NoValue(), NoValue(), NoValue(), NoValue(), [])

  predicate SectionUsable<T>(s: Section<T>) {
    s.availability == SectionReady && !s.stale && s.value.Some?
  }

  /** The gate that readers of the snapshot use. */
  predicate SnapshotAuthorizes(c: Draft) {
    && SectionUsable(c.runtime) && c.runtime.value.value.state == Ready
    && SectionUsable(c.workspace) && c.workspace.value.value.effective == IsAvailable
    && SectionUsable(c.connection)
    && (c.connection.value.value.desiredTunnelId.None? || c.connection.value.value.effective == IsAvailable)
  }

  // -------------------------------------------------------------------------
  // Drafts
  // -------------------------------------------------------------------------

  function PreviousFault(faults: seq<PersistentFault>, id: string): Option<PersistentFault> {
    if faults == [] then None else if faults[0].id == id then Some(faults[0]) else PreviousFault(faults[1..], id)
  }

  function MakeFault(previous: Option<PersistentFault>, id: string, source: FaultSource, error: OperationError, now: nat): PersistentFault {
    PersistentFault(id, source, error, if previous.Some? then previous.value.firstSeen else now, now)
  }

  /** The faults of settings, or those of anything else. */
  function FaultsOf(faults: seq<PersistentFault>, settings: bool): seq<PersistentFault> {
    if faults == [] then []
    else (if (faults[0].source == FromSettings) == settings then [faults[0]] else []) + FaultsOf(faults[1..], settings)
  }

  function Availably<T>(e: Effective<T>): EffectiveAvailability {
    if e.Available? then IsAvailable else IsUnavailable
  }

  function MapOption<T, U>(o: Option<T>, f: T -> U): Option<U> {
    match o case None => None case Some(v) => Some(f(v))
  }

  /** What the desktop runtime reports. */
  datatype RuntimeView = RuntimeView(
    active: bool, state: RuntimeState, workspace: Option<Path>, connection: Option<ConnectionProfile>, detail: Detail)

  datatype Observation = Observation(desired: DesiredState, broker: PrivilegeState, runtime: RuntimeView, activity: Option<TaskAggregate>)

  function Observed(o: Observation): ObservedState {
    ObservedState(o.broker, o.runtime.state, o.runtime.workspace, o.runtime.connection)
  }

  function RuntimeError(fault: RuntimeFault): OperationError {
    OperationError("Runtime." + fault, "Unavailable", "Runtime is unavailable", true)
  }

  function AuthorityError(fault: PrivilegeFault): OperationError {
    OperationError("Authority." + fault, "Authorization", "Privilege broker is unavailable", true)
  }

  function ObservationFaults(previous: Draft, o: Observation, now: nat): seq<PersistentFault> {
    FaultsOf(previous.faults, true)
    + (match o.runtime.state
       case RuntimeFaulted(f) => [MakeFault(PreviousFault(previous.faults, "runtime"), "runtime", FromRuntime, RuntimeError(f), now)]
       case _ => [])
    + (match o.broker
       case BrokerFaulted(f) => [MakeFault(PreviousFault(previous.faults, "authority"), "authority", FromAuthority, AuthorityError(f), now)]
       case _ => [])
  }

  function ObservationDraft(previous: Draft, o: Observation, now: nat): Draft {
    var e := Derive(o.desired, Observed(o));
    previous.(
      runtime := ReadySection(RuntimeProjection(
        o.runtime.active, o.runtime.state,
        match previous.runtime.value case Some(r) => r.localEnvironment case None => None,
        o.runtime.detail)),
      authority := ReadySection(AuthorityProjection(
        e.authority.configured, e.authority.execution, o.broker, e.authority.structuredPaths, e.authority.reconciliation)),
      workspace := ReadySection(WorkspaceProjection(
        match o.desired.workspace case Some(w) => w.id case None => None,
        MapOption(o.desired.workspace, (w: DesiredWorkspace) => w.executionPath),
        o.runtime.workspace, Availably(e.workspace))),
      connection := ReadySection(ConnectionProjection(
        MapOption(o.desired.connection, (p: ConnectionProfile) => p.tunnelId),
        MapOption(o.desired.connection, (p: ConnectionProfile) => p.credentialEpoch),
        MapOption(o.runtime.connection, (p: ConnectionProfile) => p.tunnelId),
        MapOption(o.runtime.connection, (p: ConnectionProfile) => p.credentialEpoch),
        Availably(e.connection))),
      scheduler := match o.activity case Some(a) => ReadySection(a.scheduler) case None => StaleSection(previous.scheduler.value),
      activity := match o.activity case Some(a) => ReadySection(a) case None => StaleSection(previous.activity.value),
      faults := ObservationFaults(previous, o, now))
  }

  function SettingsDraft(previous: Draft, settings: Detail, error: Option<OperationError>, now: nat): Draft {
    match error
    case Some(e) =>
      previous.(
        settings := FaultedSection(Some(settings)),
        faults := FaultsOf(previous.faults, false)
                  + [MakeFault(PreviousFault(previous.faults, "settings"), "settings", FromSettings, e, now)])
    case None => previous.(settings := ReadySection(settings), faults := FaultsOf(previous.faults, false))
  }

  const DEFAULT_SETTINGS: Detail := ""

  function SettingsFaultDraft(previous: Draft, error: OperationError, now: nat): Draft {
    var settings := match previous.settings.value case Some(s) => s case None => DEFAULT_SETTINGS;
    SettingsDraft(previous, settings, Some(error), now)
  }

  function LocalEnvironmentDraft(previous: Draft, available: bool): Draft {
    previous.(runtime := Section(
      previous.runtime.availability, previous.runtime.stale,
      MapOption(previous.runtime.value, (r: RuntimeProjection) => r.(localEnvironment := Some(available)))))
  }

  function ActivityStaleDraft(previous: Draft): Draft {
    previous.(scheduler := StaleSection(previous.scheduler.value), activity := StaleSection(previous.activity.value))
  }

  function ObservationStaleDraft(previous: Draft): Draft {
    previous.(
      runtime := StaleSection(previous.runtime.value), authority := StaleSection(previous.authority.value),
      scheduler := StaleSection(previous.scheduler.value), workspace := StaleSection(previous.workspace.value),
      connection := StaleSection(previous.connection.value), activity := StaleSection(previous.activity.value))
  }

  // -------------------------------------------------------------------------
  // The owner
  // -------------------------------------------------------------------------

  datatype Event =
    | Observe(observation: Observation)
    | PublishSettings(settings: Detail, error: Option<OperationError>)
    | PublishSettingsFault(fault: OperationError)
    | PublishUpdate(update: Section<Detail>)
    | PublishLocalEnvironment(available: bool)
    | MarkActivityStale
    | MarkObservationStale

  /** What an update makes of the sections, at some time. */
  function DraftOf(previous: Draft, e: Event, now: nat): Draft {
    match e
    case Observe(o) => ObservationDraft(previous, o, now)
    case PublishSettings(settings, error) => SettingsDraft(previous, settings, error, now)
    case PublishSettingsFault(error) => SettingsFaultDraft(previous, error, now)
    case PublishUpdate(update) => previous.(update := update)
    case PublishLocalEnvironment(available) => LocalEnvironmentDraft(previous, available)
    case MarkActivityStale => ActivityStaleDraft(previous)
    case MarkObservationStale => ObservationStaleDraft(previous)
  }

  function Published(s: Snapshot, draft: Draft, now: nat): Snapshot {
    if s.contents == draft then s else Snapshot(SaturatingAdd(s.revision, 1), now, draft)
  }

  class ControlPlaneSnapshotOwner {
    var current: Snapshot

    constructor (now: nat)
      ensures current == Snapshot(0, now, EMPTY_DRAFT)
    {
      current := Snapshot(0, now, EMPTY_DRAFT);
    }

    /** Runs with the lock held, from reading the previous snapshot to replacing it. */
    method Update(e: Event, now: nat) returns (r: Snapshot)
      modifies this
      ensures current == Published(old(current), DraftOf(old(current).contents, e, now), now) && r == current
      ensures current.contents == DraftOf(old(current).contents, e, now)
      ensures current.contents == old(current).contents ==> current == old(current)
      ensures current.contents != old(current).contents ==>
                current.revision == SaturatingAdd(old(current).revision, 1) && current.capturedAt == now
    {
      var draft := DraftOf(current.contents, e, now);
      r := PublishLocked(draft, now);
    }

    method PublishLocked(draft: Draft, now: nat) returns (r: Snapshot)
      modifies this
      ensures current == Published(old(current), draft, now) && r == current
    {
      if current.contents == draft {
        return current;
      }
      current := Snapshot(SaturatingAdd(current.revision, 1), now, draft);
      r := current;
    }

    method Initialize(draft: Draft, now: nat) returns (r: Option<Snapshot>)
      modifies this
      ensures old(current).revision != 0 ==> current == old(current) && r.None?
      ensures old(current).revision == 0 ==> current == Published(old(current), draft, now) && r == Some(current)
    {
      if current.revision != 0 {
        return None;
      }
      var published := PublishLocked(draft, now);
      r := Some(published);
    }
  }
}
