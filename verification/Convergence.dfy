/**
 Desired, observed and effective state of the control plane, and the plan that closes the gap
 (src-tauri/src/control_plane/convergence.rs).
 */
module Convergence {
  import opened Options
  import opened Integers

  type Path = string

  datatype PermissionMode = Edit | Full | Elevated
  datatype ServiceIntent = Disabled | Enabled
  datatype DesiredWorkspace = DesiredWorkspace(id: Option<string>, executionPath: Path)
  datatype ConnectionProfile = ConnectionProfile(tunnelId: string, credentialEpoch: nat)
  datatype DesiredState = DesiredState(
    permission: PermissionMode, workspace: Option<DesiredWorkspace>, services: ServiceIntent, connection: Option<ConnectionProfile>)

  datatype RuntimeComponent = CodingRuntime | PolicyEnforcement | Tunnel
  type RuntimeFault = string
  type PrivilegeFault = string

  datatype RuntimeState =
    | Stopped
    | StartingMcp
    | WaitingMcpReady
    | StartingPolicyEnforcement
    | WaitingPolicyReady
    | StartingTunnel
    | WaitingTunnelReady
    | Ready
    | Recovering(component: RuntimeComponent, attempt: nat)
    | SwitchingWorkspace(from: Path, candidate: Path)
    | RuntimeFaulted(fault: RuntimeFault)

  datatype PrivilegeState =
    | BrokerDisabled
    | Requested
    | AwaitingUac
    | BrokerActive(generation: nat)
    | BrokerFaulted(fault: PrivilegeFault)

  datatype Versioned = Versioned(revision: nat, state: DesiredState)

  const DEFAULT_DESIRED := DesiredState(Edit, None, Disabled, None)

  // -------------------------------------------------------------------------
  // The owner of desired state
  // -------------------------------------------------------------------------

  datatype Change =
    | Replace(state: DesiredState)
    | SetPermission(permission: PermissionMode)
    | SetWorkspace(workspace: Option<DesiredWorkspace>)
    | SetServices(services: ServiceIntent)
    | SetConnection(connection: Option<ConnectionProfile>)
    | MarkCredentialsChanged

  function Changed(s: DesiredState, c: Change): DesiredState {
    match c
    case Replace(state) => state
    case SetPermission(p) => s.(permission := p)
    case SetWorkspace(w) => s.(workspace := w)
    case SetServices(i) => s.(services := i)
    case SetConnection(profile) => s.(connection := profile)
    case MarkCredentialsChanged =>
      match s.connection
      case Some(p) => s.(connection := Some(p.(credentialEpoch := SaturatingAdd(p.credentialEpoch, 1))))
      case None => s
  }

  function Mutated(v: Versioned, c: Change): Versioned {
    var after := Changed(v.state, c);
    Versioned(if after != v.state then SaturatingAdd(v.revision, 1) else v.revision, after)
  }

  class DesiredStateOwner {
    var revision: nat
    var state: DesiredState

    function Current(): Versioned
      reads this
    {
      Versioned(revision, state)
    }

    constructor ()
      ensures Current() == Versioned(1, DEFAULT_DESIRED)
    {
      revision, state := 1, DEFAULT_DESIRED;
    }

    method Mutate(c: Change) returns (r: nat)
      modifies this
      ensures Current() == Mutated(old(Current()), c) && r == revision
      ensures c.Replace? ==> state == c.state
      ensures c.SetPermission? ==> state == old(state).(permission := c.permission)
      ensures c.SetWorkspace? ==> state == old(state).(workspace := c.workspace)
      ensures c.SetServices? ==> state == old(state).(services := c.services)
      ensures c.SetConnection? ==> state == old(state).(connection := c.connection)
      ensures c.MarkCredentialsChanged? ==>
                match old(state).connection
                case None => state == old(state)
                case Some(p) => state == old(state).(connection := Some(p.(credentialEpoch := SaturatingAdd(p.credentialEpoch, 1))))
      ensures revision == if state == old(state) then old(revision) else SaturatingAdd(old(revision), 1)
    {
      var before := state;
      match c {
        case Replace(new') => state := new';
        case SetPermission(p) => state := state.(permission := p);
        case SetWorkspace(w) => state := state.(workspace := w);
        case SetServices(i) => state := state.(services := i);
        case SetConnection(profile) => state := state.(connection := profile);
        case MarkCredentialsChanged =>
          if state.connection.Some? {
            var p := state.connection.value;
            state := state.(connection := Some(p.(credentialEpoch := SaturatingAdd(p.credentialEpoch, 1))));
          }
      }
      if state != before {
        revision := SaturatingAdd(revision, 1);
      }
      r := revision;
    }
  }

  function RunChanges(changes: seq<Change>): Versioned {
    if changes == [] then Versioned(1, DEFAULT_DESIRED)
    else Mutated(RunChanges(changes[..|changes| - 1]), changes[|changes| - 1])
  }

  /** Later states have later revisions, or are equal. */
  lemma {:induction false} RevisionsGrow(changes: seq<Change>, i: nat)
    requires i <= |changes|
    ensures RunChanges(changes[..i]).revision <= RunChanges(changes).revision
    ensures RunChanges(changes).revision <= MAX_U64
    ensures RunChanges(changes).revision < MAX_U64 && RunChanges(changes[..i]).revision == RunChanges(changes).revision
            ==> RunChanges(changes[..i]) == RunChanges(changes)
  {
    if i == |changes| {
      assert changes[..i] == changes;
      if changes != [] {
        RevisionsGrow(changes[..|changes| - 1], |changes| - 1);
      }
    } else {
      var init := changes[..|changes| - 1];
      RevisionsGrow(init, i);
      assert init[..i] == changes[..i];
    }
  }

  /** Over every run, two moments with one revision below saturation have the same desired state. */
  lemma RevisionIdentifiesDesired(changes: seq<Change>, i: nat, j: nat)
    requires i <= j <= |changes|
    requires RunChanges(changes[..i]).revision == RunChanges(changes[..j]).revision < MAX_U64
    ensures RunChanges(changes[..i]) == RunChanges(changes[..j])
  {
    RevisionsGrow(changes[..j], i);
    assert changes[..j][..i] == changes[..i];
  }

  /** Every revision is reached, the largest too. */
  lemma {:induction false} RevisionReached(n: nat) returns (changes: seq<Change>)
    requires 1 <= n <= MAX_U64
    ensures RunChanges(changes).revision == n
  {
    if n == 1 {
      changes := [];
    } else {
      var init := RevisionReached(n - 1);
      var other := if RunChanges(init).state.services == Enabled then Disabled else Enabled;
      changes := init + [SetServices(other)];
      assert changes[..|changes| - 1] == init;
    }
  }

  /** At saturation the revision stands still while the state changes. */
  lemma SaturatedRevisionRepeats(s: DesiredState, t: DesiredState)
    requires s != t
    ensures Mutated(Versioned(MAX_U64, s), Replace(t)) == Versioned(MAX_U64, t)
  {
  }

  // -------------------------------------------------------------------------
  // Effective state
  // -------------------------------------------------------------------------

  datatype ObservedState = ObservedState(
    broker: PrivilegeState, runtime: RuntimeState, workspace: Option<Path>, connection: Option<ConnectionProfile>)

  datatype Reconciliation = Converged | AuthorizationRequired | AwaitingAuthorization | BrokerUnavailable | DisablePending
  datatype StructuredPaths = ActiveWorkspace | AdministratorBroker
  datatype EffectiveAuthority = EffectiveAuthority(
    configured: PermissionMode, execution: PermissionMode, structuredPaths: StructuredPaths, reconciliation: Reconciliation)

  datatype UnavailableReason = NotConfigured | RuntimeNotReady | DesiredObservedDiverged
  datatype Effective<T> = Available(value: T) | Unavailable(reason: UnavailableReason)
  datatype ServiceState = ServicesDisabled | Reconciling | ServicesAvailable | ServicesUnavailable

  datatype EffectiveState = EffectiveState(
    authority: EffectiveAuthority, workspace: Effective<DesiredWorkspace>, services: ServiceState, connection: Effective<ConnectionProfile>)

  function DeriveAuthority(configured: PermissionMode, broker: PrivilegeState): EffectiveAuthority {
    if configured != Elevated then
      EffectiveAuthority(configured, configured, ActiveWorkspace, if broker.BrokerDisabled? then Converged else DisablePending)
    else match broker
      case BrokerActive(_) => EffectiveAuthority(configured, Elevated, AdministratorBroker, Converged)
      case BrokerDisabled => EffectiveAuthority(configured, Full, ActiveWorkspace, AuthorizationRequired)
      case Requested => EffectiveAuthority(configured, Full, ActiveWorkspace, AwaitingAuthorization)
      case AwaitingUac => EffectiveAuthority(configured, Full, ActiveWorkspace, AwaitingAuthorization)
      case BrokerFaulted(_) => EffectiveAuthority(configured, Full, ActiveWorkspace, BrokerUnavailable)
  }

  function DeriveWorkspace(desired: Option<DesiredWorkspace>, runtime: RuntimeState, observed: Option<Path>): Effective<DesiredWorkspace> {
    if desired.None? then Unavailable(NotConfigured)
    else if !runtime.Ready? then Unavailable(RuntimeNotReady)
    else if observed != Some(desired.value.executionPath) then Unavailable(DesiredObservedDiverged)
    else Available(desired.value)
  }

  function DeriveServices(intent: ServiceIntent, runtime: RuntimeState): ServiceState {
    if intent == Disabled then ServicesDisabled
    else match runtime
      case Ready => ServicesAvailable
      case RuntimeFaulted(_) => ServicesUnavailable
      case _ => Reconciling
  }

  function DeriveConnection(desired: Option<ConnectionProfile>, runtime: RuntimeState, observed: Option<ConnectionProfile>): Effective<ConnectionProfile> {
    if desired.None? then Unavailable(NotConfigured)
    else if !runtime.Ready? then Unavailable(RuntimeNotReady)
    else if observed != desired then Unavailable(DesiredObservedDiverged)
    else Available(desired.value)
  }

  function Derive(d: DesiredState, o: ObservedState): EffectiveState {
    EffectiveState(
      DeriveAuthority(d.permission, o.broker),
      DeriveWorkspace(d.workspace, o.runtime, o.workspace),
      DeriveServices(d.services, o.runtime),
      DeriveConnection(d.connection, o.runtime, o.connection))
  }

  predicate WorkIsAuthorized(e: EffectiveState) {
    && e.workspace.Available?
    && e.services == ServicesAvailable
    && !(e.connection.Unavailable? && (e.connection.reason == RuntimeNotReady || e.connection.reason == DesiredObservedDiverged))
  }

  // -------------------------------------------------------------------------
  // The plan
  // -------------------------------------------------------------------------

  datatype PermissionAction = NoPermissionAction | RequestAuthorization | DisableBroker
  datatype RuntimeAction = NoAction | StartRuntime | StopRuntime | ApplyWorkspace(path: Path) | RestartConnection | WaitForObservation

  function PlanPermission(d: DesiredState, o: ObservedState): PermissionAction {
    if d.permission == Elevated then
      if o.broker.BrokerDisabled? || o.broker.Requested? || o.broker.BrokerFaulted? then RequestAuthorization else NoPermissionAction
    else if o.broker.BrokerDisabled? then NoPermissionAction
    else DisableBroker
  }

  function PlanRuntime(d: DesiredState, o: ObservedState): RuntimeAction {
    var e := Derive(d, o);
    if d.services == Disabled then (if o.runtime != Stopped then StopRuntime else NoAction)
    else match o.runtime
      case Stopped => StartRuntime
      case RuntimeFaulted(_) => StartRuntime
      case Ready =>
        (match e.workspace
         case Unavailable(reason) =>
           if reason == DesiredObservedDiverged && d.workspace.Some? then ApplyWorkspace(d.workspace.value.executionPath)
           else WaitForObservation
         case Available(_) =>
           if e.connection == Unavailable(DesiredObservedDiverged) then RestartConnection else NoAction)
      case _ => WaitForObservation
  }

  // -------------------------------------------------------------------------
  // Main results
  // -------------------------------------------------------------------------

  /** The runtime is up where the desired state wants it. */
  predicate Agrees(d: DesiredState, o: ObservedState) {
    && o.runtime.Ready?
    && d.workspace.Some? && o.workspace == Some(d.workspace.value.executionPath)
    && (d.connection.Some? ==> o.connection == d.connection)
  }

  /** Work is authorized exactly when services are wanted and the runtime agrees with the desired state. */
  lemma AuthorizedExactlyWhen(d: DesiredState, o: ObservedState)
    ensures WorkIsAuthorized(Derive(d, o)) <==> d.services == Enabled && Agrees(d, o)
  {
  }

  /** The plan is empty exactly when work is authorized, or when services are unwanted and stopped. */
  lemma PlanIsEmptyExactlyWhen(d: DesiredState, o: ObservedState)
    ensures d.services == Enabled ==> (PlanRuntime(d, o) == NoAction <==> WorkIsAuthorized(Derive(d, o)))
    ensures d.services == Disabled ==> (PlanRuntime(d, o) == NoAction <==> o.runtime == Stopped) && !WorkIsAuthorized(Derive(d, o))
  {
  }

  predicate Transient(r: RuntimeState) {
    !r.Stopped? && !r.Ready? && !r.RuntimeFaulted?
  }

  /** The intended effect of an action: what it is to change, and that it changes nothing else it controls. */
  predicate Takes(d: DesiredState, a: RuntimeAction, before: ObservedState, after: ObservedState) {
    match a
    case NoAction => after == before
    case WaitForObservation => false
    case StopRuntime => after.runtime == Stopped
    case ApplyWorkspace(path) =>
      after.runtime == before.runtime && after.workspace == Some(path) && after.connection == before.connection
    case _ => // a start or restart with a configuration made from the desired state
      && after.runtime == Ready
      && (d.workspace.Some? ==> after.workspace == Some(d.workspace.value.executionPath))
      && (d.connection.Some? ==> after.connection == d.connection)
  }

  /** How many parts of the observation disagree with the desired state. */
  function Disagreements(d: DesiredState, o: ObservedState): nat {
    (if o.runtime.Ready? then 0 else 1)
    + (if d.workspace.Some? && o.workspace != Some(d.workspace.value.executionPath) then 1 else 0)
    + (if d.connection.Some? && o.connection != d.connection then 1 else 0)
  }

  lemma ActionsReduceDisagreement(d: DesiredState, o: ObservedState, after: ObservedState)
    requires d.services == Enabled && d.workspace.Some? && !Transient(o.runtime)
    requires Takes(d, PlanRuntime(d, o), o, after) && PlanRuntime(d, o) != NoAction
    ensures !Transient(after.runtime) && Disagreements(d, after) < Disagreements(d, o)
    ensures Disagreements(d, after) <= 1
  {
  }

  lemma AgreementIsAuthority(d: DesiredState, o: ObservedState)
    requires d.services == Enabled && d.workspace.Some? && !Transient(o.runtime)
    ensures PlanRuntime(d, o) != WaitForObservation
    ensures Disagreements(d, o) == 0 <==> PlanRuntime(d, o) == NoAction
    ensures Disagreements(d, o) == 0 <==> WorkIsAuthorized(Derive(d, o))
  {
  }

  /** Observations that follow one another by carrying out the plan, until it is empty. */
  ghost predicate Follows(d: DesiredState, obs: seq<ObservedState>) {
    forall i | 0 <= i < |obs| - 1 ::
      PlanRuntime(d, obs[i]) != NoAction && Takes(d, PlanRuntime(d, obs[i]), obs[i], obs[i + 1])
  }

  lemma {:induction false} FollowingDecreases(d: DesiredState, obs: seq<ObservedState>)
    requires d.services == Enabled && d.workspace.Some? && obs != [] && !Transient(obs[0].runtime) && Follows(d, obs)
    ensures !Transient(obs[|obs| - 1].runtime)
    ensures |obs| > 1 ==> Disagreements(d, obs[|obs| - 1]) + |obs| - 2 <= 1
  {
    if |obs| > 1 {
      var init := obs[..|obs| - 1];
      assert forall i | 0 <= i < |init| :: init[i] == obs[i];
      FollowingDecreases(d, init);
      assert Takes(d, PlanRuntime(d, obs[|obs| - 2]), obs[|obs| - 2], obs[|obs| - 2 + 1]);
      ActionsReduceDisagreement(d, obs[|obs| - 2], obs[|obs| - 1]);
    }
  }

  /**
   With services wanted and a workspace set, carrying out the plan from any settled observation takes at
   most two actions, never waits, and ends with nothing to do exactly when work is authorized.
   */
  lemma ConvergesInTwoActions(d: DesiredState, obs: seq<ObservedState>)
    requires d.services == Enabled && d.workspace.Some? && obs != [] && !Transient(obs[0].runtime) && Follows(d, obs)
    ensures |obs| <= 3
    ensures PlanRuntime(d, obs[|obs| - 1]) != WaitForObservation
    ensures |obs| == 3 ==> PlanRuntime(d, obs[|obs| - 1]) == NoAction
    ensures PlanRuntime(d, obs[|obs| - 1]) == NoAction <==> WorkIsAuthorized(Derive(d, obs[|obs| - 1]))
  {
    FollowingDecreases(d, obs);
    AgreementIsAuthority(d, obs[|obs| - 1]);
  }

  /** One way the planned action can take its effect. */
  function Carried(d: DesiredState, o: ObservedState): ObservedState {
    match PlanRuntime(d, o)
    case NoAction => o
    case WaitForObservation => o
    case StopRuntime => o.(runtime := Stopped)
    case ApplyWorkspace(path) => o.(workspace := Some(path))
    case _ =>
      o.(runtime := Ready, connection := d.connection,
         workspace := if d.workspace.Some? then Some(d.workspace.value.executionPath) else o.workspace)
  }

  /** So every settled observation does reach authorized work. */
  lemma ReachesAuthorizedWork(d: DesiredState, o: ObservedState)
    requires d.services == Enabled && d.workspace.Some? && !Transient(o.runtime)
    ensures Takes(d, PlanRuntime(d, o), o, Carried(d, o))
    ensures WorkIsAuthorized(Derive(d, Carried(d, Carried(d, o))))
  {
    var one, two := Carried(d, o), Carried(d, Carried(d, o));
    if PlanRuntime(d, o) != NoAction && PlanRuntime(d, one) != NoAction {
      ActionsReduceDisagreement(d, o, one);
      ActionsReduceDisagreement(d, one, two);
      AgreementIsAuthority(d, two);
    } else {
      AgreementIsAuthority(d, two);
    }
  }

  /** Two actions are needed when both the workspace and the connection have moved. */
  lemma TwoActionsAreNeeded(d: DesiredState, o: ObservedState, after: ObservedState)
    requires d.services == Enabled && d.workspace.Some? && d.connection.Some? && o.runtime.Ready?
    requires o.workspace != Some(d.workspace.value.executionPath) && o.connection != d.connection
    requires Takes(d, PlanRuntime(d, o), o, after)
    ensures PlanRuntime(d, o) == ApplyWorkspace(d.workspace.value.executionPath) && PlanRuntime(d, after) == RestartConnection
  {
  }

  /** Without a workspace the plan can never authorize work: it starts the runtime and then only waits. */
  lemma NoWorkspaceOnlyWaits(d: DesiredState, o: ObservedState)
    requires d.services == Enabled && d.workspace.None?
    ensures !WorkIsAuthorized(Derive(d, o)) && PlanRuntime(d, o) != NoAction
    ensures o.runtime.Ready? ==> PlanRuntime(d, o) == WaitForObservation
  {
  }

  function Rank(p: PermissionMode): nat {
    match p case Edit => 0 case Full => 1 case Elevated => 2
  }

  /**
   Execution never exceeds the configured mode; administrator paths need an active broker that is wanted;
   and there is nothing to do exactly when authority has converged or the user is being asked.
   */
  lemma AuthorityIsBounded(d: DesiredState, o: ObservedState)
    ensures var a := DeriveAuthority(d.permission, o.broker);
            && Rank(a.execution) <= Rank(d.permission)
            && (a.structuredPaths == AdministratorBroker <==> d.permission == Elevated && o.broker.BrokerActive?)
            && (a.execution == Elevated <==> a.structuredPaths == AdministratorBroker)
            && (PlanPermission(d, o) == NoPermissionAction <==>
                  a.reconciliation == Converged || (d.permission == Elevated && o.broker.AwaitingUac?))
  {
  }
}
