/**
 The plan and the effective state case by case, told from the desired state and the observation, and what a
 run of setters leaves (src-tauri/src/control_plane/convergence.rs).
 */
module ConvergencePlans {
  import opened Options
  import opened Integers
  import opened Convergence

  // -------------------------------------------------------------------------
  // The plan
  // -------------------------------------------------------------------------

  predicate WorkspaceMoved(d: DesiredState, o: ObservedState) {
    d.workspace.Some? && o.workspace != Some(d.workspace.value.executionPath)
  }

  predicate ConnectionMoved(d: DesiredState, o: ObservedState) {
    d.connection.Some? && o.connection != d.connection
  }

  /** Each runtime action is planned in exactly one situation. */
  lemma RuntimePlanIsExact(d: DesiredState, o: ObservedState)
    ensures PlanRuntime(d, o).StopRuntime? <==> d.services == Disabled && o.runtime != Stopped
    ensures PlanRuntime(d, o).StartRuntime? <==> d.services == Enabled && (o.runtime == Stopped || o.runtime.RuntimeFaulted?)
    ensures PlanRuntime(d, o).ApplyWorkspace? <==> d.services == Enabled && o.runtime == Ready && WorkspaceMoved(d, o)
    ensures PlanRuntime(d, o).ApplyWorkspace? ==> PlanRuntime(d, o).path == d.workspace.value.executionPath
    ensures PlanRuntime(d, o).RestartConnection? <==>
              d.services == Enabled && o.runtime == Ready && d.workspace.Some? && !WorkspaceMoved(d, o) && ConnectionMoved(d, o)
    ensures PlanRuntime(d, o).WaitForObservation? <==>
              d.services == Enabled && (Transient(o.runtime) || (o.runtime == Ready && d.workspace.None?))
  {
  }

  /** With services unwanted the plan stops the runtime from any state, transient ones too, and then is empty. */
  lemma StopsInOneAction(d: DesiredState, o: ObservedState, after: ObservedState)
    requires d.services == Disabled && Takes(d, PlanRuntime(d, o), o, after)
    ensures after.runtime == Stopped && PlanRuntime(d, after) == NoAction
    ensures o.runtime == Stopped ==> after == o
  {
  }

  predicate BrokerUp(b: PrivilegeState) {
    b.AwaitingUac? || b.BrokerActive?
  }

  /** The user is asked for a broker that is wanted and neither up nor asked for, and one that is unwanted is disabled. */
  lemma PermissionPlanIsExact(d: DesiredState, o: ObservedState)
    ensures PlanPermission(d, o) == RequestAuthorization <==> d.permission == Elevated && !BrokerUp(o.broker)
    ensures PlanPermission(d, o) == DisableBroker <==> d.permission != Elevated && o.broker != BrokerDisabled
  {
  }

  // -------------------------------------------------------------------------
  // Effective state
  // -------------------------------------------------------------------------

  /** What is configured and what is in force. */
  lemma AuthorityIsExact(d: DesiredState, o: ObservedState)
    ensures var a := Derive(d, o).authority; var wanted, active := d.permission == Elevated, o.broker.BrokerActive?;
            && a.configured == d.permission
            && (a.execution == if wanted && !active then Full else d.permission)
            && (a.reconciliation == Converged <==> if wanted then active else o.broker == BrokerDisabled)
            && (a.reconciliation == DisablePending <==> !wanted && o.broker != BrokerDisabled)
            && (a.reconciliation == AuthorizationRequired <==> wanted && o.broker == BrokerDisabled)
            && (a.reconciliation == AwaitingAuthorization <==> wanted && (o.broker == Requested || o.broker == AwaitingUac))
            && (a.reconciliation == BrokerUnavailable <==> wanted && o.broker.BrokerFaulted?)
  {
  }

  /** A wanted workspace or connection is in force exactly when the runtime is ready and has it; otherwise why not. */
  lemma PartsAreExact(d: DesiredState, o: ObservedState)
    ensures var e := Derive(d, o);
            && (e.workspace ==
                  if d.workspace.None? then Unavailable(NotConfigured)
                  else if o.runtime != Ready then Unavailable(RuntimeNotReady)
                  else if WorkspaceMoved(d, o) then Unavailable(DesiredObservedDiverged)
                  else Available(d.workspace.value))
            && (e.connection ==
                  if d.connection.None? then Unavailable(NotConfigured)
                  else if o.runtime != Ready then Unavailable(RuntimeNotReady)
                  else if ConnectionMoved(d, o) then Unavailable(DesiredObservedDiverged)
                  else Available(d.connection.value))
            && (e.services == ServicesDisabled <==> d.services == Disabled)
            && (e.services == ServicesAvailable <==> d.services == Enabled && o.runtime == Ready)
            && (e.services == ServicesUnavailable <==> d.services == Enabled && o.runtime.RuntimeFaulted?)
  {
  }

  // -------------------------------------------------------------------------
  // Setters
  // -------------------------------------------------------------------------

  datatype Field = Permission | Workspace | Services | Connection

  predicate Sets(c: Change, f: Field) {
    match c
    case Replace(_) => true
    case SetPermission(_) => f == Permission
    case SetWorkspace(_) => f == Workspace
    case SetServices(_) => f == Services
    case SetConnection(_) => f == Connection
    case MarkCredentialsChanged => f == Connection
  }

  predicate SameField(a: DesiredState, b: DesiredState, f: Field) {
    match f
    case Permission => a.permission == b.permission
    case Workspace => a.workspace == b.workspace
    case Services => a.services == b.services
    case Connection => a.connection == b.connection
  }

  /** A setter sets its field to what it was given; changed credentials give the connection its next epoch. */
  lemma SetterSets(changes: seq<Change>, c: Change)
    ensures var before, after := RunChanges(changes).state, RunChanges(changes + [c]).state;
            && (c.Replace? ==> after == c.state)
            && (c.SetPermission? ==> after.permission == c.permission)
            && (c.SetWorkspace? ==> after.workspace == c.workspace)
            && (c.SetServices? ==> after.services == c.services)
            && (c.SetConnection? ==> after.connection == c.connection)
            && (c.MarkCredentialsChanged? ==>
                  if before.connection.None? then after.connection.None?
                  else after.connection == Some(ConnectionProfile(
                         before.connection.value.tunnelId, SaturatingAdd(before.connection.value.credentialEpoch, 1))))
    ensures forall f | !Sets(c, f) :: SameField(RunChanges(changes + [c]).state, RunChanges(changes).state, f)
    ensures RunChanges(changes + [c]).revision ==
            if RunChanges(changes + [c]).state == RunChanges(changes).state then RunChanges(changes).revision
            else SaturatingAdd(RunChanges(changes).revision, 1)
  {
    assert (changes + [c])[..|changes|] == changes;
  }

  /** Over every run, a field is what the last change that sets it made it, and the default if none does. */
  lemma {:induction false} LastSetterStands(changes: seq<Change>, k: nat, f: Field)
    requires k <= |changes| && forall j | k <= j < |changes| :: !Sets(changes[j], f)
    ensures SameField(RunChanges(changes).state, RunChanges(changes[..k]).state, f)
    ensures k == 0 ==> SameField(RunChanges(changes).state, DesiredState(Edit, None, Disabled, None), f)
  {
    if k == |changes| {
      assert changes[..k] == changes;
    } else {
      var init, last := changes[..|changes| - 1], changes[|changes| - 1];
      LastSetterStands(init, k, f);
      assert init[..k] == changes[..k] && changes == init + [last];
      SetterSets(init, last);
    }
  }
}
