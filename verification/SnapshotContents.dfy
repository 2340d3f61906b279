/**
 What each update puts into the sections of the snapshot (src-tauri/src/control_plane/snapshot.rs and the
 publishing code in src-tauri/src/app/background.rs).
 */
module SnapshotContents {
  import opened Options
  import opened Convergence
  import opened Snapshots
  import opened SnapshotRuns

  // -------------------------------------------------------------------------
  // An observation
  // -------------------------------------------------------------------------

  /** A section that is shown as it is. */
  ghost predicate Shows<T>(s: Section<T>, value: T) {
    s.availability == SectionReady && !s.stale && s.value == Some(value)
  }

  /** A section that still shows what it showed, marked as out of date. */
  ghost predicate ShowsOld<T>(s: Section<T>, before: Section<T>) {
    s.availability == TemporarilyUnavailable && s.stale && s.value == before.value
  }

  ghost predicate AuthorityShown(c: Draft, o: Observation) {
    && c.authority.value.Some? && Shows(c.authority, c.authority.value.value)
    && var a := c.authority.value.value;
       && a.desired == o.desired.permission && a.broker == o.broker
       && a.effective == (if o.desired.permission == Elevated && !o.broker.BrokerActive? then Full else o.desired.permission)
       && (a.structuredPaths == AdministratorBroker <==> o.desired.permission == Elevated && o.broker.BrokerActive?)
       && (a.reconciliation == Converged <==>
             if o.desired.permission == Elevated then o.broker.BrokerActive? else o.broker == BrokerDisabled)
  }

  ghost predicate WorkspaceShown(c: Draft, o: Observation) {
    && c.workspace.value.Some? && Shows(c.workspace, c.workspace.value.value)
    && var w, wanted := c.workspace.value.value, o.desired.workspace;
       && (wanted.None? ==> w.desiredId.None? && w.desiredPath.None?)
       && (wanted.Some? ==> w.desiredId == wanted.value.id && w.desiredPath == Some(wanted.value.executionPath))
       && w.observedPath == o.runtime.workspace
       && (w.effective == IsAvailable <==>
             wanted.Some? && o.runtime.state == Ready && o.runtime.workspace == Some(wanted.value.executionPath))
  }

  ghost predicate ConnectionShown(c: Draft, o: Observation) {
    && c.connection.value.Some? && Shows(c.connection, c.connection.value.value)
    && var n, wanted, seen := c.connection.value.value, o.desired.connection, o.runtime.connection;
       && (wanted.None? ==> n.desiredTunnelId.None? && n.desiredEpoch.None?)
       && (wanted.Some? ==> n.desiredTunnelId == Some(wanted.value.tunnelId) && n.desiredEpoch == Some(wanted.value.credentialEpoch))
       && (seen.None? ==> n.observedTunnelId.None? && n.observedEpoch.None?)
       && (seen.Some? ==> n.observedTunnelId == Some(seen.value.tunnelId) && n.observedEpoch == Some(seen.value.credentialEpoch))
       && (n.effective == IsAvailable <==> wanted.Some? && o.runtime.state == Ready && seen == wanted)
  }

  /** The wanted and the effective permission, and the wanted and the observed workspace and connection, as observed. */
  lemma ObservationIsShown(c: Draft, o: Observation, now: nat)
    ensures var after := DraftOf(c, Observe(o), now); AuthorityShown(after, o) && WorkspaceShown(after, o) && ConnectionShown(after, o)
  {
  }

  /** The runtime as observed, with the local environment last published; the tasks only if they were read. */
  lemma ObservationShowsRuntime(c: Draft, o: Observation, now: nat)
    ensures var after := DraftOf(c, Observe(o), now);
            && Shows(after.runtime, RuntimeProjection(
                 o.runtime.active, o.runtime.state,
                 if c.runtime.value.Some? then c.runtime.value.value.localEnvironment else None, o.runtime.detail))
            && (o.activity.Some? ==> Shows(after.scheduler, o.activity.value.scheduler) && Shows(after.activity, o.activity.value))
            && (o.activity.None? ==> ShowsOld(after.scheduler, c.scheduler) && ShowsOld(after.activity, c.activity))
            && after.settings == c.settings && after.update == c.update
  {
  }

  // -------------------------------------------------------------------------
  // Other updates
  // -------------------------------------------------------------------------

  /** Settings are shown as published, and as faulty while they have a problem; a problem alone keeps what was shown. */
  lemma SettingsAreShown(c: Draft, settings: Detail, error: OperationError, now: nat)
    ensures Shows(DraftOf(c, PublishSettings(settings, None), now).settings, settings)
    ensures DraftOf(c, PublishSettings(settings, Some(error)), now).settings == Section(SectionFault, true, Some(settings))
    ensures DraftOf(c, PublishSettingsFault(error), now).settings ==
            Section(SectionFault, true, Some(if c.settings.value.Some? then c.settings.value.value else DEFAULT_SETTINGS))
  {
  }

  /** Out of date means every observed section at once, or only the tasks; nothing that was shown is lost. */
  lemma StaleKeepsValues(c: Draft, now: nat)
    ensures var after := DraftOf(c, MarkObservationStale, now);
            && ShowsOld(after.runtime, c.runtime) && ShowsOld(after.authority, c.authority)
            && ShowsOld(after.scheduler, c.scheduler) && ShowsOld(after.workspace, c.workspace)
            && ShowsOld(after.connection, c.connection) && ShowsOld(after.activity, c.activity)
            && after.settings == c.settings && after.update == c.update && after.faults == c.faults
    ensures var after := DraftOf(c, MarkActivityStale, now);
            && ShowsOld(after.scheduler, c.scheduler) && ShowsOld(after.activity, c.activity)
            && after == c.(scheduler := after.scheduler, activity := after.activity)
  {
  }

  lemma SmallUpdatesAreExact(c: Draft, update: Section<Detail>, available: bool, now: nat)
    ensures DraftOf(c, PublishUpdate(update), now) == c.(update := update)
    ensures var after := DraftOf(c, PublishLocalEnvironment(available), now);
            && after == c.(runtime := after.runtime)
            && after.runtime.availability == c.runtime.availability && after.runtime.stale == c.runtime.stale
            && (c.runtime.value.None? ==> after.runtime.value.None?)
            && (c.runtime.value.Some? ==> after.runtime.value == Some(c.runtime.value.value.(localEnvironment := Some(available))))
  {
  }

  // -------------------------------------------------------------------------
  // Over every run
  // -------------------------------------------------------------------------

  predicate LeftAlone(a: Draft, b: Draft) {
    && a.authority == b.authority && a.workspace == b.workspace && a.connection == b.connection
    && a.runtime.(value := None) == b.runtime.(value := None)
    && (b.runtime.value.Some? ==>
          && a.runtime.value.Some?
          && a.runtime.value.value.(localEnvironment := None) == b.runtime.value.value.(localEnvironment := None))
  }

  /** The runtime itself, whatever is known of its local environment. */
  ghost predicate RuntimeShown(c: Draft, o: Observation) {
    && c.runtime.value.Some? && Shows(c.runtime, c.runtime.value.value)
    && c.runtime.value.value.(localEnvironment := None) == RuntimeProjection(o.runtime.active, o.runtime.state, None, o.runtime.detail)
  }

  lemma OthersLeaveThem(c: Draft, e: Event, now: nat)
    requires !Decides(e)
    ensures LeftAlone(DraftOf(c, e, now), c)
  {
  }

  /** Over every run, what was wanted, observed and in effect is shown as in the last observation, unless that was marked stale. */
  lemma {:induction false} LastObservationIsShown(events: seq<Timed>, start: nat, k: nat, o: Observation)
    requires k < |events| && events[k].event == Observe(o) && forall j | k < j < |events| :: !Decides(events[j].event)
    ensures var c := Run(events, start).contents;
            RuntimeShown(c, o) && AuthorityShown(c, o) && WorkspaceShown(c, o) && ConnectionShown(c, o)
  {
    var init, t := events[..|events| - 1], events[|events| - 1];
    var before := Run(init, start).contents;
    RunStep(events, start);
    if k == |init| {
      ObservationIsShown(before, o, t.now);
      ObservationShowsRuntime(before, o, t.now);
    } else {
      LastObservationIsShown(init, start, k, o);
      OthersLeaveThem(before, t.event, t.now);
    }
  }

  /** A fault of the runtime or of the broker is listed under its own code, and can be retried. */
  lemma FaultCodes(fault: string)
    ensures RuntimeError(fault).code == "Runtime." + fault && RuntimeError(fault).category == "Unavailable"
    ensures AuthorityError(fault).code == "Authority." + fault && AuthorityError(fault).category == "Authorization"
    ensures RuntimeError(fault).retryable && AuthorityError(fault).retryable
  {
  }
}
