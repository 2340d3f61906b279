/** Runs of the snapshot owner: any interleaving of section updates, each one atomic under the lock. */
module SnapshotRuns {
  import opened Options
  import opened Integers
  import opened Convergence
  import opened Snapshots

  datatype Timed = Timed(event: Event, now: nat)

  function Next(s: Snapshot, t: Timed): Snapshot {
    Published(s, DraftOf(s.contents, t.event, t.now), t.now)
  }

  function Run(events: seq<Timed>, start: nat): Snapshot {
    if events == [] then Snapshot(0, start, EMPTY_DRAFT)
    else Next(Run(events[..|events| - 1], start), events[|events| - 1])
  }

  lemma RunStep(events: seq<Timed>, start: nat)
    requires events != []
    ensures var before, t := Run(events[..|events| - 1], start), events[|events| - 1];
            Run(events, start).contents == DraftOf(before.contents, t.event, t.now)
  {
  }

  // -------------------------------------------------------------------------
  // Revisions
  // -------------------------------------------------------------------------

  lemma {:induction false} RevisionsGrow(events: seq<Timed>, start: nat, i: nat)
    requires i <= |events|
    ensures Run(events[..i], start).revision <= Run(events, start).revision <= MAX_U64
    ensures Run(events, start).revision < MAX_U64 && Run(events[..i], start).revision == Run(events, start).revision
            ==> Run(events[..i], start) == Run(events, start)
  {
    if i == |events| {
      assert events[..i] == events;
      if events != [] {
        RevisionsGrow(events[..|events| - 1], start, |events| - 1);
      }
    } else {
      var init := events[..|events| - 1];
      RevisionsGrow(init, start, i);
      assert init[..i] == events[..i];
    }
  }

  /** Over every run, two moments with one revision below saturation have the same snapshot. */
  lemma RevisionIdentifiesSnapshot(events: seq<Timed>, start: nat, i: nat, j: nat)
    requires i <= j <= |events|
    requires Run(events[..i], start).revision == Run(events[..j], start).revision < MAX_U64
    ensures Run(events[..i], start) == Run(events[..j], start)
  {
    RevisionsGrow(events[..j], start, i);
    assert events[..j][..i] == events[..i];
  }

  /** Every revision is reached, the largest too. */
  lemma {:induction false} RevisionReached(n: nat, start: nat) returns (events: seq<Timed>)
    requires n <= MAX_U64
    ensures Run(events, start).revision == n
  {
    if n == 0 {
      events := [];
    } else {
      var init := RevisionReached(n - 1, start);
      var before := Run(init, start).contents.update;
      var other: Section<Detail> := Section(SectionReady, !before.stale, None);
      events := init + [Timed(PublishUpdate(other), 0)];
      assert events[..|events| - 1] == init;
    }
  }

  /** At saturation the revision stands still while the sections change. */
  lemma SaturatedRevisionRepeats(s: Snapshot, draft: Draft, now: nat)
    requires s.revision == MAX_U64 && s.contents != draft
    ensures Published(s, draft, now).revision == s.revision && Published(s, draft, now).contents == draft
  {
  }

  // -------------------------------------------------------------------------
  // Faults, one source at a time
  // -------------------------------------------------------------------------

  function IdOf(source: FaultSource): string {
    match source case FromRuntime => "runtime" case FromAuthority => "authority" case FromSettings => "settings"
  }

  function FaultFrom(faults: seq<PersistentFault>, source: FaultSource): Option<PersistentFault> {
    if faults == [] then None else if faults[0].source == source then Some(faults[0]) else FaultFrom(faults[1..], source)
  }

  function CountFrom(faults: seq<PersistentFault>, source: FaultSource): nat {
    if faults == [] then 0 else (if faults[0].source == source then 1 else 0) + CountFrom(faults[1..], source)
  }

  predicate Labelled(faults: seq<PersistentFault>) {
    forall i | 0 <= i < |faults| :: faults[i].id == IdOf(faults[i].source)
  }

  lemma {:induction false} FromAppend(a: seq<PersistentFault>, b: seq<PersistentFault>, source: FaultSource)
    ensures FaultFrom(a + b, source) == if FaultFrom(a, source).Some? then FaultFrom(a, source) else FaultFrom(b, source)
    ensures CountFrom(a + b, source) == CountFrom(a, source) + CountFrom(b, source)
  {
    if a == [] {
      assert a + b == b;
    } else {
      assert (a + b)[1..] == a[1..] + b;
      FromAppend(a[1..], b, source);
    }
  }

  lemma {:induction false} FromKept(faults: seq<PersistentFault>, settings: bool, source: FaultSource)
    ensures FaultFrom(FaultsOf(faults, settings), source) ==
            if (source == FromSettings) == settings then FaultFrom(faults, source) else None
    ensures CountFrom(FaultsOf(faults, settings), source) ==
            if (source == FromSettings) == settings then CountFrom(faults, source) else 0
  {
    if faults != [] {
      var first := if (faults[0].source == FromSettings) == settings then [faults[0]] else [];
      FromKept(faults[1..], settings, source);
      FromAppend(first, FaultsOf(faults[1..], settings), source);
    }
  }

  lemma {:induction false} KeptLabelled(faults: seq<PersistentFault>, settings: bool)
    requires Labelled(faults)
    ensures Labelled(FaultsOf(faults, settings))
  {
    if faults != [] {
      KeptLabelled(faults[1..], settings);
    }
  }

  lemma IdsDiffer(a: FaultSource, b: FaultSource)
    ensures IdOf(a) == IdOf(b) <==> a == b
  {
    assert |IdOf(FromRuntime)| == 7 && |IdOf(FromAuthority)| == 9 && |IdOf(FromSettings)| == 8;
  }

  lemma {:induction false} PreviousIsFrom(faults: seq<PersistentFault>, source: FaultSource)
    requires Labelled(faults)
    ensures PreviousFault(faults, IdOf(source)) == FaultFrom(faults, source)
  {
    if faults != [] {
      IdsDiffer(faults[0].source, source);
      PreviousIsFrom(faults[1..], source);
    }
  }

  /** Whether an update decides about a source, and what it then finds wrong. */
  predicate Speaks(e: Event, source: FaultSource) {
    match source
    case FromSettings => e.PublishSettings? || e.PublishSettingsFault?
    case _ => e.Observe?
  }

  function Problem(e: Event, source: FaultSource): Option<OperationError> {
    match e
    case Observe(o) =>
      if source == FromRuntime && o.runtime.state.RuntimeFaulted? then Some(RuntimeError(o.runtime.state.fault))
      else if source == FromAuthority && o.broker.BrokerFaulted? then Some(AuthorityError(o.broker.fault))
      else None
    case PublishSettings(_, error) => if source == FromSettings then error else None
    case PublishSettingsFault(error) => if source == FromSettings then Some(error) else None
    case _ => None
  }

  /** One source after one update. */
  function FaultAfter(before: Option<PersistentFault>, e: Event, source: FaultSource, now: nat): Option<PersistentFault> {
    if !Speaks(e, source) then before
    else match Problem(e, source)
      case Some(error) => Some(MakeFault(before, IdOf(source), source, error, now))
      case None => None
  }

  ghost predicate FaultsOk(faults: seq<PersistentFault>) {
    Labelled(faults) && forall source :: CountFrom(faults, source) <= 1
  }

  lemma OneFault(f: PersistentFault, source: FaultSource)
    ensures FaultFrom([f], source) == if f.source == source then Some(f) else None
    ensures CountFrom([f], source) == if f.source == source then 1 else 0
  {
    assert [f][1..] == [];
    assert FaultFrom([], source).None? && CountFrom([], source) == 0;
  }

  lemma OptionalFault(f: Option<PersistentFault>, source: FaultSource)
    ensures var fs := if f.Some? then [f.value] else [];
            FaultFrom(fs, source) == (if f.Some? && f.value.source == source then f else None) &&
            CountFrom(fs, source) == if f.Some? && f.value.source == source then 1 else 0
  {
    if f.Some? {
      OneFault(f.value, source);
    }
  }

  function AsSeq(f: Option<PersistentFault>): seq<PersistentFault> {
    if f.Some? then [f.value] else []
  }

  /** The faults after an observation, as the kept ones and at most one new one for each other source. */
  lemma ObservationFaultsAre(c: Draft, o: Observation, now: nat)
    requires Labelled(c.faults)
    ensures ObservationFaults(c, o, now) ==
            FaultsOf(c.faults, true)
            + AsSeq(FaultAfter(FaultFrom(c.faults, FromRuntime), Observe(o), FromRuntime, now))
            + AsSeq(FaultAfter(FaultFrom(c.faults, FromAuthority), Observe(o), FromAuthority, now))
  {
    PreviousIsFrom(c.faults, FromRuntime);
    PreviousIsFrom(c.faults, FromAuthority);
  }

  lemma ObservationFaultStep(c: Draft, o: Observation, now: nat, source: FaultSource)
    requires Labelled(c.faults)
    ensures FaultFrom(ObservationFaults(c, o, now), source) == FaultAfter(FaultFrom(c.faults, source), Observe(o), source, now)
    ensures CountFrom(c.faults, source) <= 1 ==> CountFrom(ObservationFaults(c, o, now), source) <= 1
  {
    var kept := FaultsOf(c.faults, true);
    var r := FaultAfter(FaultFrom(c.faults, FromRuntime), Observe(o), FromRuntime, now);
    var a := FaultAfter(FaultFrom(c.faults, FromAuthority), Observe(o), FromAuthority, now);
    ObservationFaultsAre(c, o, now);
    FromAppend(kept + AsSeq(r), AsSeq(a), source);
    FromAppend(kept, AsSeq(r), source);
    FromKept(c.faults, true, source);
    OptionalFault(r, source);
    OptionalFault(a, source);
  }

  lemma ObservationFaultsLabelled(c: Draft, o: Observation, now: nat)
    requires Labelled(c.faults)
    ensures Labelled(ObservationFaults(c, o, now))
  {
    KeptLabelled(c.faults, true);
    ObservationFaultsAre(c, o, now);
  }

  lemma SettingsFaultStep(c: Draft, settings: Detail, error: Option<OperationError>, now: nat, source: FaultSource)
    requires Labelled(c.faults)
    ensures var after := SettingsDraft(c, settings, error, now).faults;
            && FaultFrom(after, source) == FaultAfter(FaultFrom(c.faults, source), PublishSettings(settings, error), source, now)
            && (CountFrom(c.faults, source) <= 1 ==> CountFrom(after, source) <= 1)
            && Labelled(after)
  {
    PreviousIsFrom(c.faults, FromSettings);
    FromKept(c.faults, false, source);
    KeptLabelled(c.faults, false);
    match error
    case Some(e) =>
      var f := MakeFault(FaultFrom(c.faults, FromSettings), "settings", FromSettings, e, now);
      FromAppend(FaultsOf(c.faults, false), [f], source);
      OneFault(f, source);
    case None =>
  }

  /** Every update acts on each source by itself. */
  lemma FaultStep(c: Draft, e: Event, now: nat, source: FaultSource)
    requires Labelled(c.faults)
    ensures var after := DraftOf(c, e, now).faults;
            && FaultFrom(after, source) == FaultAfter(FaultFrom(c.faults, source), e, source, now)
            && (CountFrom(c.faults, source) <= 1 ==> CountFrom(after, source) <= 1)
            && Labelled(after)
  {
    match e
    case Observe(o) =>
      ObservationFaultStep(c, o, now, source);
      ObservationFaultsLabelled(c, o, now);
    case PublishSettings(settings, error) => SettingsFaultStep(c, settings, error, now, source);
    case PublishSettingsFault(error) =>
      var settings := match c.settings.value case Some(s) => s case None => DEFAULT_SETTINGS;
      SettingsFaultStep(c, settings, Some(error), now, source);
    case _ =>
  }

  lemma {:induction false} FaultsStayOk(events: seq<Timed>, start: nat)
    ensures FaultsOk(Run(events, start).contents.faults)
  {
    if events != [] {
      var init, t := events[..|events| - 1], events[|events| - 1];
      FaultsStayOk(init, start);
      RunStep(events, start);
      forall source ensures CountFrom(Run(events, start).contents.faults, source) <= 1 {
        FaultStep(Run(init, start).contents, t.event, t.now, source);
      }
      FaultStep(Run(init, start).contents, t.event, t.now, FromRuntime);
    }
  }

  predicate SpeaksAt(events: seq<Timed>, source: FaultSource, i: nat)
    requires i < |events|
  {
    Speaks(events[i].event, source)
  }

  predicate RaisesAt(events: seq<Timed>, source: FaultSource, i: nat)
    requires i < |events|
  {
    Speaks(events[i].event, source) && Problem(events[i].event, source).Some?
  }

  /** From `k` on, every update that decides about the source finds a problem, and `k` is the first of them. */
  ghost predicate UnbrokenFrom(events: seq<Timed>, source: FaultSource, k: nat) {
    && k < |events| && RaisesAt(events, source, k)
    && (forall j | k < j < |events| && SpeaksAt(events, source, j) :: RaisesAt(events, source, j))
    && ((forall i | 0 <= i < k :: !SpeaksAt(events, source, i)) ||
        exists i | 0 <= i < k ::
          && SpeaksAt(events, source, i) && !RaisesAt(events, source, i)
          && forall j | i < j < k :: !SpeaksAt(events, source, j))
  }

  /** No update decided about the source, or the last that did found nothing wrong. */
  ghost predicate Quiet(events: seq<Timed>, source: FaultSource) {
    || (forall i | 0 <= i < |events| :: !SpeaksAt(events, source, i))
    || exists i | 0 <= i < |events| ::
         && SpeaksAt(events, source, i) && !RaisesAt(events, source, i)
         && forall j | i < j < |events| :: !SpeaksAt(events, source, j)
  }

  ghost predicate LastToSpeak(events: seq<Timed>, source: FaultSource, l: nat) {
    l < |events| && SpeaksAt(events, source, l) && forall j | l < j < |events| :: !SpeaksAt(events, source, j)
  }

  /** What the listing of a fault, or its absence, says about the updates so far. */
  ghost predicate FaultTells(events: seq<Timed>, source: FaultSource, f: Option<PersistentFault>) {
    match f
    case Some(fault) =>
      && fault.source == source && fault.id == IdOf(source)
      && (exists k: nat :: UnbrokenFrom(events, source, k) && fault.firstSeen == events[k].now)
      && exists l: nat :: LastToSpeak(events, source, l) && Problem(events[l].event, source) == Some(fault.error) && fault.lastSeen == events[l].now
    case None => Quiet(events, source)
  }

  lemma QuietLater(init: seq<Timed>, t: Timed, source: FaultSource)
    requires Quiet(init, source) && !Speaks(t.event, source)
    ensures Quiet(init + [t], source)
  {
    var events := init + [t];
    assert forall i | 0 <= i < |init| :: SpeaksAt(events, source, i) == SpeaksAt(init, source, i) && RaisesAt(events, source, i) == RaisesAt(init, source, i);
    assert !SpeaksAt(events, source, |init|);
    if !(forall i | 0 <= i < |init| :: !SpeaksAt(init, source, i)) {
      var i :| 0 <= i < |init| && SpeaksAt(init, source, i) && !RaisesAt(init, source, i) && forall j | i < j < |init| :: !SpeaksAt(init, source, j);
      assert SpeaksAt(events, source, i) && !RaisesAt(events, source, i);
    }
  }

  lemma QuietNow(init: seq<Timed>, t: Timed, source: FaultSource)
    requires Speaks(t.event, source) && Problem(t.event, source).None?
    ensures Quiet(init + [t], source)
  {
    assert SpeaksAt(init + [t], source, |init|) && !RaisesAt(init + [t], source, |init|);
  }

  lemma UnbrokenLater(init: seq<Timed>, t: Timed, source: FaultSource, k: nat)
    requires UnbrokenFrom(init, source, k) && (Speaks(t.event, source) ==> Problem(t.event, source).Some?)
    ensures UnbrokenFrom(init + [t], source, k)
  {
    var events := init + [t];
    assert forall i | 0 <= i < |init| :: SpeaksAt(events, source, i) == SpeaksAt(init, source, i) && RaisesAt(events, source, i) == RaisesAt(init, source, i);
    if !(forall i | 0 <= i < k :: !SpeaksAt(init, source, i)) {
      var i :| 0 <= i < k && SpeaksAt(init, source, i) && !RaisesAt(init, source, i) && forall j | i < j < k :: !SpeaksAt(init, source, j);
      assert SpeaksAt(events, source, i) && !RaisesAt(events, source, i);
    }
  }

  lemma UnbrokenNow(init: seq<Timed>, t: Timed, source: FaultSource)
    requires Quiet(init, source) && Speaks(t.event, source) && Problem(t.event, source).Some?
    ensures UnbrokenFrom(init + [t], source, |init|)
  {
    var events := init + [t];
    assert forall i | 0 <= i < |init| :: SpeaksAt(events, source, i) == SpeaksAt(init, source, i) && RaisesAt(events, source, i) == RaisesAt(init, source, i);
    if !(forall i | 0 <= i < |init| :: !SpeaksAt(init, source, i)) {
      var i :| 0 <= i < |init| && SpeaksAt(init, source, i) && !RaisesAt(init, source, i) && forall j | i < j < |init| :: !SpeaksAt(init, source, j);
      assert SpeaksAt(events, source, i) && !RaisesAt(events, source, i);
    }
  }

  lemma FaultTellsStep(init: seq<Timed>, t: Timed, source: FaultSource, f: Option<PersistentFault>)
    requires FaultTells(init, source, f)
    ensures FaultTells(init + [t], source, FaultAfter(f, t.event, source, t.now))
  {
    if Speaks(t.event, source) && Problem(t.event, source).None? {
      QuietNow(init, t, source);
    } else if f.Some? {
      var k: nat :| UnbrokenFrom(init, source, k) && f.value.firstSeen == init[k].now;
      UnbrokenLater(init, t, source, k);
      assert (init + [t])[k] == init[k];
      LastStep(init, t, source, f);
    } else if Speaks(t.event, source) {
      UnbrokenNow(init, t, source);
      assert (init + [t])[|init|] == t;
      LastStep(init, t, source, f);
    } else {
      QuietLater(init, t, source);
    }
  }

  lemma LastStep(init: seq<Timed>, t: Timed, source: FaultSource, f: Option<PersistentFault>)
    requires f.Some? ==> exists l: nat ::
      LastToSpeak(init, source, l) && Problem(init[l].event, source) == Some(f.value.error) && f.value.lastSeen == init[l].now
    requires FaultAfter(f, t.event, source, t.now).Some?
    ensures
      var events, fault := init + [t], FaultAfter(f, t.event, source, t.now).value;
      exists l: nat ::
        LastToSpeak(events, source, l) && Problem(events[l].event, source) == Some(fault.error) && fault.lastSeen == events[l].now
  {
    var events := init + [t];
    if Speaks(t.event, source) {
      assert LastToSpeak(events, source, |init|);
    } else {
      var l: nat :|
        LastToSpeak(init, source, l) && Problem(init[l].event, source) == Some(f.value.error) && f.value.lastSeen == init[l].now;
      assert forall j | 0 <= j < |init| :: SpeaksAt(events, source, j) == SpeaksAt(init, source, j);
      assert LastToSpeak(events, source, l);
    }
  }

  lemma {:induction false} FaultHistory(events: seq<Timed>, start: nat, source: FaultSource)
    ensures FaultTells(events, source, FaultFrom(Run(events, start).contents.faults, source))
  {
    if events != [] {
      var init, t := events[..|events| - 1], events[|events| - 1];
      assert events == init + [t];
      FaultHistory(init, start, source);
      FaultsStayOk(init, start);
      RunStep(events, start);
      FaultStep(Run(init, start).contents, t.event, t.now, source);
      FaultTellsStep(init, t, source, FaultFrom(Run(init, start).contents.faults, source));
    }
  }

  /**
   Over every run there is at most one fault for each source. It is there exactly while the updates that
   decide about the source find a problem, and it was first seen at the first of them.
   */
  lemma FaultsMarkUnbrokenRuns(events: seq<Timed>, start: nat, source: FaultSource)
    ensures CountFrom(Run(events, start).contents.faults, source) <= 1
    ensures FaultTells(events, source, FaultFrom(Run(events, start).contents.faults, source))
  {
    FaultsStayOk(events, start);
    FaultHistory(events, start, source);
  }

  // -------------------------------------------------------------------------
  // No update loses another section
  // -------------------------------------------------------------------------

  datatype Part =
    | RuntimePart | AuthorityPart | SchedulerPart | WorkspacePart | ConnectionPart
    | SettingsPart | ActivityPart | UpdatePart | FaultPart(source: FaultSource)

  predicate SamePart(a: Draft, b: Draft, p: Part) {
    match p
    case RuntimePart => a.runtime == b.runtime
    case AuthorityPart => a.authority == b.authority
    case SchedulerPart => a.scheduler == b.scheduler
    case WorkspacePart => a.workspace == b.workspace
    case ConnectionPart => a.connection == b.connection
    case SettingsPart => a.settings == b.settings
    case ActivityPart => a.activity == b.activity
    case UpdatePart => a.update == b.update
    case FaultPart(source) => FaultFrom(a.faults, source) == FaultFrom(b.faults, source)
  }

  /** The updates that write a part. */
  predicate Writes(e: Event, p: Part) {
    match p
    case RuntimePart => e.Observe? || e.MarkObservationStale? || e.PublishLocalEnvironment?
    case SchedulerPart => e.Observe? || e.MarkObservationStale? || e.MarkActivityStale?
    case ActivityPart => e.Observe? || e.MarkObservationStale? || e.MarkActivityStale?
    case SettingsPart => e.PublishSettings? || e.PublishSettingsFault?
    case UpdatePart => e.PublishUpdate?
    case FaultPart(source) => Speaks(e, source)
    case _ => e.Observe? || e.MarkObservationStale?
  }

  function WritersOf(events: seq<Timed>, p: Part): seq<Timed> {
    if events == [] then []
    else
      var init, t := WritersOf(events[..|events| - 1], p), events[|events| - 1];
      if Writes(t.event, p) then init + [t] else init
  }

  lemma OthersLeaveIt(c: Draft, e: Event, now: nat, p: Part)
    requires Labelled(c.faults) && !Writes(e, p)
    ensures SamePart(DraftOf(c, e, now), c, p)
  {
    if p.FaultPart? {
      FaultStep(c, e, now, p.source);
    }
  }

  lemma WritersDecideIt(a: Draft, b: Draft, e: Event, now: nat, p: Part)
    requires Labelled(a.faults) && Labelled(b.faults) && SamePart(a, b, p) && Writes(e, p)
    ensures SamePart(DraftOf(a, e, now), DraftOf(b, e, now), p)
  {
    if p.FaultPart? {
      FaultStep(a, e, now, p.source);
      FaultStep(b, e, now, p.source);
    }
  }

  /** Over every run, each section and each source's fault is what its own updates alone would have made it. */
  lemma {:induction false} NoUpdateIsLost(events: seq<Timed>, start: nat, p: Part)
    ensures SamePart(Run(events, start).contents, Run(WritersOf(events, p), start).contents, p)
  {
    if events != [] {
      var init, t := events[..|events| - 1], events[|events| - 1];
      NoUpdateIsLost(init, start, p);
      FaultsStayOk(init, start);
      FaultsStayOk(WritersOf(init, p), start);
      RunStep(events, start);
      if Writes(t.event, p) {
        var writers := WritersOf(init, p) + [t];
        assert writers[..|writers| - 1] == WritersOf(init, p);
        RunStep(writers, start);
        WritersDecideIt(Run(init, start).contents, Run(WritersOf(init, p), start).contents, t.event, t.now, p);
      } else {
        OthersLeaveIt(Run(init, start).contents, t.event, t.now, p);
        SamePartTransitive(Run(events, start).contents, Run(init, start).contents, Run(WritersOf(init, p), start).contents, p);
      }
    }
  }

  lemma SamePartTransitive(a: Draft, b: Draft, c: Draft, p: Part)
    requires SamePart(a, b, p) && SamePart(b, c, p)
    ensures SamePart(a, c, p)
  {
  }

  // -------------------------------------------------------------------------
  // The two gates
  // -------------------------------------------------------------------------

  /**
   The snapshot published from an observation authorizes work exactly when the runtime agrees with the
   desired state; the effective state and the plan ask in addition that services are wanted.
   */
  lemma GatesAgreeExactlyWhen(previous: Draft, o: Observation, now: nat)
    ensures SnapshotAuthorizes(ObservationDraft(previous, o, now)) <==> Agrees(o.desired, Observed(o))
    ensures
      (SnapshotAuthorizes(ObservationDraft(previous, o, now)) <==> WorkIsAuthorized(Derive(o.desired, Observed(o))))
      <==> o.desired.services == Enabled || !Agrees(o.desired, Observed(o))
    ensures o.desired.services == Enabled ==>
      (SnapshotAuthorizes(ObservationDraft(previous, o, now)) <==> PlanRuntime(o.desired, Observed(o)) == NoAction)
  {
    AuthorizedExactlyWhen(o.desired, Observed(o));
    PlanIsEmptyExactlyWhen(o.desired, Observed(o));
  }

  /** With services switched off while the runtime is still up, the snapshot gate is open and the other closed. */
  lemma GatesDisagree(previous: Draft, now: nat)
    ensures
      var d := DesiredState(Edit, Some(DesiredWorkspace(None, "w")), Disabled, None);
      var o := Observation(d, BrokerDisabled, RuntimeView(true, Ready, Some("w"), None, ""), None);
      SnapshotAuthorizes(ObservationDraft(previous, o, now)) && !WorkIsAuthorized(Derive(d, Observed(o)))
  {
  }

  predicate Decides(e: Event) {
    e.Observe? || e.MarkObservationStale?
  }

  /** The last update that decides about authority is an observation in which the runtime agrees. */
  ghost predicate LastSeenAgreeing(events: seq<Timed>) {
    exists k :: 0 <= k < |events| && events[k].event.Observe?
      && Agrees(events[k].event.observation.desired, Observed(events[k].event.observation))
      && forall j | k < j < |events| :: !Decides(events[j].event)
  }

  lemma OthersKeepGate(c: Draft, e: Event, now: nat)
    requires !Decides(e)
    ensures SnapshotAuthorizes(DraftOf(c, e, now)) <==> SnapshotAuthorizes(c)
  {
  }

  lemma SeenStep(init: seq<Timed>, t: Timed)
    ensures LastSeenAgreeing(init + [t]) <==>
            if Decides(t.event) then t.event.Observe? && Agrees(t.event.observation.desired, Observed(t.event.observation))
            else LastSeenAgreeing(init)
  {
    var events := init + [t];
    assert events[|init|] == t;
    if Decides(t.event) {
      if LastSeenAgreeing(events) {
        var k :| 0 <= k < |events| && events[k].event.Observe?
          && Agrees(events[k].event.observation.desired, Observed(events[k].event.observation))
          && forall j | k < j < |events| :: !Decides(events[j].event);
        assert k == |init|;
      }
    } else {
      SeenEarlier(init, t);
    }
  }

  lemma SeenEarlier(init: seq<Timed>, t: Timed)
    requires !Decides(t.event)
    ensures LastSeenAgreeing(init + [t]) <==> LastSeenAgreeing(init)
  {
    var events := init + [t];
    assert events[|init|] == t && forall j | 0 <= j < |init| :: events[j] == init[j];
    if LastSeenAgreeing(events) {
      var k :| 0 <= k < |events| && events[k].event.Observe?
        && Agrees(events[k].event.observation.desired, Observed(events[k].event.observation))
        && forall j | k < j < |events| :: !Decides(events[j].event);
      assert k < |init| && init[k].event.Observe?;
    }
    if LastSeenAgreeing(init) {
      var k :| 0 <= k < |init| && init[k].event.Observe?
        && Agrees(init[k].event.observation.desired, Observed(init[k].event.observation))
        && forall j | k < j < |init| :: !Decides(init[j].event);
      assert events[k].event.Observe?;
    }
  }

  /**
   Over every run the snapshot authorizes work exactly when the last observation found the runtime in
   agreement and has not been marked stale since.
   */
  lemma {:induction false} AuthorizedByLastObservation(events: seq<Timed>, start: nat)
    ensures SnapshotAuthorizes(Run(events, start).contents) <==> LastSeenAgreeing(events)
  {
    if events != [] {
      var init, t := events[..|events| - 1], events[|events| - 1];
      assert events == init + [t];
      AuthorizedByLastObservation(init, start);
      RunStep(events, start);
      SeenStep(init, t);
      var c := Run(init, start).contents;
      match t.event
      case Observe(o) => GatesAgreeExactlyWhen(c, o, t.now);
      case MarkObservationStale =>
      case _ => OthersKeepGate(c, t.event, t.now);
    }
  }
}
