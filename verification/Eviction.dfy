/**
 A run at whose end the next execution to finish is not listed afterwards
 (src-tauri/src/control_plane/execution_registry.rs, `trim_state`).
 */
module Eviction {
  import opened Options
  import opened ExecutionRegistry
  import opened ExecutionRuns
  import opened CommandControl

  function Name(n: nat): (s: string)
    ensures |s| == n
  {
    seq(n, i => 'x')
  }

  function StartOf(n: nat): Change {
    StartOwned(Name(n), "", Name(n), None, n, 0)
  }

  function FinishOf(n: nat): Change {
    Finish(Name(n), Terminal(Completed, None, None, [], None, 0))
  }

  /** The first execution runs on while `n` later ones have come and gone. */
  ghost predicate Filled(w: World, n: nat) {
    && |w.mem.executions| == n + 1
    && (forall k | 0 <= k <= n :: var r := w.mem.executions[k]; r.id == r.pub == Name(k) && (Live(r) <==> k == 0))
    && (forall k :: k > n ==> Name(k) !in w.used && k !in w.issued)
  }

  lemma {:induction false} AllEnded(s: Records)
    requires forall k | 0 <= k < |s| :: !Live(s[k])
    ensures LiveCount(s) == 0 && EndedCount(s) == |s|
  {
    if s != [] {
      AllEnded(s[1..]);
    }
  }

  lemma {:induction false} EndedAtMost(s: Records)
    ensures EndedCount(s) <= |s|
  {
    if s != [] {
      EndedAtMost(s[1..]);
    }
  }

  /** A list that starts with a live record and has at most 64 others is not trimmed. */
  lemma NotTrimmed(s: Records)
    requires s != [] && Live(s[0]) && |s| <= MAX_TERMINAL_EXECUTIONS + 1
    ensures Trimmed(s) == s
  {
    EndedAtMost(s[1..]);
    TrimmedWhenFew(s);
  }

  lemma Starts(w: World, n: nat)
    requires Filled(w, n) && n < MAX_TERMINAL_EXECUTIONS
    ensures var v := Next(w, Do(StartOf(n + 1), true));
            && v.mem.executions == w.mem.executions + [Started(Name(n + 1), "", Name(n + 1), None, n + 1, 0)]
            && v.used == w.used + {Name(n + 1)} && v.issued == w.issued + {n + 1}
  {
    var s := w.mem.executions;
    AllEnded(s[1..]);
    assert LiveCount(s) == 1;
    assert forall k | 0 <= k < |s| :: |s[k].pub| == k;
    assert IndexOfPublic(s, Name(n + 1)) == |s|;
    var r := Started(Name(n + 1), "", Name(n + 1), None, n + 1, 0);
    assert Apply(s, StartOf(n + 1)) == Ok(s + [r]);
    NotTrimmed(s + [r]);
  }

  lemma Finishes(v: World, n: nat)
    requires |v.mem.executions| == n + 2 && n < MAX_TERMINAL_EXECUTIONS
    requires forall k | 0 <= k <= n + 1 :: v.mem.executions[k].id == Name(k)
    requires Live(v.mem.executions[0]) && Live(v.mem.executions[n + 1])
    ensures var w := Next(v, Do(FinishOf(n + 1), true));
            && w.mem.executions == v.mem.executions[n + 1 := Finished(v.mem.executions[n + 1], FinishOf(n + 1).terminal)]
            && w.used == v.used && w.issued == v.issued
  {
    var s := v.mem.executions;
    assert forall k | 0 <= k < |s| :: |s[k].id| == k;
    assert IndexOfId(s, Name(n + 1)) == n + 1;
    var u := s[n + 1 := Finished(s[n + 1], FinishOf(n + 1).terminal)];
    assert Apply(s, FinishOf(n + 1)) == Ok(u);
    NotTrimmed(u);
  }

  lemma FilledMore(w: World, v: World, n: nat, r: Record)
    requires Filled(w, n) && r.id == r.pub == Name(n + 1) && !Live(r)
    requires v.mem.executions == w.mem.executions + [r]
    requires v.used == w.used + {Name(n + 1)} && v.issued == w.issued + {n + 1}
    ensures Filled(v, n + 1)
  {
    assert forall k | 0 <= k <= n :: v.mem.executions[k] == w.mem.executions[k];
    assert forall k: nat :: |Name(k)| == k;
  }

  lemma StartedNames(w: World, v: World, n: nat, r: Record)
    requires Filled(w, n) && r.id == Name(n + 1) && v.mem.executions == w.mem.executions + [r]
    ensures forall k | 0 <= k <= n + 1 :: v.mem.executions[k].id == Name(k)
    ensures Live(v.mem.executions[0])
  {
    assert forall k | 0 <= k <= n :: v.mem.executions[k] == w.mem.executions[k];
  }

  lemma Round(w: World, n: nat)
    requires Filled(w, n) && n < MAX_TERMINAL_EXECUTIONS
    ensures Filled(Next(Next(w, Do(StartOf(n + 1), true)), Do(FinishOf(n + 1), true)), n + 1)
  {
    var r := Started(Name(n + 1), "", Name(n + 1), None, n + 1, 0);
    var f := Finished(r, FinishOf(n + 1).terminal);
    var v := Next(w, Do(StartOf(n + 1), true));
    Starts(w, n);
    StartedNames(w, v, n, r);
    Finishes(v, n);
    assert (w.mem.executions + [r])[n + 1 := f] == w.mem.executions + [f];
    FilledMore(w, Next(v, Do(FinishOf(n + 1), true)), n, f);
  }

  lemma First()
    ensures Filled(Run([Do(StartOf(0), true)]), 0)
  {
    AppendOne([], Do(StartOf(0), true));
    assert [] + [Do(StartOf(0), true)] == [Do(StartOf(0), true)];
    var r := Started(Name(0), "", Name(0), None, 0, 0);
    assert IndexOfPublic([], Name(0)) == 0 && [] + [r] == [r];
    assert Apply([], StartOf(0)) == Ok([r]);
    NotTrimmed([r]);
  }

  /** Sixty-four executions finish after the first has started: when it finishes, its record goes at once. */
  lemma FinishedButNotListed(t: Terminal) returns (events: seq<Event>)
    ensures var m := Run(events).mem;
            && ForPublicSession(m, Name(0)).Some? && Live(ForPublicSession(m, Name(0)).value)
            && var (n, error) := Perform(m, Finish(ForPublicSession(m, Name(0)).value.id, t), true);
               error.None? && ForPublicSession(n, Name(0)).None?
  {
    First();
    events := [Do(StartOf(0), true)];
    for n := 0 to MAX_TERMINAL_EXECUTIONS
      invariant Filled(Run(events), n)
    {
      Round(Run(events), n);
      AppendOne(events, Do(StartOf(n + 1), true));
      AppendOne(events + [Do(StartOf(n + 1), true)], Do(FinishOf(n + 1), true));
      events := events + [Do(StartOf(n + 1), true)] + [Do(FinishOf(n + 1), true)];
    }
    InvHolds(events);
    var m := Run(events).mem;
    assert m.executions[0].pub == Name(0);
    assert IndexOfPublic(m.executions, Name(0)) == 0;
    AllEnded(m.executions[1..]);
    FinishSettles(m, Name(0), t);
  }
}
