/**
 Hunks with equal starts. A hunk without old lines inserts at line 0, so several hunks may start
 there (runtime/coding-tools-mcp/coding_tools_mcp/patching.py, `apply_update_hunks`).
 */
module HunksAtTop {
  import opened Options
  import opened PatchHunks
  import opened Sequences

  // -------------------------------------------------------------------------
  // The hunks at line 0 and the others
  // -------------------------------------------------------------------------

  /** The hunks that start at line 0, or those that do not, as listed. */
  function Pick(ms: seq<MatchedHunk>, top: bool): (r: seq<MatchedHunk>)
    ensures forall m :: m in r <==> m in ms && (m.start == 0) == top
  {
    if ms == [] then []
    else
      var init, last := ms[..|ms| - 1], ms[|ms| - 1];
      assert ms == init + [last];
      Pick(init, top) + if (last.start == 0) == top then [last] else []
  }

  ghost predicate AllAtTop(s: seq<MatchedHunk>) {
    forall m | m in s :: m.start == 0
  }

  ghost predicate NoneAtTop(s: seq<MatchedHunk>) {
    forall m | m in s :: m.start > 0
  }

  lemma {:induction false} InsertBelow(a: seq<MatchedHunk>, b: seq<MatchedHunk>, m: MatchedHunk)
    requires AllAtTop(a) && NoneAtTop(b)
    ensures m.start == 0 ==> InsertUp(a + b, m) == a + [m] + b
    ensures m.start > 0 ==> InsertUp(a + b, m) == a + InsertUp(b, m)
  {
    if b == [] {
      assert a + b == a && a + [m] + b == a + [m];
    } else {
      var init, last := b[..|b| - 1], b[|b| - 1];
      assert b == init + [last] && last in b;
      assert (a + b)[..|a + b| - 1] == a + init;
      InsertBelow(a, init, m);
      assert a + [m] + b == a + [m] + init + [last];
      assert a + InsertUp(init, m) + [last] == a + (InsertUp(init, m) + [last]);
      assert a + b + [m] == a + (b + [m]);
    }
  }

  /** Sorting puts the hunks at line 0 first, in the order listed. */
  lemma {:induction false} SortSplits(ms: seq<MatchedHunk>)
    ensures SortUp(ms) == Pick(ms, true) + SortUp(Pick(ms, false))
  {
    if ms != [] {
      var init, last := ms[..|ms| - 1], ms[|ms| - 1];
      var top, below := Pick(init, true), Pick(init, false);
      SortSplits(init);
      SortedMembers(below);
      InsertBelow(top, SortUp(below), last);
      if last.start == 0 {
        assert Pick(ms, false) == below + [] == below;
      } else {
        assert Pick(ms, true) == top + [] == top;
        assert (below + [last])[..|below|] == below;
      }
    }
  }

  lemma {:induction false} SortDownTop(s: seq<MatchedHunk>)
    requires AllAtTop(s)
    ensures SortDown(s) == s
  {
    if s != [] {
      var init, last := s[..|s| - 1], s[|s| - 1];
      assert s == init + [last];
      SortDownTop(init);
      assert forall m | m in init :: m in s;
    }
  }

  /** Sorting back to front leaves the hunks at line 0 in the order listed, at the end. */
  lemma {:induction false} SortDownSplits(a: seq<MatchedHunk>, b: seq<MatchedHunk>)
    requires AllAtTop(a) && NoneAtTop(b) && StrictlyAscending(b)
    ensures SortDown(a + b) == Reverse(b) + a
    decreases |b|
  {
    if b == [] {
      SortDownTop(a);
      assert a + b == a && Reverse(b) + a == a;
    } else {
      var init, last := b[..|b| - 1], b[|b| - 1];
      ButLast(b);
      Associative(a, init, [last]);
      SortDownSplits(a, init);
      SortDownStep(a, init, last);
      Associative([last], Reverse(init), a);
    }
  }

  lemma ButLast(s: seq<MatchedHunk>)
    requires s != [] && NoneAtTop(s) && StrictlyAscending(s)
    ensures var init, last := s[..|s| - 1], s[|s| - 1];
            s == init + [last] && last.start > 0 && NoneAtTop(init) && StrictlyAscending(init)
  {
    assert s[|s| - 1] in s;
  }

  lemma SortDownStep(a: seq<MatchedHunk>, init: seq<MatchedHunk>, last: MatchedHunk)
    requires AllAtTop(a) && last.start > 0 && StrictlyAscending(init + [last])
    requires SortDown(a + init) == Reverse(init) + a
    ensures SortDown((a + init) + [last]) == [last] + (Reverse(init) + a)
  {
    SortDownAppend(a + init, last);
    LastStartsLater(a, init, last);
    InsertDownFirst(Reverse(init) + a, last);
  }

  lemma SortDownAppend(s: seq<MatchedHunk>, m: MatchedHunk)
    ensures SortDown(s + [m]) == InsertDown(SortDown(s), m)
  {
    assert (s + [m])[..|s|] == s;
  }

  lemma LastStartsLater(a: seq<MatchedHunk>, init: seq<MatchedHunk>, last: MatchedHunk)
    requires AllAtTop(a) && last.start > 0 && StrictlyAscending(init + [last])
    ensures forall x | x in Reverse(init) + a :: x.start < last.start
  {
    ReverseMembers(init);
    forall x | x in init ensures x.start < last.start {
      var i :| 0 <= i < |init| && init[i] == x;
      assert (init + [last])[i] == x && (init + [last])[|init|] == last;
    }
  }

  // -------------------------------------------------------------------------
  // Splicing at line 0
  // -------------------------------------------------------------------------

  lemma {:induction false} SpliceAppend(lines: seq<string>, a: seq<MatchedHunk>, b: seq<MatchedHunk>)
    ensures Splice(lines, a + b) == Splice(Splice(lines, a), b)
    decreases |a|
  {
    if a == [] {
      assert a + b == b;
    } else {
      assert (a + b)[1..] == a[1..] + b;
      SpliceAppend(SpliceOne(lines, a[0]), a[1..], b);
    }
  }

  lemma SpliceLast(lines: seq<string>, a: seq<MatchedHunk>, m: MatchedHunk)
    ensures Splice(lines, a + [m]) == SpliceOne(Splice(lines, a), m)
  {
    SpliceAppend(lines, a, [m]);
    assert [m][1..] == [];
    assert Splice(SpliceOne(Splice(lines, a), m), []) == SpliceOne(Splice(lines, a), m);
  }

  /** Insertions at line 0 pile up: the last listed comes out first. */
  function Stacked(s: seq<MatchedHunk>): seq<string> {
    if s == [] then [] else s[|s| - 1].lines + Stacked(s[..|s| - 1])
  }

  ghost predicate OnlyInsert(s: seq<MatchedHunk>) {
    forall m | m in s :: m.start == m.end == 0
  }

  lemma {:induction false} SpliceStacks(lines: seq<string>, s: seq<MatchedHunk>)
    requires OnlyInsert(s)
    ensures Splice(lines, s) == Stacked(s) + lines
  {
    if s == [] {
      assert Stacked(s) + lines == lines;
    } else {
      var init, last := s[..|s| - 1], s[|s| - 1];
      assert s == init + [last] && last in s;
      SpliceStacks(lines, init);
      SpliceLast(lines, init, last);
      var pile := Stacked(init) + lines;
      assert SpliceOne(pile, last) == last.lines + pile;
    }
  }

  /** What the hunks at line 0 make of lines in which the others are done. */
  function OnTop(lines: seq<string>, top: seq<MatchedHunk>): seq<string>
    requires top != [] ==> top[|top| - 1].end <= |lines|
  {
    if top == [] then lines
    else
      var last := top[|top| - 1];
      last.lines + (Stacked(top[..|top| - 1]) + lines)[last.end..]
  }

  lemma SpliceTopOne(lines: seq<string>, m: MatchedHunk)
    requires m.start == 0 && m.end <= |lines|
    ensures SpliceOne(lines, m) == m.lines + lines[m.end..]
  {
    assert lines[..0] + m.lines == m.lines;
  }

  lemma SpliceOnTop(lines: seq<string>, top: seq<MatchedHunk>)
    requires AllAtTop(top) && (top != [] ==> top[|top| - 1].end <= |lines| && OnlyInsert(top[..|top| - 1]))
    ensures Splice(lines, top) == OnTop(lines, top)
  {
    if top != [] {
      var init, last := top[..|top| - 1], top[|top| - 1];
      assert top == init + [last] && last in top;
      SpliceStacks(lines, init);
      SpliceLast(lines, init, last);
      SpliceTopOne(Stacked(init) + lines, last);
    }
  }

  lemma Regroup(a: seq<string>, b: seq<string>, c: seq<string>, d: seq<string>)
    ensures (a + b) + c + d == a + (b + c + d)
  {
  }

  lemma CutPrefix(lines: seq<string>, from: nat, to: nat)
    requires from <= to <= |lines|
    ensures lines[0..to] == lines[..from] + lines[from..to]
  {
  }

  /** Lines before every hunk come out as they are. */
  lemma InterleaveFrom(lines: seq<string>, s: seq<MatchedHunk>, from: nat)
    requires Fits(lines, s, from)
    ensures Fits(lines, s, 0) && Interleave(lines, s, 0) == lines[..from] + Interleave(lines, s, from)
  {
    if s == [] {
      CutPrefix(lines, from, |lines|);
      assert lines[0..] == lines[0..|lines|] && lines[from..] == lines[from..|lines|];
    } else {
      CutPrefix(lines, from, s[0].start);
      Regroup(lines[..from], lines[from..s[0].start], s[0].lines, Interleave(lines, s[1..], s[0].end));
    }
  }

  // -------------------------------------------------------------------------
  // Main results
  // -------------------------------------------------------------------------

  /** As hunks are placed: within the lines, and insertions at line 0. */
  ghost predicate TopInserts(lines: seq<string>, ms: seq<MatchedHunk>) {
    Within(lines, ms) && forall m | m in ms && m.start == m.end :: m.start == 0
  }

  lemma BelowReplace(lines: seq<string>, ms: seq<MatchedHunk>)
    requires TopInserts(lines, ms)
    ensures forall m | m in SortUp(Pick(ms, false)) :: 0 < m.start < m.end
  {
    SortedMembers(Pick(ms, false));
    forall m | m in SortUp(Pick(ms, false)) ensures 0 < m.start < m.end {
      assert m in Pick(ms, false);
      assert m in ms;
    }
  }

  /** The parts of a sorted list that was accepted. */
  lemma Parts(lines: seq<string>, ms: seq<MatchedHunk>, top: seq<MatchedHunk>, below: seq<MatchedHunk>)
    requires top == Pick(ms, true) && below == SortUp(Pick(ms, false))
    requires TopInserts(lines, ms) && Updated(lines, ms).Ok?
    ensures AllAtTop(top) && NoneAtTop(below) && StrictlyAscending(below)
    ensures Fits(lines, below, if top == [] then 0 else top[|top| - 1].end)
    ensures top != [] ==> OnlyInsert(top[..|top| - 1])
  {
    UpdatesExactlyWhen(lines, ms);
    SortSplits(ms);
    BelowReplace(lines, ms);
    PartsOf(lines, SortUp(ms), top, below);
  }

  lemma PartsOf(lines: seq<string>, s: seq<MatchedHunk>, top: seq<MatchedHunk>, below: seq<MatchedHunk>)
    requires Fits(lines, s, 0) && s == top + below && AllAtTop(top) && NoneAtTop(below)
    requires forall m | m in below :: m.start < m.end
    ensures StrictlyAscending(below)
    ensures Fits(lines, below, if top == [] then 0 else top[|top| - 1].end)
    ensures top != [] ==> OnlyInsert(top[..|top| - 1])
  {
    assert forall i | 0 <= i < |below| :: below[i] == s[|top| + i];
    assert forall i | 0 <= i < |top| :: top[i] == s[i];
    if top != [] {
      forall m | m in top[..|top| - 1] ensures m.start == m.end == 0 {
        var i :| 0 <= i < |top| - 1 && top[i] == m;
        assert s[i].end <= s[|top| - 1].start;
        assert top[|top| - 1] in top && m in top;
      }
    }
  }

  /** The hunks below line 0 interleave, and those at line 0 act on that, each on what the one before it left. */
  ghost predicate ActsOnTop(lines: seq<string>, top: seq<MatchedHunk>, below: seq<MatchedHunk>, result: seq<string>) {
    && Fits(lines, below, 0)
    && (top != [] ==> top[|top| - 1].end <= |Interleave(lines, below, 0)|)
    && result == OnTop(Interleave(lines, below, 0), top)
  }

  lemma SpliceActsOnTop(lines: seq<string>, top: seq<MatchedHunk>, below: seq<MatchedHunk>)
    requires AllAtTop(top) && NoneAtTop(below) && StrictlyAscending(below)
    requires Fits(lines, below, if top == [] then 0 else top[|top| - 1].end)
    requires top != [] ==> OnlyInsert(top[..|top| - 1])
    ensures ActsOnTop(lines, top, below, Splice(lines, SortDown(top + below)))
  {
    var from := if top == [] then 0 else top[|top| - 1].end;
    InterleaveFrom(lines, below, from);
    SortDownSplits(top, below);
    SpliceAppend(lines, Reverse(below), top);
    BackwardIsForward(lines, below);
    SpliceOnTop(Interleave(lines, below, 0), top);
  }

  /** The result for every accepted list of placed hunks; `Pick` keeps the order listed. */
  lemma UpdatedOnTop(lines: seq<string>, ms: seq<MatchedHunk>)
    requires TopInserts(lines, ms) && Updated(lines, ms).Ok?
    ensures ActsOnTop(lines, Pick(ms, true), SortUp(Pick(ms, false)), Updated(lines, ms).value)
  {
    var top, below := Pick(ms, true), SortUp(Pick(ms, false));
    Parts(lines, ms, top, below);
    SortSplits(ms);
    SpliceActsOnTop(lines, top, below);
  }

  /** The lines become the forward interleaving. */
  ghost predicate Interleaves(lines: seq<string>, ms: seq<MatchedHunk>) {
    Fits(lines, SortUp(ms), 0) && Updated(lines, ms) == Ok(Interleave(lines, SortUp(ms), 0))
  }

  /** The same places, whatever lines go there. */
  predicate SameRanges(ms: seq<MatchedHunk>, ns: seq<MatchedHunk>) {
    |ms| == |ns| && forall i | 0 <= i < |ms| :: ns[i] == ms[i].(lines := ns[i].lines)
  }

  lemma SameRangesSameFate(lines: seq<string>, ms: seq<MatchedHunk>, ns: seq<MatchedHunk>)
    requires TopInserts(lines, ms) && SameRanges(ms, ns)
    ensures TopInserts(lines, ns)
    ensures Updated(lines, ms).Ok? <==> Updated(lines, ns).Ok?
    ensures DistinctStarts(ms) <==> DistinctStarts(ns)
  {
    forall n | n in ns ensures n.start <= n.end <= |lines| && (n.start == n.end ==> n.start == 0) {
      var i :| 0 <= i < |ns| && ns[i] == n;
      assert ms[i] in ms;
    }
    UpdatesExactlyWhen(lines, ms);
    UpdatesExactlyWhen(lines, ns);
    SameRangesApart(ms, ns);
    SameRangesApart(ns, ms);
  }

  lemma SameRangesApart(ms: seq<MatchedHunk>, ns: seq<MatchedHunk>)
    requires SameRanges(ms, ns)
    ensures SameRanges(ns, ms)
    ensures AllApart(ms) ==> AllApart(ns)
    ensures InsertionsFirst(ms) ==> InsertionsFirst(ns)
    ensures DistinctStarts(ms) ==> DistinctStarts(ns)
  {
    if AllApart(ms) {
      forall i, j | 0 <= i < j < |ns| ensures Apart(ns[i], ns[j]) {
        assert Apart(ms[i], ms[j]);
      }
    }
    if InsertionsFirst(ms) {
      forall i, j | 0 <= i < j < |ns| ensures ns[i].start == ns[j].start ==> ns[i].start == ns[i].end {
        assert ms[i].start == ms[j].start ==> ms[i].start == ms[i].end;
      }
    }
    if DistinctStarts(ms) {
      forall i, j | 0 <= i < j < |ns| ensures ns[i].start != ns[j].start {
        assert ms[i].start != ms[j].start;
      }
    }
  }

  lemma {:induction false} FirstPicked(ms: seq<MatchedHunk>, i: nat) returns (k: nat)
    requires i < |ms| && ms[i].start == 0
    ensures k <= i && Pick(ms, true) != [] && Pick(ms, true)[0] == ms[k]
  {
    var init := ms[..|ms| - 1];
    if i < |init| {
      k := FirstPicked(init, i);
    } else if Pick(init, true) == [] {
      k := i;
    } else {
      assert Pick(init, true)[0] in init;
      k :| 0 <= k < |init| && init[k] == Pick(init, true)[0];
    }
  }

  lemma {:induction false} LastPicked(ms: seq<MatchedHunk>, j: nat) returns (k: nat)
    requires j < |ms| && ms[j].start == 0
    ensures j <= k < |ms| && Pick(ms, true) != [] && Pick(ms, true)[|Pick(ms, true)| - 1] == ms[k]
  {
    if ms[|ms| - 1].start == 0 {
      k := |ms| - 1;
    } else {
      k := LastPicked(ms[..|ms| - 1], j);
    }
  }

  lemma ResultStarts(lines: seq<string>, top: seq<MatchedHunk>, below: seq<MatchedHunk>, result: seq<string>)
    requires ActsOnTop(lines, top, below, result) && top != [] && |top[|top| - 1].lines| == 1
    ensures result != [] && result[0] == top[|top| - 1].lines[0]
  {
  }

  lemma InterleaveStarts(lines: seq<string>, s: seq<MatchedHunk>)
    requires Fits(lines, s, 0) && s != [] && s[0].start == s[0].end == 0 && |s[0].lines| == 1
    ensures Interleave(lines, s, 0) != [] && Interleave(lines, s, 0)[0] == s[0].lines[0]
  {
    assert lines[0..0] + s[0].lines == s[0].lines;
  }

  /** With two hunks at line 0 the first line of the result is the last hunk's, that of the interleaving the first's. */
  lemma TopLinesDiffer(lines: seq<string>, ms: seq<MatchedHunk>, top: seq<MatchedHunk>)
    requires top != [] && |top[0].lines| == |top[|top| - 1].lines| == 1 && top[0].lines[0] != top[|top| - 1].lines[0]
    requires top == Pick(ms, true) && TopInserts(lines, ms) && Updated(lines, ms).Ok?
    ensures !Interleaves(lines, ms)
  {
    UpdatedOnTop(lines, ms);
    ResultStarts(lines, top, SortUp(Pick(ms, false)), Updated(lines, ms).value);
    FirstInserts(lines, ms, top);
    UpdatesExactlyWhen(lines, ms);
    InterleaveStarts(lines, SortUp(ms));
  }

  lemma FirstInserts(lines: seq<string>, ms: seq<MatchedHunk>, top: seq<MatchedHunk>)
    requires |top| >= 2 && top == Pick(ms, true) && TopInserts(lines, ms) && Updated(lines, ms).Ok?
    ensures SortUp(ms) != [] && SortUp(ms)[0] == top[0] && top[0].start == top[0].end == 0
  {
    Parts(lines, ms, top, SortUp(Pick(ms, false)));
    SortSplits(ms);
    assert top[..|top| - 1][0] == top[0] && top[0] in top[..|top| - 1];
  }

  lemma DistinctInterleave(lines: seq<string>, ms: seq<MatchedHunk>, ns: seq<MatchedHunk>)
    requires TopInserts(lines, ms) && Updated(lines, ms).Ok? && DistinctStarts(ms) && SameRanges(ms, ns)
    ensures Interleaves(lines, ns)
  {
    SameRangesSameFate(lines, ms, ns);
    UpdatedIsInterleaving(lines, ns);
  }

  lemma EqualStartsNeedNot(lines: seq<string>, ms: seq<MatchedHunk>, i: nat, j: nat, a: string, b: string)
    requires TopInserts(lines, ms) && Updated(lines, ms).Ok? && i < j < |ms| && ms[i].start == ms[j].start && a != b
    ensures !Interleaves(lines, Marked(ms, j, a, b))
  {
    UpdatesExactlyWhen(lines, ms);
    assert ms[i] in ms;
    SameRangesSameFate(lines, ms, Marked(ms, j, a, b));
    MarkedFirst(ms, i, j, a, b);
    MarkedLast(ms, j, a, b);
    TopLinesDiffer(lines, Marked(ms, j, a, b), Pick(Marked(ms, j, a, b), true));
  }

  /**
   Exactly when an accepted list interleaves whatever its new lines are: when its hunks start at distinct
   lines.
   */
  lemma InterleavesExactlyWhen(lines: seq<string>, ms: seq<MatchedHunk>)
    requires TopInserts(lines, ms) && Updated(lines, ms).Ok?
    ensures (forall ns | SameRanges(ms, ns) :: Interleaves(lines, ns)) <==> DistinctStarts(ms)
  {
    if DistinctStarts(ms) {
      forall ns | SameRanges(ms, ns) ensures Interleaves(lines, ns) {
        DistinctInterleave(lines, ms, ns);
      }
    } else {
      var i, j :| 0 <= i < j < |ms| && ms[i].start == ms[j].start;
      EqualStartsNeedNot(lines, ms, i, j, "", "x");
      assert SameRanges(ms, Marked(ms, j, "", "x"));
    }
  }

  /** New lines that tell the hunks before position `j` from those after. */
  function Marked(ms: seq<MatchedHunk>, j: nat, a: string, b: string): (ns: seq<MatchedHunk>)
    ensures SameRanges(ms, ns)
    ensures forall i | 0 <= i < |ms| :: ns[i].lines == [if i < j then a else b]
  {
    seq(|ms|, i requires 0 <= i < |ms| => ms[i].(lines := [if i < j then a else b]))
  }

  lemma MarkedFirst(ms: seq<MatchedHunk>, i: nat, j: nat, a: string, b: string)
    requires i < j < |ms| && ms[i].start == 0
    ensures var top := Pick(Marked(ms, j, a, b), true); top != [] && top[0].lines == [a]
  {
    var k := FirstPicked(Marked(ms, j, a, b), i);
  }

  lemma MarkedLast(ms: seq<MatchedHunk>, j: nat, a: string, b: string)
    requires j < |ms| && ms[j].start == 0
    ensures var top := Pick(Marked(ms, j, a, b), true); top != [] && top[|top| - 1].lines == [b]
  {
    var k := LastPicked(Marked(ms, j, a, b), j);
  }

  /** The same for the whole application: every list of hunks that parse and are placed. */
  lemma AppliedOnTop(content: string, hunks: seq<seq<string>>)
    requires hunks != [] && ParseAll(hunks).Ok? && PlaceAll(LinesOf(content), ParseAll(hunks).value, 0).Ok?
    ensures
      var lines := LinesOf(content);
      var ms := PlaceAll(lines, ParseAll(hunks).value, 0).value;
      && (ApplyHunks(content, hunks).Ok? <==> AllApart(ms) && InsertionsFirst(ms))
      && (ApplyHunks(content, hunks).Ok? ==>
        exists result ::
          && ActsOnTop(lines, Pick(ms, true), SortUp(Pick(ms, false)), result)
          && ApplyHunks(content, hunks) == Ok(TextOf(content, result)))
  {
    var lines, hs := LinesOf(content), ParseAll(hunks).value;
    var ms := PlaceAll(lines, hs, 0).value;
    PlaceAllPlaces(lines, hs);
    PlacedWithin(lines, hs, ms);
    UpdatesExactlyWhen(lines, ms);
    if Updated(lines, ms).Ok? {
      UpdatedOnTop(lines, ms);
    }
  }

  // -------------------------------------------------------------------------
  // The shapes of failure
  // -------------------------------------------------------------------------

  lemma {:induction false} PickAll(ms: seq<MatchedHunk>)
    requires AllAtTop(ms)
    ensures Pick(ms, true) == ms && Pick(ms, false) == []
  {
    if ms != [] {
      assert ms == ms[..|ms| - 1] + [ms[|ms| - 1]] && ms[|ms| - 1] in ms;
      PickAll(ms[..|ms| - 1]);
    }
  }

  lemma NothingBelow(lines: seq<string>, top: seq<MatchedHunk>, result: seq<string>)
    requires ActsOnTop(lines, top, [], result)
    ensures (top != [] ==> top[|top| - 1].end <= |lines|) && result == OnTop(lines, top)
  {
    assert lines[0..] == lines;
  }

  /** Two hunks at line 0, the first an insertion. */
  lemma PairAtTop(lines: seq<string>, ms: seq<MatchedHunk>)
    requires |ms| == 2 && ms[0].start == ms[0].end == ms[1].start == 0 && ms[1].end <= |lines|
    ensures Updated(lines, ms) == Ok(ms[1].lines + (ms[0].lines + lines)[ms[1].end..])
  {
    assert forall m | m in ms :: m == ms[0] || m == ms[1];
    UpdatesExactlyWhen(lines, ms);
    PickAll(ms);
    UpdatedOnTop(lines, ms);
    assert SortUp([]) == [];
    NothingBelow(lines, ms, Updated(lines, ms).value);
    StackedOne(ms[..1]);
  }

  lemma StackedOne(s: seq<MatchedHunk>)
    requires |s| == 1
    ensures Stacked(s) == s[0].lines
  {
    assert s[..0] == [] && s[0].lines + [] == s[0].lines;
  }

  /** A line inserted before a replacement of line 0 is lost, and the line to replace stays. */
  lemma InsertionIsLost(lines: seq<string>, ms: seq<MatchedHunk>)
    requires |ms| == 2 && ms[0].start == ms[0].end == ms[1].start == 0 && ms[1].end == 1 <= |lines| && |ms[0].lines| == 1
    ensures Updated(lines, ms) == Ok(ms[1].lines + lines)
  {
    PairAtTop(lines, ms);
    assert (ms[0].lines + lines)[1..] == lines;
  }

  /** Such hunks are placed so: an insertion, and a hunk that replaces a line of its own. */
  lemma PlacedAtTop(a: string, h: ParsedHunk, n: nat)
    requires h.old' == [] || h.old' == [a]
    ensures Place([a], h, n) == Ok(MatchedHunk(n, 0, |h.old'|, h.new'))
  {
    if h.old' != [] {
      assert OccursAt([a], h.old', 0);
      assert FindFrom([a], h.old', 1) == [];
      assert FindFrom([a], h.old', 0) == [0];
    }
  }

  /** Two insertions come out in the opposite order. */
  lemma InsertionsAreReversed(lines: seq<string>, ms: seq<MatchedHunk>)
    requires |ms| == 2 && OnlyInsert(ms)
    ensures Updated(lines, ms) == Ok(ms[1].lines + (ms[0].lines + lines))
  {
    assert ms[0] in ms && ms[1] in ms;
    PairAtTop(lines, ms);
    var pile := ms[0].lines + lines;
    assert pile[0..] == pile;
  }

  /** A replacement from line 0 listed before an insertion is refused, though they touch no common line. */
  lemma InsertionAfterReplacementIsRefused(lines: seq<string>, ms: seq<MatchedHunk>)
    requires |ms| == 2 && ms[0].start == ms[1].start == ms[1].end == 0 < ms[0].end <= |lines|
    ensures AllApart(ms) && Updated(lines, ms) == Err(HunksOverlap(ms[0].index, ms[1].index))
  {
    assert forall m | m in ms :: m == ms[0] || m == ms[1];
    SortSplits(ms);
    PickAll(ms);
    assert SortUp([]) == [] && SortUp(ms) == ms;
    assert FirstOverlap(ms) == Some(1);
  }
}
