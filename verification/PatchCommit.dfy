/**
 Committing a multi-file patch with atomic renames and full-set rollback
 (runtime/coding-tools-mcp/coding_tools_mcp/patching.py, class AtomicPatchCommitter).

 `fs` is changed by no one else while a commit runs, but any call on it may raise. A file digest is
 taken to identify the bytes it was computed from.
 */
module PatchCommit {
  import opened Options
  import opened FileSystems
  import opened Bytes

  datatype StagedFile = StagedFile(path: Path, content: Option<seq<Byte>>, baseline: Option<File>, mode: Option<nat>)

  datatype Cause = DuplicatePath | Conflict | OsError

  /**
   How a commit ended. `CleanupRaised` is an error raised by the clean-up itself, after the outcome
   was already settled: `committed` says whether the patch had been installed.
   */
  datatype Outcome =
    | Committed
    | Aborted(cause: Cause)
    | RollbackFailed(recovery: map<Path, Path>)
    | CleanupRaised(committed: bool)

  /** What the commit has done so far, all keyed by target path. */
  datatype Journal = Journal(prepared: map<Path, Path>, backups: map<Path, Path>, installed: set<Path>)

  const DEFAULT_MODE := 420 // 0o644

  function Staged(c: StagedFile): File
    requires c.content.Some?
  {
    File(c.content.value, if c.mode.Some? then c.mode.value else DEFAULT_MODE)
  }

  function Targets(changes: seq<StagedFile>): set<Path> {
    set c | c in changes :: c.path
  }

  ghost predicate Unique(changes: seq<StagedFile>) {
    forall i, j | 0 <= i < j < |changes| :: changes[i].path != changes[j].path
  }

  /** Every name a temporary file must keep clear of: the targets and the directories they need. */
  function Reserved(changes: seq<StagedFile>): (names: set<Path>)
    ensures Targets(changes) <= names
  {
    Targets(changes) + set c, p | c in changes && p in Prefixes(Parent(c.path)) :: p
  }

  type Files = map<Path, File>

  /** `p` holds the same file, or is absent, in both states. */
  ghost predicate Same(before: Files, after: Files, p: Path) {
    (p in after <==> p in before) && (p in after ==> after[p] == before[p])
  }

  ghost predicate AgreeOn(before: Files, after: Files, paths: set<Path>) {
    forall p | p in paths :: Same(before, after, p)
  }

  // -------------------------------------------------------------------------
  // What a caller may rely on
  // -------------------------------------------------------------------------

  /** The file, or its absence, captured when the change was staged is still there. */
  ghost predicate BaselineHolds(files: Files, c: StagedFile) {
    if c.baseline.None? then c.path !in files else c.path in files && files[c.path] == c.baseline.value
  }

  /** Nothing on disk and no other change stands in the way of this one. */
  ghost predicate Unobstructed(files: Files, dirs: set<Path>, changes: seq<StagedFile>, c: StagedFile) {
    && BaselineHolds(files, c)
    && c.path !in dirs
    && Prefixes(Parent(c.path)) !! files.Keys
    && forall d | d in changes :: c.path !in Prefixes(Parent(d.path))
  }

  /** Every target has the staged bytes and mode (0o644 unless given) or is gone, and no other file that existed was touched. */
  ghost predicate Applied(before: Files, after: Files, changes: seq<StagedFile>) {
    && AgreeOn(before, after, before.Keys - Targets(changes))
    && forall c | c in changes ::
         if c.content.None? then c.path !in after
         else
           && c.path in after && after[c.path].data == c.content.value
           && after[c.path].mode == match c.mode case Some(mode) => mode case None => 0x1A4
  }

  /** A file is where a directory for this change has to be. */
  ghost predicate Blocked(files: Files, c: StagedFile) {
    !(Prefixes(Parent(c.path)) !! files.Keys)
  }

  /** Every file is an original, a target, or recorded in the journal. */
  ghost predicate Tracked(before: Files, now: Files, changes: seq<StagedFile>, j: Journal) {
    forall p | p in now :: p in before || p in Targets(changes) || p in j.prepared.Values || p in j.backups.Values
  }

  /** Every target and every file that existed is exactly as before. */
  ghost predicate Restored(before: Files, after: Files, changes: seq<StagedFile>) {
    AgreeOn(before, after, before.Keys + Targets(changes))
  }

  /** No original is lost: it is at its own path or at its recovery path. */
  ghost predicate Recoverable(before: Files, after: Files, changes: seq<StagedFile>, recovery: map<Path, Path>) {
    && AgreeOn(before, after, before.Keys - Targets(changes))
    && forall p | p in before && p in Targets(changes) ::
         Same(before, after, p) || SavedAt(before, after, recovery, p)
  }

  ghost predicate SavedAt(before: Files, after: Files, copies: map<Path, Path>, p: Path) {
    p in copies && p in before && copies[p] in after && after[copies[p]] == before[p]
  }

  // -------------------------------------------------------------------------
  // The journal invariant
  // -------------------------------------------------------------------------

  /** Temporary and backup names are pairwise distinct and clash with no target and no original. */
  ghost predicate FreshNames(reserved: set<Path>, j: Journal) {
    && (forall t | t in j.prepared :: j.prepared[t] !in reserved)
    && (forall t | t in j.backups :: j.backups[t] !in reserved)
    && (forall t, u | t in j.prepared && u in j.prepared && t != u :: j.prepared[t] != j.prepared[u])
    && (forall t, u | t in j.backups && u in j.backups && t != u :: j.backups[t] != j.backups[u])
    && (forall t, u | t in j.prepared && u in j.backups :: j.prepared[t] != j.backups[u])
  }

  /** The original of target `t` is where the journal says it is. */
  ghost predicate Held(before: Files, now: Files, j: Journal, t: Path) {
    && (t in j.backups ==> SavedAt(before, now, j.backups, t) && (t in now ==> t in j.installed))
    && (t !in j.backups && t in j.installed ==> t !in before)
    && (t !in j.backups && t !in j.installed ==> Same(before, now, t))
  }

  /** Staged content waits in its temporary file until it is installed. */
  ghost predicate Ready(now: Files, j: Journal, c: StagedFile) {
    && (c.path in j.prepared ==> c.content.Some?)
    && (c.path in j.installed ==> c.path in j.prepared && c.path in now && now[c.path] == Staged(c))
    && (c.path in j.prepared && c.path !in j.installed ==>
          j.prepared[c.path] in now && now[j.prepared[c.path]] == Staged(c))
  }

  ghost predicate Consistent(before: Files, now: Files, changes: seq<StagedFile>, j: Journal) {
    && Unique(changes)
    && j.prepared.Keys <= Targets(changes) && j.backups.Keys <= Targets(changes) && j.installed <= Targets(changes)
    && FreshNames(before.Keys + Targets(changes), j)
    && AgreeOn(before, now, before.Keys - Targets(changes))
    && (forall c | c in changes :: Held(before, now, j, c.path))
    && (forall c | c in changes :: Ready(now, j, c))
  }

  lemma SamePath(changes: seq<StagedFile>, c: StagedFile, d: StagedFile)
    requires Unique(changes) && c in changes && d in changes && c.path == d.path
    ensures c == d
  {
    var i :| 0 <= i < |changes| && changes[i] == c;
    var k :| 0 <= k < |changes| && changes[k] == d;
    assert i == k;
  }

  /** A new name that is not yet recorded keeps the names distinct. */
  lemma NewNameFresh(before: Files, now: Files, changes: seq<StagedFile>, j: Journal, t: Path, name: Path)
    requires Consistent(before, now, changes, j) && j.installed == {}
    requires name !in now && name !in before.Keys + Targets(changes)
    ensures t !in j.prepared ==> FreshNames(before.Keys + Targets(changes), j.(prepared := j.prepared[t := name]))
    ensures t !in j.backups ==> FreshNames(before.Keys + Targets(changes), j.(backups := j.backups[t := name]))
  {
    forall u | u in j.prepared ensures j.prepared[u] != name {
      var d :| d in changes && d.path == u;
      assert Ready(now, j, d);
    }
    forall u | u in j.backups ensures j.backups[u] != name {
      var d :| d in changes && d.path == u;
      assert Held(before, now, j, d.path);
    }
  }

  /** Recording a freshly prepared temporary file keeps the invariant. */
  lemma AfterPrepare(before: Files, was: Files, now: Files, changes: seq<StagedFile>, j: Journal, c: StagedFile, temp: Path)
    requires Consistent(before, was, changes, j) && c in changes && c.content.Some?
    requires c.path !in j.prepared && j.backups == map[] && j.installed == {}
    requires temp !in was && temp !in before.Keys + Targets(changes)
    requires now == was[temp := Staged(c)]
    ensures Consistent(before, now, changes, j.(prepared := j.prepared[c.path := temp]))
  {
    var k := j.(prepared := j.prepared[c.path := temp]);
    forall d | d in changes ensures Held(before, now, k, d.path) && Ready(now, k, d) {
      assert d.path in Targets(changes);
      assert Held(before, was, j, d.path) && Ready(was, j, d);
      if d.path == c.path { SamePath(changes, c, d); }
    }
    NewNameFresh(before, was, changes, j, c.path, temp);
  }

  /** For one change, when the original of target `t` is moved to `backup`. */
  lemma StepOfBackup(before: Files, was: Files, now: Files, j: Journal, t: Path, backup: Path, d: StagedFile)
    requires Held(before, was, j, d.path) && Ready(was, j, d) && Held(before, was, j, t)
    requires t !in j.backups && j.installed == {} && t in was && backup !in was && d.path != backup
    requires (d.path in j.prepared ==> j.prepared[d.path] != t) && (d.path in j.backups ==> j.backups[d.path] != t)
    requires now == (was - {t})[backup := was[t]]
    ensures var k := j.(backups := j.backups[t := backup]); Held(before, now, k, d.path) && Ready(now, k, d)
  {
  }

  /** Moving an original aside keeps the invariant. */
  lemma AfterBackup(before: Files, was: Files, now: Files, changes: seq<StagedFile>, j: Journal, c: StagedFile, backup: Path)
    requires Consistent(before, was, changes, j) && c in changes
    requires c.path !in j.backups && j.installed == {} && c.path in was
    requires backup !in was && backup !in before.Keys + Targets(changes)
    requires now == (was - {c.path})[backup := was[c.path]]
    ensures Consistent(before, now, changes, j.(backups := j.backups[c.path := backup]))
  {
    var k := j.(backups := j.backups[c.path := backup]);
    assert c.path in Targets(changes);
    forall d | d in changes ensures Held(before, now, k, d.path) && Ready(now, k, d) {
      assert d.path in Targets(changes);
      StepOfBackup(before, was, now, j, c.path, backup, d);
    }
    NewNameFresh(before, was, changes, j, c.path, backup);
  }

  /** Renaming a temporary file over its target keeps the invariant. */
  lemma AfterInstall(before: Files, was: Files, now: Files, changes: seq<StagedFile>, j: Journal, c: StagedFile)
    requires Consistent(before, was, changes, j) && c in changes
    requires c.path in j.prepared && c.path !in j.installed
    requires c.path in j.backups || c.path !in was
    requires now == (was - {j.prepared[c.path]})[c.path := Staged(c)]
    ensures Consistent(before, now, changes, j.(installed := j.installed + {c.path}))
  {
    var k := j.(installed := j.installed + {c.path});
    assert c.path in Targets(changes);
    assert Held(before, was, j, c.path);
    forall d | d in changes ensures Held(before, now, k, d.path) && Ready(now, k, d) {
      assert d.path in Targets(changes);
      assert Held(before, was, j, d.path) && Ready(was, j, d);
      if d.path == c.path { SamePath(changes, c, d); }
    }
  }

  // -------------------------------------------------------------------------
  // The commit
  // -------------------------------------------------------------------------

  method AssertUniquePaths(changes: seq<StagedFile>) returns (ok: bool)
    ensures ok <==> Unique(changes)
  {
    var paths: set<Path> := {};
    for i := 0 to |changes|
      invariant forall k | 0 <= k < i :: changes[k].path in paths
      invariant forall p | p in paths :: exists k :: 0 <= k < i && changes[k].path == p
      invariant |paths| <= i
      invariant |paths| == i <==> forall m, n | 0 <= m < n < i :: changes[m].path != changes[n].path
    {
      paths := paths + {changes[i].path};
    }
    ok := |paths| == |changes|;
  }

  datatype Check = Matches | Differs | CheckRaised

  method CheckBaseline(fs: FileSystem, c: StagedFile) returns (r: Check)
    requires fs.Valid()
    ensures r.Matches? ==> BaselineHolds(fs.files, c) && c.path !in fs.dirs
    ensures r.Differs? ==> !BaselineHolds(fs.files, c) || c.path in fs.dirs
    ensures r.CheckRaised? ==> fs.mayRaise
  {
    if c.baseline.None? {
      return if fs.Exists(c.path) then Differs else Matches;
    }
    if !fs.Exists(c.path) || c.path in fs.dirs {
      return Differs;
    }
    var current := fs.Read(c.path);
    if current.None? {
      return CheckRaised;
    }
    r := if current.value == c.baseline.value then Matches else Differs;
  }

  /** Creates the missing ancestors and reports which ones they were. */
  /** Every directory is in a directory. */
  ghost predicate Rooted(dirs: set<Path>) {
    forall d | d in dirs :: d == [] || Parent(d) in dirs
  }

  function AsSet(s: seq<Path>): (r: set<Path>)
    ensures forall d :: d in r <==> d in s
  {
    set d | d in s
  }

  /** A new directory, in one that was there or was made before it. */
  ghost predicate MadeNext(d: Path, earlier: seq<Path>, was: set<Path>) {
    d != [] && d !in was && d !in earlier && (Parent(d) in was || Parent(d) in earlier)
  }

  /** These directories were made, in this order, and no others. */
  ghost predicate Made(created: seq<Path>, was: set<Path>, now: set<Path>) {
    && now == was + AsSet(created)
    && forall i | 0 <= i < |created| :: MadeNext(created[i], created[..i], was)
  }

  lemma {:induction false} PrefixesIn(dirs: set<Path>, p: Path)
    requires Rooted(dirs) && p in dirs
    ensures Prefixes(p) <= dirs
    decreases |p|
  {
    if p != [] {
      PrefixesIn(dirs, Parent(p));
      forall q | q in Prefixes(p) ensures q in dirs {
        var i :| 0 <= i <= |p| && q == p[..i];
        if i < |p| {
          assert q == Parent(p)[..i];
        } else {
          assert q == p;
        }
      }
    }
  }

  /** The prefixes of a path that are longer than `k`, shortest first. */
  ghost predicate LongerPrefixes(p: Path, k: nat, longer: seq<Path>) {
    k <= |p| && |longer| == |p| - k && forall i | 0 <= i < |longer| :: longer[i] == p[..k + 1 + i]
  }

  lemma MissingMade(p: Path, k: nat, missing: seq<Path>, dirs: set<Path>)
    requires Rooted(dirs) && LongerPrefixes(p, k, missing) && p[..k] in dirs && forall d | d in missing :: d !in dirs
    ensures Made(missing, dirs, dirs + Prefixes(p))
  {
    PrefixesIn(dirs, p[..k]);
    forall i | 0 <= i < |missing| ensures MadeNext(missing[i], missing[..i], dirs) {
      assert Parent(missing[i]) == p[..k + i];
      if i > 0 {
        assert missing[..i][i - 1] == missing[i - 1] == p[..k + i];
      }
      forall j | 0 <= j < i ensures missing[j] != missing[i] {
        assert |missing[j]| == k + 1 + j;
      }
    }
    forall q | q in Prefixes(p) ensures q in dirs || q in missing {
      var i :| 0 <= i <= |p| && q == p[..i];
      if i <= k {
        assert q == p[..k][..i] && q in Prefixes(p[..k]);
      } else {
        assert missing[i - k - 1] == q;
      }
    }
    forall q | q in missing ensures q in Prefixes(p) {
      var i :| 0 <= i < |missing| && missing[i] == q;
    }
  }

  lemma MadeRooted(created: seq<Path>, was: set<Path>, now: set<Path>)
    requires Rooted(was) && Made(created, was, now)
    ensures Rooted(now)
  {
    forall d | d in now ensures d == [] || Parent(d) in now {
      if d !in was {
        var i :| 0 <= i < |created| && created[i] == d;
        assert MadeNext(created[i], created[..i], was);
        assert Parent(d) in created[..i] ==> Parent(d) in created;
      }
    }
  }

  lemma MadeMore(first: seq<Path>, second: seq<Path>, was: set<Path>, then': set<Path>, now: set<Path>)
    requires Made(first, was, then') && Made(second, then', now)
    ensures Made(first + second, was, now)
  {
    var all := first + second;
    forall i | 0 <= i < |all| ensures MadeNext(all[i], all[..i], was) {
      if i < |first| {
        assert MadeNext(first[i], first[..i], was) && all[..i] == first[..i];
      } else {
        assert MadeNext(second[i - |first|], second[..i - |first|], then');
        assert all[..i] == first + second[..i - |first|];
      }
    }
  }

  method EnsureParent(fs: FileSystem, parent: Path) returns (created: Option<seq<Path>>)
    requires fs.Valid()
    modifies fs`dirs
    ensures fs.Valid()
    ensures created.Some? ==> fs.dirs == old(fs.dirs) + Prefixes(parent)
    ensures created.Some? ==> forall d | d in created.value :: d !in old(fs.dirs)
    ensures created.None? ==> fs.dirs == old(fs.dirs) && (fs.mayRaise || !(Prefixes(parent) !! fs.files.Keys))
    ensures created.Some? && Rooted(old(fs.dirs)) ==> Made(created.value, old(fs.dirs), fs.dirs)
  {
    var missing: seq<Path> := [];
    var current := parent;
    while !fs.Exists(current)
      invariant forall d | d in missing :: d !in fs.dirs
      invariant |current| <= |parent| && current == parent[..|current|] && LongerPrefixes(parent, |current|, missing)
      decreases |current|
    {
      missing := [current] + missing;
      current := Parent(current);
    }
    assert current in Prefixes(parent);
    if current in fs.dirs && Rooted(fs.dirs) {
      MissingMade(parent, |current|, missing, fs.dirs);
    }
    var ok := fs.Mkdir(parent);
    created := if ok then Some(missing) else None;
  }

  /** Writes the staged content into a temporary file beside its target. */
  method PrepareFile(fs: FileSystem, c: StagedFile, reserved: set<Path>) returns (temp: Option<Path>)
    requires fs.Valid() && c.content.Some?
    modifies fs`files
    ensures fs.Valid()
    ensures temp.Some? ==> temp.value !in old(fs.files) && temp.value !in reserved
    ensures temp.Some? ==> fs.files == old(fs.files)[temp.value := Staged(c)]
    ensures temp.None? ==> fs.mayRaise && AgreeOn(old(fs.files), fs.files, old(fs.files).Keys + reserved)
  {
    temp := fs.Mkstemp(Parent(c.path), reserved);
    if temp.None? {
      return;
    }
    var ok := fs.Write(temp.value, c.content.value);
    if ok {
      ok := fs.Chmod(temp.value, Staged(c).mode);
      if ok {
        return;
      }
    }
    var _ := fs.Unlink(temp.value, true);
    temp := None;
  }

  lemma AgreeKeepsConsistent(before: Files, was: Files, now: Files, changes: seq<StagedFile>, j: Journal)
    requires Consistent(before, was, changes, j)
    requires AgreeOn(was, now, was.Keys + Targets(changes))
    ensures Consistent(before, now, changes, j)
  {
    forall p | p in before.Keys - Targets(changes) ensures Same(before, now, p) {
      assert Same(before, was, p) && Same(was, now, p);
    }
    forall c | c in changes ensures Held(before, now, j, c.path) && Ready(now, j, c) {
      assert c.path in Targets(changes);
      assert Held(before, was, j, c.path) && Ready(was, j, c);
    }
  }

  /** Creates one target's directory and, unless it is a deletion, its temporary file. */
  method PrepareOne(fs: FileSystem, changes: seq<StagedFile>, j0: Journal, c: StagedFile, ghost before: Files)
    returns (err: Option<Cause>, j: Journal, created: seq<Path>)
    requires fs.Valid() && Consistent(before, fs.files, changes, j0) && before.Keys <= fs.files.Keys
    requires c in changes && c.path !in j0.prepared && j0.backups == map[] && j0.installed == {}
    modifies fs
    ensures fs.Valid() && Consistent(before, fs.files, changes, j) && before.Keys <= fs.files.Keys
    ensures j == j0.(prepared := j.prepared)
    ensures err.None? ==> fs.dirs == old(fs.dirs) + Prefixes(Parent(c.path))
    ensures err.None? ==> j.prepared.Keys == j0.prepared.Keys + if c.content.Some? then {c.path} else {}
    ensures err.Some? ==> err.value == OsError && (fs.mayRaise || Blocked(old(fs.files), c))
    ensures err.None? ==> !Blocked(old(fs.files), c)
    ensures !fs.mayRaise && Tracked(before, old(fs.files), changes, j0) ==> Tracked(before, fs.files, changes, j)
    ensures fs.dirs == old(fs.dirs) || fs.dirs == old(fs.dirs) + Prefixes(Parent(c.path))
    ensures forall d | d in created :: d !in old(fs.dirs)
    ensures forall p | p in Reserved(changes) && p in fs.files :: p in old(fs.files)
    ensures Rooted(old(fs.dirs)) ==> Made(created, old(fs.dirs), fs.dirs)
  {
    j, err, created := j0, Some(OsError), [];
    var made := EnsureParent(fs, Parent(c.path));
    if made.None? {
      return;
    }
    created := made.value;
    if c.content.Some? {
      var temp := PrepareFile(fs, c, Reserved(changes));
      if temp.None? {
        AgreeKeepsConsistent(before, old(fs.files), fs.files, changes, j);
        return;
      }
      AfterPrepare(before, old(fs.files), fs.files, changes, j, c, temp.value);
      TrackedAfterPrepare(before, old(fs.files), fs.files, changes, j, c.path, temp.value);
      j := j.(prepared := j.prepared[c.path := temp.value]);
    }
    err := None;
  }

  /** The changes before `i` are prepared if they have content, and no other is. */
  ghost predicate PreparedUpTo(changes: seq<StagedFile>, j: Journal, i: nat) {
    && (forall k | 0 <= k < i && k < |changes| && changes[k].content.Some? :: changes[k].path in j.prepared)
    && (forall k | i <= k < |changes| :: changes[k].path !in j.prepared)
  }

  lemma PreparedMore(changes: seq<StagedFile>, was: Journal, j: Journal, i: nat)
    requires Unique(changes) && i < |changes| && PreparedUpTo(changes, was, i)
    requires j.prepared.Keys == was.prepared.Keys + if changes[i].content.Some? then {changes[i].path} else {}
    ensures PreparedUpTo(changes, j, i + 1)
  {
    forall k | 0 <= k < i + 1 && changes[k].content.Some? ensures changes[k].path in j.prepared {
      assert k < i ==> changes[k].path in was.prepared.Keys;
      assert changes[k].path in j.prepared.Keys;
    }
    forall k | i + 1 <= k < |changes| ensures changes[k].path !in j.prepared {
      assert changes[k].path !in was.prepared.Keys && changes[k].path != changes[i].path;
      assert changes[k].path !in j.prepared.Keys;
    }
  }

  lemma PreparedAll(changes: seq<StagedFile>, j: Journal)
    requires PreparedUpTo(changes, j, |changes|)
    ensures forall c | c in changes && c.content.Some? :: c.path in j.prepared
  {
  }

  /** The changes before `i` have their directories, and nothing was in the way. */
  ghost predicate ParentsUpTo(changes: seq<StagedFile>, before: Files, dirs: set<Path>, i: nat) {
    forall k | 0 <= k < i && k < |changes| :: !Blocked(before, changes[k]) && Prefixes(Parent(changes[k].path)) <= dirs
  }

  lemma ParentsMade(changes: seq<StagedFile>, before: Files, then': set<Path>, now: set<Path>, i: nat)
    requires ParentsUpTo(changes, before, then', i) && i < |changes| && then' <= now
    requires !Blocked(before, changes[i]) && Prefixes(Parent(changes[i].path)) <= now
    ensures ParentsUpTo(changes, before, now, i + 1)
  {
  }

  lemma ParentsAll(changes: seq<StagedFile>, before: Files, dirs: set<Path>)
    requires ParentsUpTo(changes, before, dirs, |changes|)
    ensures forall c | c in changes :: !Blocked(before, c) && Prefixes(Parent(c.path)) <= dirs
  {
  }

  /** Directories that were not there. */
  ghost predicate AllNew(created: seq<Path>, dirs: set<Path>) {
    forall d | d in created :: d !in dirs
  }

  lemma AllNewMore(first: seq<Path>, second: seq<Path>, was: set<Path>, then': set<Path>)
    requires AllNew(first, was) && AllNew(second, then') && was <= then'
    ensures AllNew(first + second, was)
  {
  }

  lemma MadeOneMore(first: seq<Path>, second: seq<Path>, was: set<Path>, then': set<Path>, now: set<Path>)
    requires Rooted(was) ==> Made(first, was, then')
    requires Rooted(then') ==> Made(second, then', now)
    ensures Rooted(was) ==> Made(first + second, was, now)
  {
    if Rooted(was) {
      MadeRooted(first, was, then');
      MadeMore(first, second, was, then', now);
    }
  }

  lemma BlockedLater(before: Files, now: Files, c: StagedFile)
    requires before.Keys <= now.Keys && !Blocked(now, c)
    ensures !Blocked(before, c)
  {
  }

  /** Only ancestors of targets were made. */
  ghost predicate OnlyParents(changes: seq<StagedFile>, was: set<Path>, now: set<Path>) {
    was <= now && forall d | d in now && d !in was :: exists c :: c in changes && d in Prefixes(Parent(c.path))
  }

  lemma ParentsMore(changes: seq<StagedFile>, was: set<Path>, then': set<Path>, now: set<Path>, c: StagedFile)
    requires OnlyParents(changes, was, then') && c in changes
    requires now == then' || now == then' + Prefixes(Parent(c.path))
    ensures OnlyParents(changes, was, now)
  {
  }

  /** No file was made where a target or an ancestor of one is to be. */
  ghost predicate NoneReserved(changes: seq<StagedFile>, was: Files, now: Files) {
    forall p | p in Reserved(changes) && p in now :: p in was
  }

  lemma ObstacleIsOld(changes: seq<StagedFile>, was: Files, now: Files, c: StagedFile)
    requires NoneReserved(changes, was, now) && c in changes
    ensures Blocked(now, c) ==> Blocked(was, c)
  {
    assert forall p | p in Prefixes(Parent(c.path)) :: p in Reserved(changes);
  }

  method PrepareAll(fs: FileSystem, changes: seq<StagedFile>)
    returns (err: Option<Cause>, j: Journal, createdDirs: seq<Path>)
    requires fs.Valid() && Unique(changes)
    modifies fs
    ensures fs.Valid()
    ensures Consistent(old(fs.files), fs.files, changes, j) && j.backups == map[] && j.installed == {}
    ensures err.Some? ==> err == Some(OsError) && (fs.mayRaise || exists c :: c in changes && Blocked(old(fs.files), c))
    ensures err.None? ==> forall c | c in changes && c.content.Some? :: c.path in j.prepared
    ensures err.None? ==> forall c | c in changes :: !Blocked(old(fs.files), c) && Prefixes(Parent(c.path)) <= fs.dirs
    ensures OnlyParents(changes, old(fs.dirs), fs.dirs) && AllNew(createdDirs, old(fs.dirs))
    ensures Rooted(old(fs.dirs)) ==> Made(createdDirs, old(fs.dirs), fs.dirs)
    ensures !fs.mayRaise ==> Tracked(old(fs.files), fs.files, changes, j)
  {
    j, createdDirs, err := Journal(map[], map[], {}), [], None;
    for i := 0 to |changes|
      invariant fs.Valid() && Consistent(old(fs.files), fs.files, changes, j) && j.backups == map[] && j.installed == {}
      invariant old(fs.files).Keys <= fs.files.Keys && err.None?
      invariant PreparedUpTo(changes, j, i)
      invariant ParentsUpTo(changes, old(fs.files), fs.dirs, i)
      invariant !fs.mayRaise ==> Tracked(old(fs.files), fs.files, changes, j)
      invariant OnlyParents(changes, old(fs.dirs), fs.dirs) && AllNew(createdDirs, old(fs.dirs))
      invariant Rooted(old(fs.dirs)) ==> Made(createdDirs, old(fs.dirs), fs.dirs)
      invariant NoneReserved(changes, old(fs.files), fs.files)
    {
      assert changes[i] in changes;
      ghost var files, dirs, prepared := fs.files, fs.dirs, j;
      var created;
      err, j, created := PrepareOne(fs, changes, j, changes[i], old(fs.files));
      AllNewMore(createdDirs, created, old(fs.dirs), dirs);
      MadeOneMore(createdDirs, created, old(fs.dirs), dirs, fs.dirs);
      createdDirs := createdDirs + created;
      ParentsMore(changes, old(fs.dirs), dirs, fs.dirs, changes[i]);
      ObstacleIsOld(changes, old(fs.files), files, changes[i]);
      if err.Some? {
        return;
      }
      BlockedLater(old(fs.files), files, changes[i]);
      ParentsMade(changes, old(fs.files), dirs, fs.dirs, i);
      PreparedMore(changes, prepared, j, i);
    }
    PreparedAll(changes, j);
    ParentsAll(changes, old(fs.files), fs.dirs);
  }

  method AssertBaselines(fs: FileSystem, changes: seq<StagedFile>) returns (err: Option<Cause>)
    requires fs.Valid()
    ensures err == Some(OsError) ==> fs.mayRaise
    ensures err.Some? && err != Some(OsError) ==>
              err == Some(Conflict) && exists c :: c in changes && (!BaselineHolds(fs.files, c) || c.path in fs.dirs)
    ensures err.None? ==> forall c | c in changes :: BaselineHolds(fs.files, c) && c.path !in fs.dirs
  {
    for i := 0 to |changes|
      invariant forall k | 0 <= k < i :: BaselineHolds(fs.files, changes[k]) && changes[k].path !in fs.dirs
    {
      var check := CheckBaseline(fs, changes[i]);
      if check != Matches {
        return Some(if check == Differs then Conflict else OsError);
      }
    }
    err := None;
  }

  /** Reserves an unused name beside the target. */
  method ReserveBackupPath(fs: FileSystem, dir: Path, reserved: set<Path>) returns (r: Option<Path>)
    requires fs.Valid()
    modifies fs`files
    ensures fs.Valid()
    ensures r.Some? ==> r.value !in fs.files && r.value !in fs.dirs && r.value !in reserved && fs.files == old(fs.files)
    ensures AgreeOn(old(fs.files), fs.files, old(fs.files).Keys + reserved)
    ensures r.None? ==> fs.mayRaise
  {
    r := fs.Mkstemp(dir, reserved);
    if r.Some? {
      var ok := fs.Unlink(r.value, false);
      if ok {
        assert fs.files == old(fs.files);
      } else {
        r := None;
      }
    }
  }

  /** Re-checks one baseline and moves the original aside; a raise after the rename still records the backup. */
  method BackUpOne(fs: FileSystem, changes: seq<StagedFile>, j0: Journal, c: StagedFile, ghost before: Files)
    returns (err: Option<Cause>, j: Journal)
    requires fs.Valid() && Consistent(before, fs.files, changes, j0) && j0.installed == {}
    requires c in changes && c.path !in j0.backups
    modifies fs`files
    ensures fs.Valid() && Consistent(before, fs.files, changes, j)
    ensures j == j0.(backups := j.backups) && j0.backups.Keys <= j.backups.Keys <= j0.backups.Keys + {c.path}
    ensures forall t | t in j.backups :: j.backups[t] !in fs.dirs || (t in j0.backups && j.backups[t] == j0.backups[t])
    ensures err.None? ==> (c.path in before ==> c.path in j.backups)
    ensures err != Some(DuplicatePath)
    ensures err.Some? ==> (err.value == OsError && fs.mayRaise) || !BaselineHolds(before, c) || c.path in fs.dirs
    ensures !fs.mayRaise && Tracked(before, old(fs.files), changes, j0) ==> Tracked(before, fs.files, changes, j)
  {
    j, err := j0, None;
    assert Held(before, fs.files, j, c.path);
    var check := CheckBaseline(fs, c);
    if check != Matches {
      err := Some(if check == Differs then Conflict else OsError);
      return;
    }
    if fs.Exists(c.path) {
      err := Some(OsError);
      ghost var was := fs.files;
      var backup := ReserveBackupPath(fs, Parent(c.path), Targets(changes));
      if backup.None? {
        AgreeKeepsConsistent(before, was, fs.files, changes, j);
        return;
      }
      FreshForOriginals(before, fs.files, changes, j, backup.value);
      var ok := fs.Replace(c.path, backup.value);
      if !ok {
        return;
      }
      AfterBackup(before, was, fs.files, changes, j, c, backup.value);
      TrackedAfterBackup(before, was, fs.files, changes, j, c.path, backup.value);
      j := j.(backups := j.backups[c.path := backup.value]);
      ok := fs.FsyncDirectory(Parent(c.path));
      if ok {
        err := None;
      }
    }
  }

  lemma TrackedAfterBackup(before: Files, was: Files, now: Files, changes: seq<StagedFile>, j: Journal, t: Path, backup: Path)
    requires now.Keys <= was.Keys + {backup} && t !in j.backups
    ensures Tracked(before, was, changes, j) ==> Tracked(before, now, changes, j.(backups := j.backups[t := backup]))
  {
    var k := j.(backups := j.backups[t := backup]);
    assert k.backups[t] == backup && backup in k.backups.Values;
    forall p | p in j.backups.Values ensures p in k.backups.Values {
      var u :| u in j.backups && j.backups[u] == p;
      assert k.backups[u] == p;
    }
  }

  lemma TrackedAfterPrepare(before: Files, was: Files, now: Files, changes: seq<StagedFile>, j: Journal, t: Path, temp: Path)
    requires now.Keys <= was.Keys + {temp} && t !in j.prepared
    ensures Tracked(before, was, changes, j) ==> Tracked(before, now, changes, j.(prepared := j.prepared[t := temp]))
  {
    var k := j.(prepared := j.prepared[t := temp]);
    assert k.prepared[t] == temp && temp in k.prepared.Values;
    forall p | p in j.prepared.Values ensures p in k.prepared.Values {
      var u :| u in j.prepared && j.prepared[u] == p;
      assert k.prepared[u] == p;
    }
  }

  /** Every original among the first `i` targets has been moved aside, and no other. */
  ghost predicate BackedUpTo(before: Files, changes: seq<StagedFile>, backups: map<Path, Path>, i: nat) {
    && (forall k | 0 <= k < i && k < |changes| && changes[k].path in before :: changes[k].path in backups)
    && (forall k | i <= k < |changes| :: changes[k].path !in backups)
  }

  lemma BackedUpMore(before: Files, changes: seq<StagedFile>, old': map<Path, Path>, new': map<Path, Path>, i: nat)
    requires Unique(changes) && i < |changes| && BackedUpTo(before, changes, old', i)
    requires old'.Keys <= new'.Keys <= old'.Keys + {changes[i].path} && (changes[i].path in before ==> changes[i].path in new')
    ensures BackedUpTo(before, changes, new', i + 1)
  {
  }

  method BackUpAll(fs: FileSystem, changes: seq<StagedFile>, j0: Journal, ghost before: Files)
    returns (err: Option<Cause>, j: Journal)
    requires fs.Valid() && Consistent(before, fs.files, changes, j0) && j0.backups == map[] && j0.installed == {}
    modifies fs`files
    ensures fs.Valid()
    ensures Consistent(before, fs.files, changes, j) && j == j0.(backups := j.backups)
    ensures err != Some(DuplicatePath)
    ensures err.None? ==> forall c | c in changes && c.path in before :: c.path in j.backups
    ensures forall t | t in j.backups :: j.backups[t] !in fs.dirs
    ensures err.Some? ==> (err == Some(OsError) && fs.mayRaise) || exists c :: c in changes && (!BaselineHolds(before, c) || c.path in fs.dirs)
    ensures !fs.mayRaise && Tracked(before, old(fs.files), changes, j0) ==> Tracked(before, fs.files, changes, j)
  {
    j, err := j0, None;
    for i := 0 to |changes|
      invariant fs.Valid() && Consistent(before, fs.files, changes, j) && j == j0.(backups := j.backups) && err.None?
      invariant !fs.mayRaise && Tracked(before, old(fs.files), changes, j0) ==> Tracked(before, fs.files, changes, j)
      invariant BackedUpTo(before, changes, j.backups, i)
      invariant forall t | t in j.backups :: j.backups[t] !in fs.dirs
    {
      ghost var earlier := j.backups;
      err, j := BackUpOne(fs, changes, j, changes[i], before);
      if err.Some? {
        return;
      }
      BackedUpMore(before, changes, earlier, j.backups, i);
    }
  }

  /** A name unused on disk and by every target is not the name of an original either. */
  lemma FreshForOriginals(before: Files, now: Files, changes: seq<StagedFile>, j: Journal, p: Path)
    requires Consistent(before, now, changes, j)
    requires p !in now && p !in Targets(changes)
    ensures p !in before
  {
    assert p in before ==> Same(before, now, p);
  }

  /** Installs one prepared file; a raise after the rename still records it as installed. */
  method InstallOne(fs: FileSystem, changes: seq<StagedFile>, j0: Journal, c: StagedFile, ghost before: Files)
    returns (err: Option<Cause>, j: Journal)
    requires fs.Valid() && Consistent(before, fs.files, changes, j0)
    requires c in changes && c.path in j0.prepared && c.path !in j0.installed && (c.path in before ==> c.path in j0.backups)
    modifies fs`files
    ensures fs.Valid() && Consistent(before, fs.files, changes, j)
    ensures err != Some(DuplicatePath)
    ensures j == j0.(installed := j.installed)
    ensures err.None? ==> j.installed == j0.installed + {c.path}
    ensures err.Some? ==> (err == Some(OsError) && fs.mayRaise) || !BaselineHolds(before, c) || c.path in fs.dirs
    ensures fs.files.Keys <= old(fs.files).Keys + Targets(changes)
  {
    j, err := j0, None;
    assert Held(before, fs.files, j, c.path) && Ready(fs.files, j, c);
    if c.path !in j.backups {
      var check := CheckBaseline(fs, c);
      if check != Matches {
        err := Some(if check == Differs then Conflict else OsError);
        return;
      }
    }
    ghost var was := fs.files;
    var ok := fs.Replace(j.prepared[c.path], c.path);
    if !ok {
      err := Some(OsError);
      return;
    }
    AfterInstall(before, was, fs.files, changes, j, c);
    j := j.(installed := j.installed + {c.path});
    ok := fs.FsyncDirectory(Parent(c.path));
    if !ok {
      err := Some(OsError);
    }
  }

  /** The changes before `i` are installed if they were prepared, and no other is. */
  ghost predicate InstalledUpTo(changes: seq<StagedFile>, j: Journal, i: nat) {
    && (forall k | 0 <= k < i && k < |changes| && changes[k].path in j.prepared :: changes[k].path in j.installed)
    && (forall k | i <= k < |changes| :: changes[k].path !in j.installed)
  }

  lemma InstalledMore(changes: seq<StagedFile>, j: Journal, i: nat)
    requires Unique(changes) && i < |changes| && InstalledUpTo(changes, j, i)
    ensures InstalledUpTo(changes, if changes[i].path in j.prepared then j.(installed := j.installed + {changes[i].path}) else j, i + 1)
  {
  }

  lemma InstalledAll(changes: seq<StagedFile>, j: Journal)
    requires InstalledUpTo(changes, j, |changes|)
    ensures forall c | c in changes && c.path in j.prepared :: c.path in j.installed
  {
  }

  method InstallAll(fs: FileSystem, changes: seq<StagedFile>, j0: Journal, ghost before: Files)
    returns (err: Option<Cause>, j: Journal)
    requires fs.Valid() && Consistent(before, fs.files, changes, j0) && j0.installed == {}
    requires forall c | c in changes && c.path in before :: c.path in j0.backups
    modifies fs`files
    ensures fs.Valid()
    ensures Consistent(before, fs.files, changes, j) && j == j0.(installed := j.installed)
    ensures err != Some(DuplicatePath)
    ensures err.None? ==> forall c | c in changes && c.path in j.prepared :: c.path in j.installed
    ensures err.Some? ==> (err == Some(OsError) && fs.mayRaise) || exists c :: c in changes && (!BaselineHolds(before, c) || c.path in fs.dirs)
    ensures fs.files.Keys <= old(fs.files).Keys + Targets(changes)
  {
    j, err := j0, None;
    for i := 0 to |changes|
      invariant fs.files.Keys <= old(fs.files).Keys + Targets(changes)
      invariant fs.Valid() && Consistent(before, fs.files, changes, j) && j == j0.(installed := j.installed)
      invariant err.None? && InstalledUpTo(changes, j, i)
    {
      assert changes[i] in changes;
      InstalledMore(changes, j, i);
      if changes[i].path in j.prepared {
        err, j := InstallOne(fs, changes, j, changes[i], before);
        if err.Some? {
          return;
        }
      }
    }
    InstalledAll(changes, j);
  }

  // -------------------------------------------------------------------------
  // Rollback and clean-up
  // -------------------------------------------------------------------------

  /** After its turn in the rollback a target is restored, or an error was noted and its original survives. */
  ghost predicate Rolled(before: Files, now: Files, j: Journal, failed: bool, t: Path) {
    && (Same(before, now, t) || (failed && (t in before ==> SavedAt(before, now, j.backups, t))))
    && (t in j.backups && j.backups[t] in now ==> SavedAt(before, now, j.backups, t))
  }

  /** Only the target and its own backup name change in one rollback turn. */
  lemma OthersKept(before: Files, was: Files, now: Files, changes: seq<StagedFile>, j: Journal, failed: bool, t: Path, u: Path)
    requires FreshNames(before.Keys + Targets(changes), j) && t in Targets(changes) && u in Targets(changes) && t != u
    requires forall p | p in was.Keys + now.Keys :: p != t && (t in j.backups ==> p != j.backups[t]) ==> Same(was, now, p)
    ensures Held(before, was, j, u) ==> Held(before, now, j, u)
    ensures Rolled(before, was, j, failed, u) ==> Rolled(before, now, j, failed, u)
  {
    assert u in was.Keys + now.Keys ==> Same(was, now, u);
    if u in j.backups {
      assert j.backups[u] in was.Keys + now.Keys ==> Same(was, now, j.backups[u]);
    }
  }

  method RollBackTarget(fs: FileSystem, t: Path, j: Journal, ghost before: Files, ghost changes: seq<StagedFile>)
    returns (ok: bool)
    requires fs.Valid() && FreshNames(before.Keys + Targets(changes), j) && t in Targets(changes)
    requires Held(before, fs.files, j, t)
    modifies fs`files
    ensures fs.Valid()
    ensures Rolled(before, fs.files, j, !ok, t)
    ensures !fs.mayRaise && t !in j.backups && t !in j.installed ==> ok
    ensures fs.files.Keys <= old(fs.files).Keys + {t}
    ensures forall p | p in old(fs.files).Keys + fs.files.Keys ::
              p != t && (t in j.backups ==> p != j.backups[t]) ==> Same(old(fs.files), fs.files, p)
  {
    if t in j.installed && fs.Exists(t) && t !in fs.dirs {
      ok := fs.Unlink(t, false);
      if !ok {
        return;
      }
    }
    if t in j.backups {
      if !fs.Exists(j.backups[t]) {
        return false;
      }
      ok := fs.Replace(j.backups[t], t);
      if !ok {
        return;
      }
      ok := fs.FsyncDirectory(Parent(t));
      return;
    }
    ok := true;
  }

  method RollBack(fs: FileSystem, changes: seq<StagedFile>, j: Journal, createdDirs: seq<Path>,
                  ghost before: Files, ghost kept: set<Path>)
    returns (clean: bool)
    requires fs.Valid() && Consistent(before, fs.files, changes, j) && [] in kept && kept <= fs.dirs && forall d | d in createdDirs :: d !in kept
    modifies fs
    ensures fs.Valid()
    ensures AgreeOn(before, fs.files, before.Keys - Targets(changes))
    ensures forall c | c in changes :: Rolled(before, fs.files, j, !clean, c.path)
    ensures kept <= fs.dirs <= old(fs.dirs)
    ensures !fs.mayRaise && j.backups == map[] && j.installed == {} ==> clean
    ensures fs.files.Keys <= old(fs.files).Keys + Targets(changes)
    ensures !fs.mayRaise ==> forall c | c in changes && c.path in j.prepared :: j.prepared[c.path] !in fs.files
    ensures !fs.mayRaise && Rooted(kept) && FilesIn(fs.files.Keys, kept) && Made(createdDirs, kept, old(fs.dirs)) ==> fs.dirs == kept
  {
    clean := true;
    var i := |changes|;
    while i > 0
      invariant 0 <= i <= |changes| && fs.Valid() && fs.dirs == old(fs.dirs)
      invariant AgreeOn(before, fs.files, before.Keys - Targets(changes))
      invariant forall k | 0 <= k < i :: Held(before, fs.files, j, changes[k].path)
      invariant forall k | i <= k < |changes| :: Rolled(before, fs.files, j, !clean, changes[k].path)
      invariant !fs.mayRaise && j.backups == map[] && j.installed == {} ==> clean
      invariant fs.files.Keys <= old(fs.files).Keys + Targets(changes)
    {
      i := i - 1;
      var t := changes[i].path;
      ghost var was := fs.files;
      var ok := RollBackTarget(fs, t, j, before, changes);
      forall k | 0 <= k < |changes| && k != i
        ensures Held(before, was, j, changes[k].path) ==> Held(before, fs.files, j, changes[k].path)
        ensures Rolled(before, was, j, !clean, changes[k].path) ==> Rolled(before, fs.files, j, !clean, changes[k].path)
      {
        assert changes[k] in changes && changes[i] in changes;
        OthersKept(before, was, fs.files, changes, j, !clean, t, changes[k].path);
      }
      forall p | p in before.Keys - Targets(changes) ensures Same(before, fs.files, p) {
        assert Same(before, was, p) && Same(was, fs.files, p);
      }
      clean := clean && ok;
    }
    label turned:
    var swept := RemoveAll(fs, changes, j.prepared, before.Keys + Targets(changes) + j.backups.Values);
    forall c | c in changes ensures Rolled(before, fs.files, j, !clean, c.path) {
      assert c.path in Targets(changes);
      assert Rolled(before, old@turned(fs.files), j, !clean, c.path);
      if c.path in j.backups {
        assert Same(old@turned(fs.files), fs.files, j.backups[c.path]);
      }
    }
    clean := clean && swept;
    RemoveDirs(fs, createdDirs, kept);
  }

  /** These files are in these directories. */
  ghost predicate FilesIn(names: set<Path>, dirs: set<Path>) {
    forall p | p in names :: p == [] || Parent(p) in dirs
  }

  /** The last directory made is empty, and without it the others are those made. */
  lemma LastMade(created: seq<Path>, was: set<Path>, now: set<Path>, names: set<Path>)
    requires created != [] && Made(created, was, now) && Rooted(was) && FilesIn(names, was)
    ensures var last := created[|created| - 1];
            && last in now && Made(created[..|created| - 1], was, now - {last})
            && forall q | q in names + now :: q == [] || Parent(q) != last
  {
    var init, last := created[..|created| - 1], created[|created| - 1];
    assert created == init + [last];
    assert MadeNext(created[|init|], created[..|init|], was);
    forall i | 0 <= i < |init| ensures MadeNext(init[i], init[..i], was) {
      assert MadeNext(created[i], created[..i], was) && created[..i] == init[..i];
    }
    forall q | q in now && q != [] ensures Parent(q) != last {
      if q !in was {
        var i :| 0 <= i < |created| && created[i] == q;
        assert MadeNext(created[i], created[..i], was);
        assert Parent(q) in created[..i] ==> Parent(q) in init;
      }
    }
  }

  method RemoveDirs(fs: FileSystem, createdDirs: seq<Path>, ghost kept: set<Path>)
    requires fs.Valid() && [] in kept && kept <= fs.dirs && forall d | d in createdDirs :: d !in kept
    modifies fs`dirs
    ensures fs.Valid()
    ensures kept <= fs.dirs <= old(fs.dirs)
    ensures !fs.mayRaise && Rooted(kept) && FilesIn(fs.files.Keys, kept) && Made(createdDirs, kept, old(fs.dirs)) ==> fs.dirs == kept
  {
    var i := |createdDirs|;
    ghost var exact := !fs.mayRaise && Rooted(kept) && FilesIn(fs.files.Keys, kept) && Made(createdDirs, kept, fs.dirs);
    assert createdDirs[..i] == createdDirs;
    while i > 0
      invariant 0 <= i <= |createdDirs|
      invariant fs.Valid() && kept <= fs.dirs <= old(fs.dirs)
      invariant exact ==> Made(createdDirs[..i], kept, fs.dirs)
    {
      i := i - 1;
      if exact {
        LastMade(createdDirs[..i + 1], kept, fs.dirs, fs.files.Keys);
        assert createdDirs[..i + 1][..i] == createdDirs[..i];
      }
      var _ := fs.Rmdir(createdDirs[i]);
    }
  }

  /** Deletes the recorded files, in the order they were recorded; none of `protected` is among them. */
  method RemoveAll(fs: FileSystem, changes: seq<StagedFile>, recorded: map<Path, Path>, ghost protected: set<Path>)
    returns (ok: bool)
    requires fs.Valid() && forall t | t in recorded :: recorded[t] !in protected
    modifies fs`files
    ensures fs.Valid()
    ensures AgreeOn(old(fs.files), fs.files, protected)
    ensures fs.files.Keys <= old(fs.files).Keys
    ensures !fs.mayRaise ==> ok && forall c | c in changes && c.path in recorded :: recorded[c.path] !in fs.files
  {
    ok := true;
    for i := 0 to |changes|
      invariant fs.Valid() && AgreeOn(old(fs.files), fs.files, protected)
      invariant fs.files.Keys <= old(fs.files).Keys
      invariant !fs.mayRaise ==> ok && forall k | 0 <= k < i && changes[k].path in recorded :: recorded[changes[k].path] !in fs.files
    {
      if changes[i].path in recorded {
        var removed := fs.Unlink(recorded[changes[i].path], true);
        ok := ok && removed;
      }
    }
  }

  /** Deletes the backups; an error while closing a synchronised directory escapes. */
  method RemoveBackups(fs: FileSystem, changes: seq<StagedFile>, backups: map<Path, Path>, ghost protected: set<Path>)
    returns (ok: bool)
    requires fs.Valid() && forall t | t in backups :: backups[t] !in protected
    modifies fs`files
    ensures fs.Valid()
    ensures AgreeOn(old(fs.files), fs.files, protected)
    ensures !ok ==> fs.mayRaise && fs.closeMayRaise
    ensures fs.files.Keys <= old(fs.files).Keys
    ensures !fs.mayRaise ==> forall c | c in changes && c.path in backups :: backups[c.path] !in fs.files
  {
    for i := 0 to |changes|
      invariant fs.Valid() && AgreeOn(old(fs.files), fs.files, protected)
      invariant fs.files.Keys <= old(fs.files).Keys
      invariant !fs.mayRaise ==> forall k | 0 <= k < i && changes[k].path in backups :: backups[changes[k].path] !in fs.files
    {
      if changes[i].path in backups {
        var removed := fs.Unlink(backups[changes[i].path], true);
        if removed {
          ok := fs.FsyncDirectory(Parent(backups[changes[i].path]));
          if !ok {
            return;
          }
        }
      }
    }
    ok := true;
  }

  /** What stops a commit when no call raises: first a file in the way of a directory, then a changed target. */
  ghost predicate AnyBlocked(files: Files, changes: seq<StagedFile>) {
    exists c :: c in changes && Blocked(files, c)
  }

  ghost predicate AnyObstructed(files: Files, dirs: set<Path>, changes: seq<StagedFile>) {
    exists c :: c in changes && !Unobstructed(files, dirs, changes, c)
  }

  /** After the directories are there, a target in the way is a directory or has changed. */
  lemma ObstructedNow(before: Files, now: Files, was: set<Path>, dirs: set<Path>, changes: seq<StagedFile>, j: Journal)
    requires Consistent(before, now, changes, j) && j.backups == map[] && j.installed == {}
    requires OnlyParents(changes, was, dirs) && forall c | c in changes :: !Blocked(before, c) && Prefixes(Parent(c.path)) <= dirs
    ensures forall c | c in changes :: BaselineHolds(now, c) <==> BaselineHolds(before, c)
    ensures forall c | c in changes ::
              Unobstructed(before, was, changes, c) <==> BaselineHolds(before, c) && c.path !in dirs
  {
    forall c | c in changes
      ensures BaselineHolds(now, c) <==> BaselineHolds(before, c)
      ensures Unobstructed(before, was, changes, c) <==> BaselineHolds(before, c) && c.path !in dirs
    {
      assert Held(before, now, j, c.path);
      assert forall d | d in changes :: Prefixes(Parent(d.path)) <= dirs;
    }
  }

  /** The three phases guarded by the commit's exception handler. */
  method Attempt(fs: FileSystem, changes: seq<StagedFile>)
    returns (err: Option<Cause>, j: Journal, createdDirs: seq<Path>)
    requires fs.Valid() && Unique(changes)
    modifies fs
    ensures fs.Valid()
    ensures Consistent(old(fs.files), fs.files, changes, j)
    ensures err.None? ==> Applied(old(fs.files), fs.files, changes)
    ensures err.None? ==> forall c | c in changes :: BaselineHolds(old(fs.files), c) && Prefixes(Parent(c.path)) <= fs.dirs
    ensures err == Some(OsError) ==> fs.mayRaise || AnyBlocked(old(fs.files), changes)
    ensures err.Some? && err != Some(OsError) ==> err == Some(Conflict) && AnyObstructed(old(fs.files), old(fs.dirs), changes)
    ensures !fs.mayRaise ==>
              && err == (if AnyBlocked(old(fs.files), changes) then Some(OsError)
                         else if AnyObstructed(old(fs.files), old(fs.dirs), changes) then Some(Conflict) else None)
              && (err.Some? ==> j.backups == map[] && j.installed == {})
              && Tracked(old(fs.files), fs.files, changes, j)
    ensures OnlyParents(changes, old(fs.dirs), fs.dirs) && forall d | d in createdDirs :: d !in old(fs.dirs)
    ensures Rooted(old(fs.dirs)) ==> Made(createdDirs, old(fs.dirs), fs.dirs)
    ensures forall t | t in j.backups :: j.backups[t] !in fs.dirs
  {
    ghost var before := old(fs.files);
    err, j, createdDirs := PrepareAll(fs, changes);
    if err.Some? {
      return;
    }
    ObstructedNow(before, fs.files, old(fs.dirs), fs.dirs, changes, j);
    err := AssertBaselines(fs, changes);
    if err.Some? {
      return;
    }
    err, j := BackUpAll(fs, changes, j, before);
    if err.Some? {
      return;
    }
    err, j := InstallAll(fs, changes, j, before);
    if err.None? {
      forall c | c in changes
        ensures if c.content.Some? then c.path in fs.files && fs.files[c.path] == Staged(c) else c.path !in fs.files
      {
        assert Held(before, fs.files, j, c.path) && Ready(fs.files, j, c);
      }
    }
  }

  /** Without raising calls nothing recorded is left over after the clean-up. */
  lemma NothingLeft(before: Files, settled: Files, now: Files, changes: seq<StagedFile>, j: Journal)
    requires Tracked(before, settled, changes, j) && now.Keys <= settled.Keys
    requires j.prepared.Keys <= Targets(changes) && j.backups.Keys <= Targets(changes)
    requires forall c | c in changes && c.path in j.prepared :: j.prepared[c.path] !in now
    requires forall c | c in changes && c.path in j.backups :: j.backups[c.path] !in now
    ensures forall p | p in now :: p in before || p in Targets(changes)
  {
    forall t | t in Targets(changes)
      ensures (t in j.prepared ==> j.prepared[t] !in now) && (t in j.backups ==> j.backups[t] !in now)
    {
      var c :| c in changes && c.path == t;
    }
    assert forall p | p in now :: p in settled && p !in j.prepared.Values && p !in j.backups.Values;
  }

  /**
   All or nothing, whatever raises. After an error the patch may be found installed in two cases only:
   a close that fails while the clean-up synchronises a directory, which needs `fs.closeMayRaise`, and
   a rollback that itself failed, which is reported as such and keeps every original. When no call raises
   the outcome is decided by what is on disk, no file is left over, and no directory after an abort.
   */
  method Commit(fs: FileSystem, changes: seq<StagedFile>) returns (r: Outcome)
    requires fs.Valid()
    modifies fs
    ensures fs.Valid()
    ensures r.Committed? ==> Applied(old(fs.files), fs.files, changes)
    ensures r.Aborted? ==> Restored(old(fs.files), fs.files, changes)
    ensures r == Aborted(DuplicatePath) <==> !Unique(changes)
    ensures r.Committed? || r == CleanupRaised(true) ==>
              forall c | c in changes :: BaselineHolds(old(fs.files), c) && Prefixes(Parent(c.path)) <= fs.dirs
    ensures r == Aborted(Conflict) ==> AnyObstructed(old(fs.files), old(fs.dirs), changes)
    ensures r == Aborted(OsError) ==> fs.mayRaise || AnyBlocked(old(fs.files), changes)
    ensures !fs.mayRaise && Unique(changes) ==>
              r == if AnyBlocked(old(fs.files), changes) then Aborted(OsError)
                   else if AnyObstructed(old(fs.files), old(fs.dirs), changes) then Aborted(Conflict)
                   else Committed
    ensures !fs.mayRaise ==> forall p | p in fs.files :: p in old(fs.files) || p in Targets(changes)
    ensures r.RollbackFailed? ==> Recoverable(old(fs.files), fs.files, changes, r.recovery)
    ensures r.RollbackFailed? ==> forall t | t in r.recovery :: SavedAt(old(fs.files), fs.files, r.recovery, t)
    ensures r.CleanupRaised? ==> fs.mayRaise && fs.closeMayRaise
    ensures r == CleanupRaised(true) ==> Applied(old(fs.files), fs.files, changes)
    ensures r == CleanupRaised(false) ==> Restored(old(fs.files), fs.files, changes)
    ensures old(fs.dirs) <= fs.dirs
    ensures r.Committed? ==> OnlyParents(changes, old(fs.dirs), fs.dirs)
    ensures r.Aborted? && !fs.mayRaise && Rooted(old(fs.dirs)) && FilesIn(old(fs.files).Keys, old(fs.dirs)) ==> fs.dirs == old(fs.dirs)
  {
    if changes == [] {
      return Committed;
    }
    var unique := AssertUniquePaths(changes);
    if !unique {
      return Aborted(DuplicatePath);
    }
    ghost var before := old(fs.files);
    var err, j, createdDirs := Attempt(fs, changes);
    ghost var protected := before.Keys + Targets(changes);
    ghost var tried := fs.files;
    if err.Some? {
      var clean := RollBack(fs, changes, j, createdDirs, before, old(fs.dirs));
      if !clean {
        var recovery := map t | t in j.backups && fs.Exists(j.backups[t]) :: j.backups[t];
        ghost var rolled := fs.files;
        var _ := RemoveAll(fs, changes, j.prepared, protected + j.backups.Values);
        RecoveryKept(before, rolled, fs.files, changes, j, recovery);
        return RollbackFailed(recovery);
      }
      if !fs.mayRaise {
        OnlyOldFiles(before, tried, fs.files, changes, j);
      }
    }
    ghost var settled := fs.files;
    var _ := RemoveAll(fs, changes, j.prepared, protected);
    var ok := RemoveBackups(fs, changes, j.backups, protected);
    CleanupKeeps(before, settled, fs.files, changes);
    if !fs.mayRaise {
      NothingLeft(before, settled, fs.files, changes, j);
    }
    if err.Some? {
      RolledBack(before, settled, changes, j);
    }
    if !ok {
      return CleanupRaised(err.None?);
    }
    r := if err.None? then Committed else Aborted(err.value);
  }

  /** When nothing was moved yet, a clean rollback leaves only files that were there. */
  lemma OnlyOldFiles(before: Files, tried: Files, now: Files, changes: seq<StagedFile>, j: Journal)
    requires Tracked(before, tried, changes, j) && now.Keys <= tried.Keys + Targets(changes)
    requires j.prepared.Keys <= Targets(changes) && j.backups == map[]
    requires forall c | c in changes && c.path in j.prepared :: j.prepared[c.path] !in now
    requires forall c | c in changes :: Rolled(before, now, j, false, c.path)
    ensures now.Keys <= before.Keys
  {
    forall p | p in now ensures p in before {
      if p in Targets(changes) {
        var c :| c in changes && c.path == p;
        assert Rolled(before, now, j, false, c.path);
      }
    }
  }

  /** A clean rollback has put back everything. */
  lemma RolledBack(before: Files, settled: Files, changes: seq<StagedFile>, j: Journal)
    requires AgreeOn(before, settled, before.Keys - Targets(changes))
    requires forall c | c in changes :: Rolled(before, settled, j, false, c.path)
    ensures Restored(before, settled, changes)
  {
    forall p | p in before.Keys + Targets(changes) ensures Same(before, settled, p) {
      if p in Targets(changes) {
        var c :| c in changes && c.path == p;
        assert Rolled(before, settled, j, false, c.path);
      }
    }
  }

  lemma CleanupKeeps(before: Files, settled: Files, now: Files, changes: seq<StagedFile>)
    requires AgreeOn(settled, now, before.Keys + Targets(changes))
    ensures Applied(before, settled, changes) ==> Applied(before, now, changes)
    ensures Restored(before, settled, changes) ==> Restored(before, now, changes)
  {
    forall c | c in changes ensures Same(settled, now, c.path) {
      assert c.path in Targets(changes);
    }
    if Applied(before, settled, changes) {
      forall p | p in before.Keys - Targets(changes) ensures Same(before, now, p) {
        assert Same(before, settled, p) && Same(settled, now, p);
      }
    }
    if Restored(before, settled, changes) {
      forall p | p in before.Keys + Targets(changes) ensures Same(before, now, p) {
        assert Same(before, settled, p) && Same(settled, now, p);
      }
    }
  }

  lemma RecoveryKept(before: Files, rolled: Files, now: Files, changes: seq<StagedFile>, j: Journal, recovery: map<Path, Path>)
    requires AgreeOn(before, rolled, before.Keys - Targets(changes))
    requires forall c | c in changes :: Rolled(before, rolled, j, true, c.path)
    requires AgreeOn(rolled, now, before.Keys + Targets(changes) + j.backups.Values)
    requires j.backups.Keys <= Targets(changes)
    requires forall t :: t in recovery <==> t in j.backups && j.backups[t] in rolled
    requires forall t | t in recovery :: recovery[t] == j.backups[t]
    ensures Recoverable(before, now, changes, recovery)
    ensures forall t | t in recovery :: SavedAt(before, now, recovery, t)
  {
    forall t | t in recovery ensures SavedAt(before, now, recovery, t) {
      var c :| c in changes && c.path == t;
      assert Rolled(before, rolled, j, true, c.path);
      assert Same(rolled, now, j.backups[t]);
    }
    forall p | p in before.Keys - Targets(changes) ensures Same(before, now, p) {
      assert Same(before, rolled, p) && Same(rolled, now, p);
    }
    forall p | p in before && p in Targets(changes) ensures Same(before, now, p) || SavedAt(before, now, recovery, p) {
      var c :| c in changes && c.path == p;
      assert Rolled(before, rolled, j, true, c.path);
      assert Same(rolled, now, p);
      if p in j.backups {
        assert Same(rolled, now, j.backups[p]);
      }
    }
  }
}
