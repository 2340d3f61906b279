/**
 A filesystem whose every call either works or raises without effect.

 Which calls raise is left open: callers see only the contracts below, so a property proved of a
 client holds for every schedule of failures. The one call that may leave a trace when it raises is
 a write, which may leave the open temporary file with any bytes. Status probes do not raise.
 */
module FileSystems {
  import opened Options
  import opened Bytes

  type Path = seq<string>

  datatype File = File(data: seq<Byte>, mode: nat)

  const TEMP_MODE := 384 // 0o600, the mode mkstemp gives a new file

  function Parent(p: Path): Path {
    if p == [] then [] else p[..|p| - 1]
  }

  function Prefixes(p: Path): set<Path> {
    set i | 0 <= i <= |p| :: p[..i]
  }

  function Candidate(dir: Path, n: nat): (p: Path)
    ensures Parent(p) == dir && |p| == |dir| + 1 && |p[|dir|]| == n
  {
    dir + [seq(n, i => '_')]
  }

  class FileSystem {
    var files: map<Path, File>
    var dirs: set<Path>
    /** Whether any call may raise for reasons of its own, such as a full disk. */
    const mayRaise: bool
    /** Whether closing the descriptor of a synchronised directory is among those calls. */
    const closeMayRaise: bool

    ghost predicate Valid()
      reads this
    {
      [] in dirs && files.Keys !! dirs
    }

    predicate Exists(p: Path)
      reads this
    {
      p in files || p in dirs
    }

    /** Creates an empty file under a name that is taken neither on disk nor in `avoid`. */
    method Mkstemp(dir: Path, avoid: set<Path>) returns (r: Option<Path>)
      requires Valid()
      modifies this`files
      ensures Valid()
      ensures r.None? ==> mayRaise && files == old(files)
      ensures r.Some? ==> r.value !in old(files) && r.value !in dirs && r.value !in avoid
      ensures r.Some? ==> Parent(r.value) == dir && files == old(files)[r.value := File([], TEMP_MODE)]
    {
      var raises: bool := *;
      if raises && mayRaise {
        return None;
      }
      var taken := files.Keys + dirs + avoid;
      var n := 0;
      while Candidate(dir, n) in taken
        invariant forall p | p in files.Keys + dirs + avoid ::
                    p in taken || exists m :: 0 <= m < n && p == Candidate(dir, m)
        decreases taken
      {
        taken := taken - {Candidate(dir, n)};
        n := n + 1;
      }
      var p := Candidate(dir, n);
      assert forall m | 0 <= m < n :: |Candidate(dir, m)[|dir|]| == m;
      files := files[p := File([], TEMP_MODE)];
      return Some(p);
    }

    method Write(p: Path, data: seq<Byte>) returns (ok: bool)
      requires Valid() && p in files
      modifies this`files
      ensures Valid()
      ensures !ok ==> mayRaise
      ensures ok ==> files == old(files)[p := File(data, old(files)[p].mode)]
      ensures files.Keys == old(files).Keys
      ensures forall q | q in old(files) && q != p :: files[q] == old(files)[q]
    {
      ok := *;
      ok := ok || !mayRaise;
      var written: int := *;
      if ok || written < 0 || written > |data| {
        written := |data|;
      }
      files := files[p := File(data[..written], files[p].mode)];
      assert ok ==> data[..written] == data;
    }

    method Chmod(p: Path, mode: nat) returns (ok: bool)
      requires Valid() && p in files
      modifies this`files
      ensures Valid()
      ensures ok ==> files == old(files)[p := File(old(files)[p].data, mode)]
      ensures !ok ==> mayRaise && files == old(files)
    {
      ok := *;
      ok := ok || !mayRaise;
      if ok {
        files := files[p := File(files[p].data, mode)];
      }
    }

    method Unlink(p: Path, missingOk: bool) returns (ok: bool)
      requires Valid()
      modifies this`files
      ensures Valid()
      ensures ok ==> files == old(files) - {p} && (missingOk || p in old(files))
      ensures !ok ==> files == old(files) && (mayRaise || (p !in old(files) && !missingOk))
    {
      ok := *;
      ok := ok || !mayRaise;
      if p !in files {
        ok := missingOk && ok;
        assert files == files - {p};
      } else if ok {
        files := files - {p};
      }
    }

    /** An atomic rename over whatever file is at `dst`. */
    method Replace(src: Path, dst: Path) returns (ok: bool)
      requires Valid()
      modifies this`files
      ensures Valid()
      ensures ok ==> src in old(files) && dst !in dirs && files == (old(files) - {src})[dst := old(files)[src]]
      ensures !ok ==> files == old(files) && (mayRaise || src !in files || dst in dirs)
    {
      ok := *;
      ok := (ok || !mayRaise) && src in files && dst !in dirs;
      if ok {
        files := (files - {src})[dst := files[src]];
      }
    }

    method Read(p: Path) returns (r: Option<File>)
      ensures r.Some? ==> p in files && r.value == files[p]
      ensures r.None? ==> mayRaise || p !in files
    {
      var raises: bool := *;
      r := if (raises && mayRaise) || p !in files then None else Some(files[p]);
    }

    /** mkdir with parents=True and exist_ok=True; raises when a file is in the way. */
    method Mkdir(p: Path) returns (ok: bool)
      requires Valid()
      modifies this`dirs
      ensures Valid()
      ensures ok ==> Prefixes(p) !! files.Keys && dirs == old(dirs) + Prefixes(p)
      ensures !ok ==> dirs == old(dirs) && (mayRaise || !(Prefixes(p) !! files.Keys))
    {
      ok := *;
      ok := (ok || !mayRaise) && Prefixes(p) !! files.Keys;
      if ok {
        dirs := dirs + Prefixes(p);
      }
    }

    method Rmdir(p: Path) returns (ok: bool)
      requires Valid() && p != []
      modifies this`dirs
      ensures Valid()
      ensures ok ==> p in old(dirs) && dirs == old(dirs) - {p}
      ensures ok ==> forall q | q in files.Keys + old(dirs) :: q == [] || Parent(q) != p
      ensures !ok ==> dirs == old(dirs)
      ensures !ok ==> mayRaise || p !in dirs || exists q :: q in files.Keys + dirs && q != [] && Parent(q) == p
    {
      ok := *;
      ok := (ok || !mayRaise) && p in dirs && forall q | q in files.Keys + dirs :: q == [] || Parent(q) != p;
      if ok {
        dirs := dirs - {p};
      }
    }

    /** Opening and synchronising are best effort; only closing the descriptor can raise. */
    method FsyncDirectory(p: Path) returns (ok: bool)
      ensures !ok ==> mayRaise && closeMayRaise
    {
      ok := *;
      ok := ok || !mayRaise || !closeMayRaise;
    }
  }
}
