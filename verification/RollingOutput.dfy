/**
 Rolling output buffers of command sessions, their cursor snapshots and offset paging
 (runtime/coding-tools-mcp/coding_tools_mcp/processes.py and the reader in server.py).
 */
module RollingOutput {
  import opened Options
  import opened Bytes

  const SESSION_BUFFER_BYTES := 524288

  /** One of the two streams of a session: the retained bytes, with offsets into all bytes ever written. */
  datatype Stream = Stream(buffer: seq<Byte>, startOffset: nat, cursor: nat, totalBytes: nat, droppedBytes: nat)

  const UNWRITTEN := Stream([], 0, 0, 0, 0)

  datatype Snapshot = Snapshot(omitted: nat, bytes: seq<Byte>)
  datatype Page = Page(offset: nat, chunk: seq<Byte>, nextOffset: Option<nat>, omitted: nat)

  function Max(a: int, b: int): int {
    if a >= b then a else b
  }

  function Min(a: int, b: int): int {
    if a <= b then a else b
  }

  // -------------------------------------------------------------------------
  // The operations
  // -------------------------------------------------------------------------

  /** Drops the oldest bytes over the limit and returns how many. */
  function Trimmed(s: Stream, limit: nat): (Stream, nat) {
    var overflow := |s.buffer| - limit;
    if overflow <= 0 then (s, 0)
    else
      var kept := s.buffer[overflow..];
      (s.(buffer := kept, startOffset := Max(0, s.totalBytes - |kept|)), overflow)
  }

  function Appended(s: Stream, chunk: seq<Byte>, limit: nat): Stream {
    var extended := s.(buffer := s.buffer + chunk, totalBytes := s.totalBytes + |chunk|);
    var (trimmed, overflow) := Trimmed(extended, limit);
    trimmed.(droppedBytes := trimmed.droppedBytes + overflow)
  }

  /** What has been written since the last snapshot and is still retained. */
  function SinceCursor(s: Stream): Snapshot {
    var from := Max(0, s.cursor - s.startOffset);
    Snapshot(Max(0, s.startOffset - s.cursor), if from <= |s.buffer| then s.buffer[from..] else [])
  }

  function CaughtUp(s: Stream): Stream {
    s.(cursor := s.totalBytes)
  }

  function PageLimit(limit: int): nat {
    Max(1, Min(limit, SESSION_BUFFER_BYTES))
  }

  function ReadPage(s: Stream, requested: int, limit: int): Page {
    var wanted := Max(0, requested);
    var offset := Max(wanted, s.startOffset);
    var from := Min(Max(0, offset - s.startOffset), |s.buffer|);
    var chunk := s.buffer[from..Min(from + PageLimit(limit), |s.buffer|)];
    Page(offset, chunk, if offset + |chunk| < s.totalBytes then Some(offset + |chunk|) else None, Max(0, s.startOffset - wanted))
  }

  class ExecSession {
    var stdout: Stream
    var stderr: Stream
    const bufferLimit: nat

    constructor (limit: nat)
      ensures stdout == stderr == UNWRITTEN && bufferLimit == limit
    {
      stdout, stderr, bufferLimit := UNWRITTEN, UNWRITTEN, limit;
    }

    method TrimStdout() returns (overflow: nat)
      modifies `stdout
      ensures (stdout, overflow) == Trimmed(old(stdout), bufferLimit)
    {
      if |stdout.buffer| <= bufferLimit {
        return 0;
      }
      overflow := |stdout.buffer| - bufferLimit;
      stdout := stdout.(buffer := stdout.buffer[overflow..]);
      stdout := stdout.(startOffset := Max(0, stdout.totalBytes - |stdout.buffer|));
    }

    method TrimStderr() returns (overflow: nat)
      modifies `stderr
      ensures (stderr, overflow) == Trimmed(old(stderr), bufferLimit)
    {
      if |stderr.buffer| <= bufferLimit {
        return 0;
      }
      overflow := |stderr.buffer| - bufferLimit;
      stderr := stderr.(buffer := stderr.buffer[overflow..]);
      stderr := stderr.(startOffset := Max(0, stderr.totalBytes - |stderr.buffer|));
    }

    method AppendStdout(chunk: seq<Byte>)
      modifies `stdout
      ensures stdout == Appended(old(stdout), chunk, bufferLimit)
    {
      stdout := stdout.(buffer := stdout.buffer + chunk);
      stdout := stdout.(totalBytes := stdout.totalBytes + |chunk|);
      var overflow := TrimStdout();
      stdout := stdout.(droppedBytes := stdout.droppedBytes + overflow);
    }

    method AppendStderr(chunk: seq<Byte>)
      modifies `stderr
      ensures stderr == Appended(old(stderr), chunk, bufferLimit)
    {
      stderr := stderr.(buffer := stderr.buffer + chunk);
      stderr := stderr.(totalBytes := stderr.totalBytes + |chunk|);
      var overflow := TrimStderr();
      stderr := stderr.(droppedBytes := stderr.droppedBytes + overflow);
    }

    method SnapshotSinceCursor() returns (out: Snapshot, err: Snapshot)
      modifies this
      ensures out == SinceCursor(old(stdout)) && stdout == CaughtUp(old(stdout))
      ensures err == SinceCursor(old(stderr)) && stderr == CaughtUp(old(stderr))
    {
      out, err := SinceCursor(stdout), SinceCursor(stderr);
      stdout := stdout.(cursor := stdout.totalBytes);
      stderr := stderr.(cursor := stderr.totalBytes);
    }
  }

  /** The output of a finished session, without its process. */
  class RetainedExecOutput {
    var stdout: Stream
    var stderr: Stream

    constructor Capture(session: ExecSession)
      ensures stdout == session.stdout && stderr == session.stderr
    {
      stdout, stderr := session.stdout, session.stderr;
    }

    method SnapshotSinceCursor() returns (out: Snapshot, err: Snapshot)
      modifies this
      ensures out == SinceCursor(old(stdout)) && stdout == CaughtUp(old(stdout))
      ensures err == SinceCursor(old(stderr)) && stderr == CaughtUp(old(stderr))
    {
      out, err := SinceCursor(stdout), SinceCursor(stderr);
      stdout := stdout.(cursor := stdout.totalBytes);
      stderr := stderr.(cursor := stderr.totalBytes);
    }
  }

  // -------------------------------------------------------------------------
  // Runs of one stream
  // -------------------------------------------------------------------------

  datatype Event = Append(chunk: seq<Byte>) | TakeSnapshot

  /** A stream with everything ever written to it and every snapshot delivered from it. */
  datatype History = History(stream: Stream, written: seq<Byte>, delivered: seq<Snapshot>)

  function Next(h: History, e: Event, limit: nat): History {
    match e
    case Append(chunk) => h.(stream := Appended(h.stream, chunk, limit), written := h.written + chunk)
    case TakeSnapshot => h.(stream := CaughtUp(h.stream), delivered := h.delivered + [SinceCursor(h.stream)])
  }

  function Run(events: seq<Event>, limit: nat): History {
    if events == [] then History(UNWRITTEN, [], [])
    else Next(Run(events[..|events| - 1], limit), events[|events| - 1], limit)
  }

  /** The stream keeps the newest bytes, as many as the limit allows, and knows where they start. */
  ghost predicate Rolling(s: Stream, written: seq<Byte>, limit: nat) {
    && s.totalBytes == |written|
    && |s.buffer| == Min(limit, |written|)
    && s.startOffset == s.droppedBytes == |written| - |s.buffer|
    && s.buffer == written[s.startOffset..]
    && s.cursor <= s.totalBytes
  }

  /** How much of the stream the snapshots account for. */
  function Accounted(delivered: seq<Snapshot>): nat {
    if delivered == [] then 0
    else Accounted(delivered[..|delivered| - 1]) + delivered[|delivered| - 1].omitted + |delivered[|delivered| - 1].bytes|
  }

  /** A snapshot that starts at offset `at`: what it omits, then its bytes, in the order written. */
  ghost predicate Delivers(d: Snapshot, written: seq<Byte>, at: nat) {
    at + d.omitted + |d.bytes| <= |written| && written[at + d.omitted..at + d.omitted + |d.bytes|] == d.bytes
  }

  /** Each snapshot starts where the one before ended. */
  ghost predicate InSequence(delivered: seq<Snapshot>, written: seq<Byte>) {
    forall k | 0 <= k < |delivered| :: Delivers(delivered[k], written, Accounted(delivered[..k]))
  }

  lemma AppendRolls(s: Stream, written: seq<Byte>, chunk: seq<Byte>, limit: nat)
    requires Rolling(s, written, limit)
    ensures Rolling(Appended(s, chunk, limit), written + chunk, limit)
  {
    var all, long := written + chunk, s.buffer + chunk;
    assert long == all[s.startOffset..];
    var overflow := |long| - limit;
    if overflow > 0 {
      assert long[overflow..] == all[s.startOffset + overflow..];
    }
  }

  /** A snapshot of a rolling stream: exactly what no longer fits is omitted, and nothing else. */
  lemma SnapshotIsExact(s: Stream, written: seq<Byte>, limit: nat)
    requires Rolling(s, written, limit)
    ensures var d := SinceCursor(s);
            && d.omitted == Max(0, |written| - s.cursor - limit)
            && Delivers(d, written, s.cursor)
            && s.cursor + d.omitted + |d.bytes| == |written|
  {
    var d := SinceCursor(s);
    assert d.bytes == written[s.cursor + d.omitted..];
  }

  lemma DeliversLater(d: Snapshot, written: seq<Byte>, chunk: seq<Byte>, at: nat)
    requires Delivers(d, written, at)
    ensures Delivers(d, written + chunk, at)
  {
    assert (written + chunk)[at + d.omitted..at + d.omitted + |d.bytes|] == written[at + d.omitted..at + d.omitted + |d.bytes|];
  }

  lemma {:induction false} RunInv(events: seq<Event>, limit: nat)
    ensures var h := Run(events, limit);
            && Rolling(h.stream, h.written, limit)
            && InSequence(h.delivered, h.written)
            && Accounted(h.delivered) == h.stream.cursor
  {
    if events != [] {
      var init, e := events[..|events| - 1], events[|events| - 1];
      RunInv(init, limit);
      var h := Run(init, limit);
      match e
      case Append(chunk) =>
        AppendRolls(h.stream, h.written, chunk, limit);
        forall k | 0 <= k < |h.delivered| ensures Delivers(h.delivered[k], h.written + chunk, Accounted(h.delivered[..k])) {
          DeliversLater(h.delivered[k], h.written, chunk, Accounted(h.delivered[..k]));
        }
      case TakeSnapshot =>
        SnapshotIsExact(h.stream, h.written, limit);
        DeliverOne(h.delivered, h.written, SinceCursor(h.stream));
    }
  }

  lemma DeliverOne(delivered: seq<Snapshot>, written: seq<Byte>, d: Snapshot)
    requires InSequence(delivered, written) && Delivers(d, written, Accounted(delivered))
    ensures InSequence(delivered + [d], written)
    ensures Accounted(delivered + [d]) == Accounted(delivered) + d.omitted + |d.bytes|
  {
    var more := delivered + [d];
    assert more[..|delivered|] == delivered;
    forall k | 0 <= k < |more| ensures Delivers(more[k], written, Accounted(more[..k])) {
      if k < |delivered| {
        assert more[..k] == delivered[..k];
      }
    }
  }

  // -------------------------------------------------------------------------
  // Main results
  // -------------------------------------------------------------------------

  function Appends(events: seq<Event>): seq<Byte> {
    if events == [] then []
    else Appends(events[..|events| - 1]) + (if events[|events| - 1].Append? then events[|events| - 1].chunk else [])
  }

  lemma {:induction false} WrittenIsAppends(events: seq<Event>, limit: nat)
    ensures Run(events, limit).written == Appends(events)
  {
    if events != [] {
      WrittenIsAppends(events[..|events| - 1], limit);
    }
  }

  /** Over every run the buffer holds the last bytes written, up to the limit, and the dropped count is its start. */
  lemma BufferIsLastBytes(events: seq<Event>, limit: nat)
    ensures var s, all := Run(events, limit).stream, Appends(events);
            && s.totalBytes == |all|
            && s.buffer == all[|all| - Min(limit, |all|)..]
            && s.startOffset == s.droppedBytes == |all| - Min(limit, |all|)
  {
    RunInv(events, limit);
    WrittenIsAppends(events, limit);
  }

  /** Snapshots deliver disjoint segments in order, and account for every byte up to the last snapshot. */
  lemma SnapshotsAreConsecutive(events: seq<Event>, limit: nat)
    ensures InSequence(Run(events, limit).delivered, Appends(events))
    ensures var h := Run(events + [TakeSnapshot], limit); Accounted(h.delivered) == |Appends(events)|
  {
    RunInv(events, limit);
    RunInv(events + [TakeSnapshot], limit);
    WrittenIsAppends(events, limit);
    assert (events + [TakeSnapshot])[..|events|] == events;
  }

  function Concatenated(delivered: seq<Snapshot>): seq<Byte> {
    if delivered == [] then [] else Concatenated(delivered[..|delivered| - 1]) + delivered[|delivered| - 1].bytes
  }

  lemma InSequenceInit(delivered: seq<Snapshot>, written: seq<Byte>)
    requires InSequence(delivered, written) && delivered != []
    ensures var init := delivered[..|delivered| - 1];
            InSequence(init, written) && Delivers(delivered[|delivered| - 1], written, Accounted(init))
  {
    var init := delivered[..|delivered| - 1];
    forall k | 0 <= k < |init| ensures Delivers(init[k], written, Accounted(init[..k])) {
      assert init[..k] == delivered[..k];
    }
  }

  /** Snapshots taken before the buffer overflows lose nothing: put together they are the whole stream. */
  lemma {:induction false} NothingOmittedNothingLost(delivered: seq<Snapshot>, written: seq<Byte>)
    requires InSequence(delivered, written) && forall k | 0 <= k < |delivered| :: delivered[k].omitted == 0
    ensures Accounted(delivered) <= |written| && Concatenated(delivered) == written[..Accounted(delivered)]
  {
    if delivered != [] {
      var init, d := delivered[..|delivered| - 1], delivered[|delivered| - 1];
      InSequenceInit(delivered, written);
      NothingOmittedNothingLost(init, written);
      var at := Accounted(init);
      assert d.omitted == 0;
      assert written[..at + |d.bytes|] == written[..at] + written[at..at + |d.bytes|];
    }
  }

  /**
   A page is cut from the stream at its offset, as long as the limit, kept between 1 and 524288, and the stream
   allow; what it skips before that offset has been dropped; there is a next one exactly when bytes remain.
   */
  lemma PageIsExact(s: Stream, written: seq<Byte>, limit: nat, requested: int, pageLimit: int)
    requires Rolling(s, written, limit)
    ensures var p := ReadPage(s, requested, pageLimit);
            && p.offset == Max(Max(0, requested), s.startOffset)
            && |p.chunk| == Min(Max(1, Min(pageLimit, 524288)), Max(0, |written| - p.offset))
            && p.omitted == Max(0, s.startOffset - Max(0, requested))
            && (p.nextOffset.Some? <==> p.offset + |p.chunk| < |written|)
            && (p.offset < |written| ==> p.chunk != [] && p.offset + |p.chunk| <= |written|
                                          && p.chunk == written[p.offset..p.offset + |p.chunk|])
            && (p.offset >= |written| ==> p.chunk == [])
            && (p.nextOffset.Some? ==> p.nextOffset.value == p.offset + |p.chunk| && p.nextOffset.value > requested)
  {
    var p := ReadPage(s, requested, pageLimit);
    if p.offset < |written| {
      var from := p.offset - s.startOffset;
      SliceOfSuffix(written, s.startOffset, from, from + |p.chunk|);
    }
  }

  lemma SliceOfSuffix(written: seq<Byte>, start: nat, from: nat, to: nat)
    requires start <= |written| && from <= to <= |written| - start
    ensures written[start..][from..to] == written[start + from..start + to]
  {
  }

  /** Following the next offsets of a finished stream, with any page limits. */
  ghost function Followed(s: Stream, requested: int, limits: nat -> int, k: nat): seq<Byte>
    requires |s.buffer| == s.totalBytes - s.startOffset
    decreases Max(0, s.totalBytes - requested)
  {
    var p := ReadPage(s, requested, limits(k));
    p.chunk + match p.nextOffset case Some(next) => Followed(s, next, limits, k + 1) case None => []
  }

  lemma SplitSlice(written: seq<Byte>, from: nat, to: nat)
    requires from <= to <= |written|
    ensures written[from..] == written[from..to] + written[to..]
  {
  }

  /** It ends, and puts together exactly the retained bytes from the requested offset on. */
  lemma {:induction false} PagesRebuildRetained(s: Stream, written: seq<Byte>, limit: nat, requested: int, limits: nat -> int, k: nat)
    requires Rolling(s, written, limit)
    ensures Followed(s, requested, limits, k) == written[Min(Max(Max(0, requested), s.startOffset), |written|)..]
    decreases Max(0, s.totalBytes - requested)
  {
    PageIsExact(s, written, limit, requested, limits(k));
    var p := ReadPage(s, requested, limits(k));
    match p.nextOffset
    case Some(next) =>
      PagesRebuildRetained(s, written, limit, next, limits, k + 1);
      SplitSlice(written, p.offset, next);
    case None =>
      assert p.chunk + [] == p.chunk;
      if p.offset < |written| {
        SplitSlice(written, p.offset, |written|);
      }
  }

  /** From the start, the pages of a stream that any run produced are its whole buffer. */
  lemma PagesRebuildBuffer(events: seq<Event>, limit: nat, limits: nat -> int)
    ensures var s := Run(events, limit).stream;
            |s.buffer| == s.totalBytes - s.startOffset && Followed(s, 0, limits, 0) == s.buffer
  {
    RunInv(events, limit);
    var h := Run(events, limit);
    PagesRebuildRetained(h.stream, h.written, limit, 0, limits, 0);
  }
}
