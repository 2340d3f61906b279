/**
 Cutting tool output to a number of lines and bytes
 (runtime/coding-tools-mcp/coding_tools_mcp/textutils.py).
 */
module TextTruncation {
  import opened Options
  import opened Lines
  import opened Utf8

  // -------------------------------------------------------------------------
  // Cutting at a number of bytes
  // -------------------------------------------------------------------------

  /** The longest prefix of a text within some bytes. */
  ghost predicate LongestPrefix(text: string, maxBytes: int, k: nat) {
    && k <= |text|
    && (Size(text[..k]) <= maxBytes || k == 0)
    && (k < |text| ==> Size(text[..k + 1]) > maxBytes)
  }

  /** The longest suffix of a text within some bytes. */
  ghost predicate LongestSuffix(text: string, maxBytes: int, k: nat) {
    && k <= |text|
    && (Size(text[k..]) <= maxBytes || k == |text|)
    && (k > 0 ==> Size(text[k - 1..]) > maxBytes)
  }

  /** The bytes before a character boundary decode to a prefix, those after it to a suffix. */
  lemma CutDecodes(text: string, k: nat)
    requires k <= |text|
    ensures Size(text[..k]) <= Size(text)
    ensures Decode(Encode(text)[..Size(text[..k])]) == Some(text[..k])
    ensures Decode(Encode(text)[Size(text[..k])..]) == Some(text[k..])
  {
    SizeSplits(text, k);
    RoundTrip(text[..k]);
    RoundTrip(text[k..]);
    assert Encode(text)[..Size(text[..k])] == Encode(text[..k]);
    assert Encode(text)[Size(text[..k])..] == Encode(text[k..]);
  }

  /** The boundaries before and after a character, and that there are none between. */
  lemma NextBoundary(text: string, k: nat)
    requires k < |text|
    ensures Size(text[..k]) < Size(text[..k + 1]) <= Size(text)
    ensures !IsContinuation(Encode(text)[Size(text[..k])])
    ensures Size(text[..k + 1]) < Size(text) ==> !IsContinuation(Encode(text)[Size(text[..k + 1])])
  {
    StartOfChar(text, k);
    SizeOfNext(text, k);
    SizeSplits(text, k + 1);
    if k + 1 < |text| {
      StartOfChar(text, k + 1);
    } else {
      assert text[..k + 1] == text;
    }
  }

  /** A boundary such that only continuation bytes lie between it and the limit cuts the longest prefix. */
  lemma CutIsLongestPrefix(text: string, maxBytes: nat, k: nat)
    requires k < |text| && Size(text[..k]) <= maxBytes < Size(text)
    requires forall p | Size(text[..k]) < p <= maxBytes :: IsContinuation(Encode(text)[p])
    ensures LongestPrefix(text, maxBytes, k)
  {
    NextBoundary(text, k);
  }

  lemma BoundaryBelow(text: string, from: nat, k: nat)
    requires k < |text| && Size(text[..k + 1]) <= Size(text)
    requires forall p | from <= p < Size(text[..k + 1]) :: IsContinuation(Encode(text)[p])
    ensures Size(text[..k]) < from
  {
    NextBoundary(text, k);
  }

  lemma CutIsLongestSuffix(text: string, from: nat, k: nat)
    requires k <= |text| && from <= Size(text[..k]) && from > 0 && Size(text[..k]) <= Size(text)
    requires forall p | from <= p < Size(text[..k]) :: IsContinuation(Encode(text)[p])
    ensures LongestSuffix(text, Size(text) - from, k)
  {
    SizeSplits(text, k);
    if k > 0 {
      BoundaryBelow(text, from, k - 1);
      SizeSplits(text, k - 1);
    }
  }

  function Clamp(n: int, low: int, high: int): int {
    if n < low then low else if n > high then high else n
  }

  /** A text cut to its longest prefix, or to its longest suffix, within some bytes. */
  ghost predicate CutFromStart(text: string, maxBytes: int, cut: string) {
    exists k: nat :: LongestPrefix(text, maxBytes, k) && cut == text[..k]
  }

  ghost predicate CutFromEnd(text: string, maxBytes: int, cut: string) {
    exists k: nat :: LongestSuffix(text, maxBytes, k) && cut == text[k..]
  }

  method TruncateFromStart(text: string, maxBytes: int) returns (r: string, ghost k: nat)
    ensures CutFromStart(text, maxBytes, r)
    ensures LongestPrefix(text, maxBytes, k) && r == text[..k]
  {
    var data := Encode(text);
    if |data| <= maxBytes {
      assert text[..|text|] == text;
      return text, |text|;
    }
    var limit := Clamp(maxBytes, 0, |data|);
    var end := limit;
    while end > 0 && end < |data| && IsContinuation(data[end])
      invariant 0 <= end <= limit
      invariant forall p | end < p <= limit && p < |data| :: IsContinuation(data[p])
    {
      end := end - 1;
    }
    k := 0;
    assert text[..0] == [];
    if text != [] {
      StartOfChar(text, 0);
      if end > 0 {
        k := BoundaryBefore(text, end);
      }
      CutIsLongestPrefix(text, limit, k);
    }
    CutDecodes(text, k);
    var decoded := Decode(data[..end]);
    r := decoded.value;
  }

  method TruncateFromEnd(text: string, maxBytes: int) returns (r: string, ghost k: nat)
    ensures CutFromEnd(text, maxBytes, r)
    ensures LongestSuffix(text, maxBytes, k) && r == text[k..]
  {
    var data := Encode(text);
    if |data| <= maxBytes {
      assert text[0..] == text;
      return text, 0;
    }
    var start := |data| - maxBytes;
    ghost var from := start;
    while start < |data| && IsContinuation(data[start])
      invariant from <= start && (start <= |data| || start == from)
      invariant forall p | from <= p < start && p < |data| :: IsContinuation(data[p])
    {
      start := start + 1;
    }
    assert text[..|text|] == text;
    if start < |data| {
      k := BoundaryBefore(text, start);
    } else {
      k := |text|;
    }
    if start <= |data| {
      CutIsLongestSuffix(text, from, k);
    } else if k > 0 {
      SizeOfNext(text, k - 1);
    }
    CutDecodes(text, k);
    var decoded := Decode(data[Clamp(start, 0, |data|)..]);
    r := decoded.value;
  }

  // -------------------------------------------------------------------------
  // Splitting into lines
  // -------------------------------------------------------------------------

  function FirstNewline(text: string): (i: nat)
    ensures i <= |text| && (forall k | 0 <= k < i :: text[k] != LF) && (i < |text| ==> text[i] == LF)
  {
    if text == [] || text[0] == LF then 0 else 1 + FirstNewline(text[1..])
  }

  function Split(text: string): (lines: seq<string>)
    ensures lines != []
  {
    var i := FirstNewline(text);
    if i == |text| then [text] else [text[..i]] + Split(text[i + 1..])
  }

  lemma JoinCons(first: string, rest: seq<string>)
    requires rest != []
    ensures Join([first] + rest) == first + [LF] + Join(rest)
  {
    assert ([first] + rest)[1..] == rest;
  }

  lemma {:induction false} JoinAppend(a: seq<string>, b: seq<string>)
    requires a != [] && b != []
    ensures Join(a + b) == Join(a) + [LF] + Join(b)
  {
    if |a| == 1 {
      assert a + b == [a[0]] + b;
      JoinCons(a[0], b);
    } else {
      JoinAppend(a[1..], b);
      assert a + b == [a[0]] + (a[1..] + b);
      JoinCons(a[0], a[1..] + b);
    }
  }

  lemma {:induction false} JoinSplit(text: string)
    ensures Join(Split(text)) == text
    ensures forall i | 0 <= i < |Split(text)| :: LF !in Split(text)[i]
  {
    var i := FirstNewline(text);
    if i < |text| {
      JoinSplit(text[i + 1..]);
      JoinCons(text[..i], Split(text[i + 1..]));
      assert text == text[..i] + [LF] + text[i + 1..];
    } else {
      assert text[..i] == text;
    }
  }

  lemma FirstNewlineOf(first: string, rest: string)
    requires LF !in first
    ensures FirstNewline(first) == |first|
    ensures FirstNewline(first + [LF] + rest) == |first|
  {
    var text := first + [LF] + rest;
    assert text[|first|] == LF;
    assert forall k | 0 <= k < |first| :: text[k] == first[k] && first[k] in first;
  }

  /** The lines of joined lines are those lines. */
  lemma {:induction false} SplitJoin(lines: seq<string>)
    requires lines != [] && forall i | 0 <= i < |lines| :: LF !in lines[i]
    ensures Split(Join(lines)) == lines
  {
    FirstNewlineOf(lines[0], Join(lines[1..]));
    if |lines| > 1 {
      SplitJoin(lines[1..]);
      var text := Join(lines);
      assert text[..|lines[0]|] == lines[0] && text[|lines[0]| + 1..] == Join(lines[1..]);
    }
  }

  lemma SizeJoinAppend(a: seq<string>, line: string)
    requires a != []
    ensures Size(Join(a + [line])) == Size(Join(a)) + 1 + Size(line)
  {
    JoinAppend(a, [line]);
    EncodeAppend(Join(a) + [LF], line);
    EncodeAppend(Join(a), [LF]);
    assert Encode([LF]) == EncodeChar(LF) + Encode([]);
  }

  lemma SizeJoinPrepend(line: string, a: seq<string>)
    requires a != []
    ensures Size(Join([line] + a)) == Size(line) + 1 + Size(Join(a))
  {
    JoinCons(line, a);
    EncodeAppend(line + [LF], Join(a));
    EncodeAppend(line, [LF]);
    assert Encode([LF]) == EncodeChar(LF) + Encode([]);
  }

  // -------------------------------------------------------------------------
  // Whole lines within the limits
  // -------------------------------------------------------------------------

  datatype LimitKind = ByLines | ByBytes

  datatype Truncation = Truncation(
    content: string, truncated: bool, truncatedBy: Option<LimitKind>, totalLines: nat, totalBytes: nat,
    outputLines: nat, outputBytes: nat, lastLinePartial: bool, firstLineExceedsLimit: bool, maxLines: nat, maxBytes: nat)

  lemma SizeJoinOne(line: string)
    ensures Join([line]) == line && Size(Join([])) == 0
  {
  }

  lemma SizeOfMore(lines: seq<string>, n: nat)
    requires n < |lines|
    ensures Size(Join(lines[..n + 1])) == Size(Join(lines[..n])) + (if n > 0 then 1 else 0) + Size(lines[n])
  {
    assert lines[..n + 1] == lines[..n] + [lines[n]];
    SizeJoinOne(lines[n]);
    if n > 0 {
      SizeJoinAppend(lines[..n], lines[n]);
    } else {
      assert lines[..1] == [lines[0]] && lines[..0] == [];
    }
  }

  lemma SizeOfMoreBack(lines: seq<string>, n: nat)
    requires 0 < n <= |lines|
    ensures Size(Join(lines[n - 1..])) == Size(Join(lines[n..])) + (if n < |lines| then 1 else 0) + Size(lines[n - 1])
  {
    assert lines[n - 1..] == [lines[n - 1]] + lines[n..];
    SizeJoinOne(lines[n - 1]);
    if n < |lines| {
      SizeJoinPrepend(lines[n - 1], lines[n..]);
    } else {
      assert lines[n..] == [] && lines[n - 1..] == [lines[n - 1]];
    }
  }

  /** Lines from the front while they fit, and which limit stopped it. */
  method TakeLines(lines: seq<string>, maxLines: nat, maxBytes: nat) returns (output: seq<string>, by': LimitKind)
    ensures |output| <= |lines| && output == lines[..|output|] && |output| <= maxLines && Size(Join(output)) <= maxBytes
    ensures by' == ByLines ==> |output| == maxLines || |output| == |lines|
    ensures by' == ByBytes ==> |output| < maxLines && |output| < |lines| && Size(Join(lines[..|output| + 1])) > maxBytes
  {
    output := [];
    var outputBytes := 0;
    for index := 0 to |lines|
      invariant output == lines[..index] && index <= maxLines
      invariant outputBytes == Size(Join(output)) <= maxBytes
    {
      if |output| >= maxLines {
        return output, ByLines;
      }
      var line := lines[index];
      var lineBytes := Size(line) + if index > 0 then 1 else 0;
      SizeOfMore(lines, index);
      if outputBytes + lineBytes > maxBytes {
        return output, ByBytes;
      }
      output := output + [line];
      outputBytes := outputBytes + lineBytes;
    }
    by' := ByLines;
  }

  function Floored(limit: int): nat {
    if limit <= 0 then 1 else limit
  }

  /** What both directions promise: the totals, the limits, and that text within them is left alone. */
  ghost predicate WithinLimits(text: string, maxLines: int, maxBytes: int, r: Truncation) {
    && r.maxLines == Floored(maxLines) && r.maxBytes == Floored(maxBytes)
    && r.totalLines == |Split(text)| && r.totalBytes == Size(text)
    && r.outputBytes == Size(r.content) <= r.maxBytes
    && |Split(r.content)| <= r.maxLines
    && (r.truncated <==> r.totalLines > r.maxLines || r.totalBytes > r.maxBytes)
    && (r.truncated <==> r.truncatedBy.Some?)
    && (!r.truncated ==> r.content == text && r.outputLines == r.totalLines && !r.lastLinePartial && !r.firstLineExceedsLimit)
  }

  /** The head is whole lines up to the first that would break a limit, or a cut of a first line that is too long. */
  ghost predicate IsHead(text: string, r: Truncation) {
    var lines, n := Split(text), r.outputLines;
    && r.content <= text && (r.truncated ==> r.content != text) && !r.lastLinePartial
    && (r.firstLineExceedsLimit <==> r.truncated && Size(lines[0]) > r.maxBytes)
    && (r.firstLineExceedsLimit ==>
          && r.truncatedBy == Some(ByBytes)
          && n == (if r.content != "" then 1 else 0)
          && CutFromStart(lines[0], r.maxBytes, r.content))
    && (r.truncated && !r.firstLineExceedsLimit ==>
          && 0 < n < |lines| && n <= r.maxLines && r.content == Join(lines[..n])
          && (r.truncatedBy == Some(ByLines) <==> n == r.maxLines)
          && (r.truncatedBy == Some(ByBytes) ==> Size(Join(lines[..n + 1])) > r.maxBytes))
  }

  /** A line within text that has no more of them. */
  lemma OneLine(line: string)
    requires LF !in line
    ensures Split(line) == [line]
  {
    SplitJoin([line]);
  }

  lemma LineWithin(text: string)
    ensures Split(text)[0] <= text
  {
    var i := FirstNewline(text);
    assert text[..i] <= text;
  }

  lemma PrefixCut(text: string, r: Truncation, k: nat)
    requires k <= |Split(text)[0]| && r.content == Split(text)[0][..k]
    ensures r.content <= text && Split(r.content) == [r.content]
  {
    var line := Split(text)[0];
    JoinSplit(text);
    LineWithin(text);
    assert forall c | c in line[..k] :: c in line;
    OneLine(line[..k]);
  }

  lemma HeadOfLines(text: string, n: nat)
    requires 0 < n < |Split(text)|
    ensures var content := Join(Split(text)[..n]); content <= text && content != text && |Split(content)| == n
  {
    var lines := Split(text);
    JoinSplit(text);
    SplitJoin(lines[..n]);
    JoinAppend(lines[..n], lines[n..]);
    assert lines == lines[..n] + lines[n..];
  }

  method TruncateTextHead(text: string, maxLines: int, maxBytes: int) returns (r: Truncation)
    ensures WithinLimits(text, maxLines, maxBytes, r) && IsHead(text, r)
  {
    var lineLimit, byteLimit := Floored(maxLines), Floored(maxBytes);
    var totalBytes, lines := |Encode(text)|, Split(text);
    var totalLines := |lines|;
    if totalLines <= lineLimit && totalBytes <= byteLimit {
      return Truncation(text, false, None, totalLines, totalBytes, totalLines, totalBytes, false, false, lineLimit, byteLimit);
    }
    if Size(lines[0]) > byteLimit {
      var prefix, k := TruncateFromStart(lines[0], byteLimit);
      r := Truncation(prefix, true, Some(ByBytes), totalLines, totalBytes, if prefix != "" then 1 else 0, Size(prefix), false, true, lineLimit, byteLimit);
      PrefixCut(text, r, k);
      assert lines[0][..0] == "";
      return;
    }
    var output, by' := TakeLines(lines, lineLimit, byteLimit);
    JoinSplit(text);
    SizeOfMore(lines, 0);
    assert lines[..0] == [] && lines[..|lines|] == lines;
    HeadOfLines(text, |output|);
    var content := Join(output);
    r := Truncation(content, true, Some(by'), totalLines, totalBytes, |output|, Size(content), false, false, lineLimit, byteLimit);
  }

  // -------------------------------------------------------------------------
  // The tail
  // -------------------------------------------------------------------------

  /** Lines from the back while they fit; a last line that does not fit is cut instead. */
  method TakeLinesBack(lines: seq<string>, maxLines: nat, maxBytes: nat)
    returns (output: seq<string>, by': LimitKind, partial: bool, ghost k: nat)
    requires lines != [] && maxLines > 0
    ensures partial ==>
              && by' == ByBytes && Size(lines[|lines| - 1]) > maxBytes
              && LongestSuffix(lines[|lines| - 1], maxBytes, k) && output == [lines[|lines| - 1][k..]]
    ensures !partial ==> 0 < |output| <= |lines| && output == lines[|lines| - |output|..] && |output| <= maxLines && Size(Join(output)) <= maxBytes
    ensures !partial && by' == ByLines ==> |output| == maxLines || |output| == |lines|
    ensures !partial && by' == ByBytes ==>
              |output| < maxLines && |output| < |lines| && Size(Join(lines[|lines| - |output| - 1..])) > maxBytes
  {
    output, k := [], 0;
    var outputBytes := 0;
    for index := 0 to |lines|
      invariant index == |output| && output == lines[|lines| - index..] && index <= maxLines
      invariant outputBytes == Size(Join(output)) <= maxBytes
    {
      if |output| >= maxLines {
        return output, ByLines, false, k;
      }
      var line := lines[|lines| - index - 1];
      var lineBytes := Size(line) + if index > 0 then 1 else 0;
      SizeOfMoreBack(lines, |lines| - index);
      if outputBytes + lineBytes > maxBytes {
        if output == [] {
          var cut;
          cut, k := TruncateFromEnd(line, maxBytes);
          return [cut], ByBytes, true, k;
        }
        return output, ByBytes, false, k;
      }
      output := [line] + output;
      outputBytes := outputBytes + lineBytes;
    }
    by', partial := ByLines, false;
  }

  predicate IsSuffix(s: string, text: string) {
    |s| <= |text| && text[|text| - |s|..] == s
  }

  /** The text without its final newline, if it has one. */
  function LessFinalNewline(text: string): string {
    if text != [] && text[|text| - 1] == LF then text[..|text| - 1] else text
  }

  /** The lines of the text, without the empty one after a final newline. */
  function TailLines(text: string): seq<string> {
    var lines := Split(text);
    if lines[|lines| - 1] == "" then lines[..|lines| - 1] else lines
  }

  /** The tail is whole lines from the last one back to the first that would break a limit, or a cut of a last line that is too long. */
  ghost predicate TailOf(lines: seq<string>, whole: string, r: Truncation) {
    && lines != [] && IsSuffix(r.content, whole) && r.outputLines == |Split(r.content)|
    && (r.lastLinePartial <==> Size(lines[|lines| - 1]) > r.maxBytes)
    && (r.lastLinePartial ==> r.truncatedBy == Some(ByBytes) && CutFromEnd(lines[|lines| - 1], r.maxBytes, r.content))
    && (!r.lastLinePartial ==> BackToLimit(lines, r))
  }

  ghost predicate IsTail(text: string, r: Truncation) {
    !r.firstLineExceedsLimit && (r.truncated ==> TailOf(TailLines(text), LessFinalNewline(text), r))
  }

  /** Whole lines from the back, up to the limit that stopped it. */
  ghost predicate BackToLimit(lines: seq<string>, r: Truncation) {
    var n := r.outputLines;
    && 0 < n <= |lines| && n <= r.maxLines && r.content == Join(lines[|lines| - n..])
    && (r.truncatedBy == Some(ByLines) <==> n == r.maxLines || n == |lines|)
    && (r.truncatedBy == Some(ByBytes) ==> n < |lines| && Size(Join(lines[|lines| - n - 1..])) > r.maxBytes)
  }

  lemma LastLine(text: string)
    ensures var lines := Split(text);
            var last := lines[|lines| - 1];
            && IsSuffix(last, text)
            && (|lines| > 1 ==> text == Join(lines[..|lines| - 1]) + [LF] + last)
            && (|lines| == 1 ==> text == last)
  {
    var lines := Split(text);
    var last := lines[|lines| - 1];
    JoinSplit(text);
    assert lines == lines[..|lines| - 1] + [last];
    if |lines| > 1 {
      JoinAppend(lines[..|lines| - 1], [last]);
    }
  }

  lemma TailLinesAre(text: string)
    requires text != []
    ensures TailLines(text) != []
    ensures forall i | 0 <= i < |TailLines(text)| :: LF !in TailLines(text)[i]
  {
    JoinSplit(text);
    LastLine(text);
  }

  lemma AfterNewline(head: string, last: string)
    ensures LessFinalNewline(head + [LF]) == head
    ensures last != "" && LF !in last ==> LessFinalNewline(last) == last && LessFinalNewline(head + [LF] + last) == head + [LF] + last
  {
    if last != "" {
      var text := head + [LF] + last;
      assert text[|text| - 1] == last[|last| - 1] && last[|last| - 1] in last;
    }
  }

  lemma TailJoins(text: string)
    requires text != []
    ensures Join(TailLines(text)) == LessFinalNewline(text)
  {
    var lines := Split(text);
    var last := lines[|lines| - 1];
    var head := Join(lines[..|lines| - 1]);
    LastLine(text);
    JoinSplit(text);
    AfterNewline(head, last);
    if last == "" {
      assert head + [LF] + last == head + [LF];
    }
  }

  lemma TailOfLines(lines: seq<string>, n: nat)
    requires 0 < n <= |lines| && forall i | 0 <= i < |lines| :: LF !in lines[i]
    ensures var content := Join(lines[|lines| - n..]); IsSuffix(content, Join(lines)) && |Split(content)| == n
  {
    var m := |lines| - n;
    SplitJoin(lines[m..]);
    assert lines == lines[..m] + lines[m..];
    if m > 0 {
      JoinAppend(lines[..m], lines[m..]);
    }
  }

  lemma TailCut(lines: seq<string>, k: nat)
    requires lines != [] && (forall i | 0 <= i < |lines| :: LF !in lines[i]) && k <= |lines[|lines| - 1]|
    ensures var content := lines[|lines| - 1][k..]; IsSuffix(content, Join(lines)) && |Split(content)| == 1
  {
    var last := lines[|lines| - 1];
    TailOfLines(lines, 1);
    assert lines[|lines| - 1..] == [last];
    assert forall c | c in last[k..] :: c in last;
    OneLine(last[k..]);
    var text := Join(lines);
    assert text[|text| - |last[k..]|..] == text[|text| - |last|..][k..];
  }

  lemma NotEmpty(text: string, maxLines: nat, maxBytes: nat)
    requires maxLines > 0 && (|Split(text)| > maxLines || Size(text) > maxBytes)
    ensures text != []
  {
  }

  /** The lines it holds, and that it ends the text. */
  lemma WholeTailEnds(lines: seq<string>, r: Truncation)
    requires lines != [] && (forall i | 0 <= i < |lines| :: LF !in lines[i]) && BackToLimit(lines, r)
    ensures IsSuffix(r.content, Join(lines)) && |Split(r.content)| == r.outputLines
  {
    TailOfLines(lines, r.outputLines);
  }

  lemma WholeTailFits(lines: seq<string>, r: Truncation)
    requires lines != [] && BackToLimit(lines, r) && Size(r.content) <= r.maxBytes
    ensures Size(lines[|lines| - 1]) <= r.maxBytes
  {
    LastLineFits(lines, r.outputLines);
  }

  lemma WholeTail(lines: seq<string>, r: Truncation)
    requires lines != [] && (forall i | 0 <= i < |lines| :: LF !in lines[i]) && !r.lastLinePartial
    requires BackToLimit(lines, r) && Size(r.content) <= r.maxBytes
    ensures TailOf(lines, Join(lines), r) && |Split(r.content)| <= r.maxLines
  {
    WholeTailEnds(lines, r);
    WholeTailFits(lines, r);
  }

  lemma LastLineFits(lines: seq<string>, n: nat)
    requires 0 < n <= |lines|
    ensures Size(lines[|lines| - 1]) <= Size(Join(lines[|lines| - n..]))
    decreases n
  {
    SizeOfMoreBack(lines, |lines| - n + 1);
    if n > 1 {
      LastLineFits(lines, n - 1);
    }
  }

  lemma PartialTail(lines: seq<string>, r: Truncation, k: nat)
    requires lines != [] && (forall i | 0 <= i < |lines| :: LF !in lines[i])
    requires r.lastLinePartial && r.truncatedBy == Some(ByBytes) && r.outputLines == 1
    requires Size(lines[|lines| - 1]) > r.maxBytes
    requires LongestSuffix(lines[|lines| - 1], r.maxBytes, k) && r.content == lines[|lines| - 1][k..]
    ensures TailOf(lines, Join(lines), r) && |Split(r.content)| == 1 && Size(r.content) <= r.maxBytes
  {
    TailCut(lines, k);
  }

  /** The part of the work that text over a limit needs. */
  method CutTail(lines: seq<string>, totalLines: nat, totalBytes: nat, maxLines: nat, maxBytes: nat) returns (r: Truncation)
    requires lines != [] && (forall i | 0 <= i < |lines| :: LF !in lines[i]) && maxLines > 0
    ensures TailOf(lines, Join(lines), r)
    ensures |Split(r.content)| <= maxLines && r.outputBytes == Size(r.content) <= maxBytes
    ensures r.truncated && r.truncatedBy.Some? && !r.firstLineExceedsLimit
    ensures r.totalLines == totalLines && r.totalBytes == totalBytes && r.maxLines == maxLines && r.maxBytes == maxBytes
  {
    var output, by', partial, k := TakeLinesBack(lines, maxLines, maxBytes);
    var content := Join(output);
    r := Truncation(content, true, Some(by'), totalLines, totalBytes, |output|, Size(content), partial, false, maxLines, maxBytes);
    if partial {
      PartialTail(lines, r, k);
    } else {
      WholeTail(lines, r);
    }
  }

  method TruncateTextTail(text: string, maxLines: int, maxBytes: int) returns (r: Truncation)
    ensures WithinLimits(text, maxLines, maxBytes, r) && IsTail(text, r)
  {
    var lineLimit, byteLimit := Floored(maxLines), Floored(maxBytes);
    var totalBytes, lines := |Encode(text)|, Split(text);
    var totalLines := |lines|;
    if totalLines <= lineLimit && totalBytes <= byteLimit {
      return Truncation(text, false, None, totalLines, totalBytes, totalLines, totalBytes, false, false, lineLimit, byteLimit);
    }
    NotEmpty(text, lineLimit, byteLimit);
    TailLinesAre(text);
    TailJoins(text);
    r := CutTail(TailLines(text), totalLines, totalBytes, lineLimit, byteLimit);
  }
}
