/**
 Applying the hunks of an update to a file's text
 (runtime/coding-tools-mcp/coding_tools_mcp/patching.py, from `apply_update_hunks` on).
 */
module PatchHunks {
  import opened Options
  import opened Lines

  datatype Failure =
    | InvalidEmptyLine
    | InvalidMarker
    | ContextNotFound(hunk: nat)
    | ContextAmbiguous(hunk: nat, matches: nat)
    | HunksOverlap(first: nat, second: nat)

  datatype Result<+T> = Ok(value: T) | Err(error: Failure)

  datatype ParsedHunk = ParsedHunk(old': seq<string>, new': seq<string>)
  datatype MatchedHunk = MatchedHunk(index: nat, start: nat, end: nat, lines: seq<string>)

  const BOM := '\U{FEFF}'
  const CR := '\r'

  // -------------------------------------------------------------------------
  // Line endings
  // -------------------------------------------------------------------------

  function StripBom(text: string): (string, string) {
    if text != [] && text[0] == BOM then ([BOM], text[1..]) else ("", text)
  }

  function Find(text: string, pattern: string): Option<nat> {
    if |text| < |pattern| then None
    else if text[..|pattern|] == pattern then Some(0)
    else if text == [] then None
    else match Find(text[1..], pattern) case None => None case Some(i) => Some(i + 1)
  }

  /** Whether the text is taken to use CRLF: its first newline is one. */
  predicate UsesCrlf(text: string) {
    var crlf, lf := Find(text, [CR, LF]), Find(text, [LF]);
    crlf.Some? && lf.Some? && crlf.value <= lf.value
  }

  function ReplaceCrlf(text: string): string {
    if text == [] then []
    else if |text| >= 2 && text[0] == CR && text[1] == LF then [LF] + ReplaceCrlf(text[2..])
    else [text[0]] + ReplaceCrlf(text[1..])
  }

  function ReplaceCr(text: string): (r: string)
    ensures CR !in r
  {
    if text == [] then [] else [if text[0] == CR then LF else text[0]] + ReplaceCr(text[1..])
  }

  function NormalizeToLf(text: string): (r: string)
    ensures CR !in r
  {
    ReplaceCr(ReplaceCrlf(text))
  }

  function ToCrlf(text: string): string {
    if text == [] then [] else (if text[0] == LF then [CR, LF] else [text[0]]) + ToCrlf(text[1..])
  }

  function RestoreLineEndings(text: string, crlf: bool): string {
    if crlf then ToCrlf(text) else text
  }

  /** The line breaks, other than newlines and carriage returns, at which text is split. */
  predicate IsOtherBreak(c: char) {
    c in {'\U{0B}', '\U{0C}', '\U{1C}', '\U{1D}', '\U{1E}', '\U{85}', '\U{2028}', '\U{2029}'}
  }

  predicate IsBreak(c: char) {
    c == LF || IsOtherBreak(c)
  }

  function FirstBreak(text: string): (i: nat)
    ensures i <= |text| && (i < |text| ==> IsBreak(text[i])) && forall k | 0 <= k < i :: !IsBreak(text[k])
  {
    if text == [] || IsBreak(text[0]) then 0 else 1 + FirstBreak(text[1..])
  }

  /** Text without carriage returns, split into lines; a final break ends the last line. */
  function SplitLines(text: string): seq<string> {
    var i := FirstBreak(text);
    if text == [] then [] else if i == |text| then [text] else [text[..i]] + SplitLines(text[i + 1..])
  }

  predicate EndsWithNewline(text: string) {
    text != [] && text[|text| - 1] == LF
  }

  // -------------------------------------------------------------------------
  // Parsing and placing hunks
  // -------------------------------------------------------------------------

  const END_OF_FILE := "*** End of File"

  /** Puts lines before those of a successful parse. */
  function Before(old': seq<string>, new': seq<string>, r: Result<ParsedHunk>): Result<ParsedHunk> {
    match r case Err(e) => Err(e) case Ok(h) => Ok(ParsedHunk(old' + h.old', new' + h.new'))
  }

  function ParseHunk(hunk: seq<string>): Result<ParsedHunk> {
    if hunk == [] then Ok(ParsedHunk([], []))
    else if hunk[0] == END_OF_FILE then ParseHunk(hunk[1..])
    else if hunk[0] == "" then Err(InvalidEmptyLine)
    else if hunk[0][0] == ' ' then Before([hunk[0][1..]], [hunk[0][1..]], ParseHunk(hunk[1..]))
    else if hunk[0][0] == '-' then Before([hunk[0][1..]], [], ParseHunk(hunk[1..]))
    else if hunk[0][0] == '+' then Before([], [hunk[0][1..]], ParseHunk(hunk[1..]))
    else Err(InvalidMarker)
  }

  /** A line that says what it is: old and new, old, new, or the mark that ends a file. */
  predicate WellMarked(line: string) {
    line == END_OF_FILE || (line != "" && line[0] in {' ', '-', '+'})
  }

  /** The texts of the lines with one of some markers, in order. */
  function TextsOf(hunk: seq<string>, markers: set<char>): seq<string> {
    if hunk == [] then []
    else
      (if hunk[0] != END_OF_FILE && hunk[0] != "" && hunk[0][0] in markers then [hunk[0][1..]] else [])
      + TextsOf(hunk[1..], markers)
  }

  /** A hunk parses exactly when all its lines are marked, and then into the lines marked old and those marked new. */
  lemma {:induction false} ParsedExactlyWhen(hunk: seq<string>)
    ensures ParseHunk(hunk).Ok? <==> forall i | 0 <= i < |hunk| :: WellMarked(hunk[i])
    ensures ParseHunk(hunk).Ok? ==> ParseHunk(hunk).value == ParsedHunk(TextsOf(hunk, {' ', '-'}), TextsOf(hunk, {' ', '+'}))
  {
    if hunk != [] {
      var rest := hunk[1..];
      ParsedExactlyWhen(rest);
      assert (forall i | 0 <= i < |hunk| :: WellMarked(hunk[i])) <==>
             WellMarked(hunk[0]) && forall i | 0 <= i < |rest| :: WellMarked(rest[i]) by {
        assert forall i | 0 <= i < |rest| :: rest[i] == hunk[i + 1];
        assert forall i | 0 < i < |hunk| :: hunk[i] == rest[i - 1];
      }
    }
  }

  /** Every line is context, or the mark that ends a file. */
  predicate OnlyContextLines(hunk: seq<string>) {
    forall i | 0 <= i < |hunk| :: hunk[i] == END_OF_FILE || (hunk[i] != "" && hunk[i][0] == ' ')
  }

  lemma {:induction false} ContextParses(hunk: seq<string>)
    requires OnlyContextLines(hunk)
    ensures ParseHunk(hunk).Ok? && ParseHunk(hunk).value.old' == ParseHunk(hunk).value.new'
  {
    if hunk != [] {
      ContextParses(hunk[1..]);
    }
  }

  lemma {:induction false} AllContextParses(hunks: seq<seq<string>>)
    requires forall k | 0 <= k < |hunks| :: OnlyContextLines(hunks[k])
    ensures ParseAll(hunks).Ok? && ContextOnly(ParseAll(hunks).value)
  {
    if hunks != [] {
      ContextParses(hunks[0]);
      AllContextParses(hunks[1..]);
    }
  }

  lemma BeforeTwice(a: seq<string>, b: seq<string>, c: seq<string>, d: seq<string>, r: Result<ParsedHunk>)
    ensures Before(a, b, Before(c, d, r)) == Before(a + c, b + d, r)
  {
    if r.Ok? {
      assert a + (c + r.value.old') == (a + c) + r.value.old';
      assert b + (d + r.value.new') == (b + d) + r.value.new';
    }
  }

  method ParseUpdateHunk(hunk: seq<string>) returns (r: Result<ParsedHunk>)
    ensures r == ParseHunk(hunk)
  {
    var before, after: seq<string> := [], [];
    assert ParseHunk(hunk).Ok? ==> [] + ParseHunk(hunk).value.old' == ParseHunk(hunk).value.old' && [] + ParseHunk(hunk).value.new' == ParseHunk(hunk).value.new';
    assert hunk[0..] == hunk;
    for i := 0 to |hunk|
      invariant ParseHunk(hunk) == Before(before, after, ParseHunk(hunk[i..]))
    {
      var raw := hunk[i];
      ghost var rest := ParseHunk(hunk[i + 1..]);
      assert hunk[i..][1..] == hunk[i + 1..];
      if raw == END_OF_FILE {
        continue;
      }
      if raw == "" {
        return Err(InvalidEmptyLine);
      }
      var marker := raw[0];
      if marker == ' ' {
        BeforeTwice(before, after, [raw[1..]], [raw[1..]], rest);
        before := before + [raw[1..]];
        after := after + [raw[1..]];
      } else if marker == '-' {
        BeforeTwice(before, after, [raw[1..]], [], rest);
        assert after + [] == after;
        before := before + [raw[1..]];
      } else if marker == '+' {
        BeforeTwice(before, after, [], [raw[1..]], rest);
        assert before + [] == before;
        after := after + [raw[1..]];
      } else {
        return Err(InvalidMarker);
      }
    }
    assert before + [] == before && after + [] == after;
    r := Ok(ParsedHunk(before, after));
  }

  /** Puts results before those that follow, if all succeed. */
  function Prefixed<T>(xs: seq<T>, r: Result<seq<T>>): Result<seq<T>> {
    match r case Err(e) => Err(e) case Ok(ys) => Ok(xs + ys)
  }

  lemma PrefixedTwice<T>(xs: seq<T>, x: T, r: Result<seq<T>>)
    ensures Prefixed(xs, Prefixed([x], r)) == Prefixed(xs + [x], r)
    ensures Prefixed([], r) == r
  {
    if r.Ok? {
      assert xs + ([x] + r.value) == (xs + [x]) + r.value;
      assert [] + r.value == r.value;
    }
  }

  function ParseAll(hunks: seq<seq<string>>): Result<seq<ParsedHunk>> {
    if hunks == [] then Ok([])
    else match ParseHunk(hunks[0]) case Err(e) => Err(e) case Ok(first) => Prefixed([first], ParseAll(hunks[1..]))
  }

  predicate OccursAt(lines: seq<string>, needle: seq<string>, i: nat) {
    i + |needle| <= |lines| && lines[i..i + |needle|] == needle
  }

  /** Every position from `from` on at which the needle occurs, in order. */
  function FindFrom(lines: seq<string>, needle: seq<string>, from: nat): (r: seq<nat>)
    requires needle != []
    ensures forall i :: i in r <==> from <= i && OccursAt(lines, needle, i)
    ensures forall k | 0 <= k < |r| :: from <= r[k]
    ensures forall j, k | 0 <= j < k < |r| :: r[j] < r[k]
    decreases |lines| - from
  {
    if from + |needle| > |lines| then []
    else if lines[from] == needle[0] && OccursAt(lines, needle, from) then [from] + FindFrom(lines, needle, from + 1)
    else FindFrom(lines, needle, from + 1)
  }

  function FindSubsequenceAll(lines: seq<string>, needle: seq<string>): seq<nat> {
    if needle == [] then [0] else FindFrom(lines, needle, 0)
  }

  /** Where hunk number `n` of the list goes. */
  function Place(lines: seq<string>, h: ParsedHunk, n: nat): Result<MatchedHunk> {
    var matches := FindSubsequenceAll(lines, h.old');
    if |matches| == 0 then Err(ContextNotFound(n))
    else if |matches| > 1 then Err(ContextAmbiguous(n, |matches|))
    else Ok(MatchedHunk(n, matches[0], matches[0] + |h.old'|, h.new'))
  }

  lemma PlaceIs(lines: seq<string>, h: ParsedHunk, n: nat)
    requires Place(lines, h, n).Ok?
    ensures
      var m := Place(lines, h, n).value;
      && m == MatchedHunk(n, m.start, m.start + |h.old'|, h.new')
      && OccursAt(lines, h.old', m.start)
      && (h.old' != [] ==> forall i: nat :: OccursAt(lines, h.old', i) ==> i == m.start)
      && (h.old' == [] ==> m.start == 0)
  {
    if h.old' != [] {
      OnlyMatch(lines, h.old', FindFrom(lines, h.old', 0));
    }
  }

  /** Exactly the positions at which the needle occurs. */
  ghost predicate AllMatches(lines: seq<string>, needle: seq<string>, found: seq<nat>) {
    && (forall i: nat :: i in found <==> OccursAt(lines, needle, i))
    && (forall j, k | 0 <= j < k < |found| :: found[j] < found[k])
  }

  lemma OnlyMatch(lines: seq<string>, needle: seq<string>, found: seq<nat>)
    requires |found| == 1 && AllMatches(lines, needle, found)
    ensures OccursAt(lines, needle, found[0]) && forall i: nat :: OccursAt(lines, needle, i) ==> i == found[0]
  {
    assert found[0] in found;
  }

  function PlaceAll(lines: seq<string>, hs: seq<ParsedHunk>, n: nat): (r: Result<seq<MatchedHunk>>)
    ensures r.Ok? ==> |r.value| == |hs|
  {
    if hs == [] then Ok([])
    else match Place(lines, hs[0], n)
      case Err(e) => Err(e)
      case Ok(first) => Prefixed([first], PlaceAll(lines, hs[1..], n + 1))
  }

  lemma {:induction false} PlaceAllAt(lines: seq<string>, hs: seq<ParsedHunk>, n: nat, k: nat)
    requires k < |hs| && PlaceAll(lines, hs, n).Ok?
    ensures Place(lines, hs[k], n + k) == Ok(PlaceAll(lines, hs, n).value[k])
  {
    PlaceAllStep(lines, hs, n);
    if k > 0 {
      PlaceAllAt(lines, hs[1..], n + 1, k - 1);
    }
  }

  lemma PlaceAllStep(lines: seq<string>, hs: seq<ParsedHunk>, n: nat)
    requires hs != [] && PlaceAll(lines, hs, n).Ok?
    ensures Place(lines, hs[0], n).Ok? && PlaceAll(lines, hs[1..], n + 1).Ok?
    ensures PlaceAll(lines, hs, n).value == [Place(lines, hs[0], n).value] + PlaceAll(lines, hs[1..], n + 1).value
  {
  }

  // -------------------------------------------------------------------------
  // Sorting, as the stable library sort does it
  // -------------------------------------------------------------------------

  /** After the entries that start no later. */
  function InsertUp(s: seq<MatchedHunk>, m: MatchedHunk): seq<MatchedHunk> {
    if s != [] && s[|s| - 1].start > m.start then InsertUp(s[..|s| - 1], m) + [s[|s| - 1]] else s + [m]
  }

  function SortUp(s: seq<MatchedHunk>): seq<MatchedHunk> {
    if s == [] then [] else InsertUp(SortUp(s[..|s| - 1]), s[|s| - 1])
  }

  /** After the entries that start no earlier. */
  function InsertDown(s: seq<MatchedHunk>, m: MatchedHunk): seq<MatchedHunk> {
    if s != [] && s[|s| - 1].start < m.start then InsertDown(s[..|s| - 1], m) + [s[|s| - 1]] else s + [m]
  }

  function SortDown(s: seq<MatchedHunk>): seq<MatchedHunk> {
    if s == [] then [] else InsertDown(SortDown(s[..|s| - 1]), s[|s| - 1])
  }

  ghost predicate Ascending(s: seq<MatchedHunk>) {
    forall i, j | 0 <= i < j < |s| :: s[i].start <= s[j].start
  }

  lemma {:induction false} InsertUpMembers(s: seq<MatchedHunk>, m: MatchedHunk)
    ensures multiset(InsertUp(s, m)) == multiset(s) + multiset{m}
  {
    if s != [] && s[|s| - 1].start > m.start {
      InsertUpMembers(s[..|s| - 1], m);
      assert s == s[..|s| - 1] + [s[|s| - 1]];
    }
  }

  lemma {:induction false} InsertUpIn(s: seq<MatchedHunk>, m: MatchedHunk)
    ensures forall x :: x in InsertUp(s, m) <==> x == m || x in s
  {
    if s != [] && s[|s| - 1].start > m.start {
      InsertUpIn(s[..|s| - 1], m);
      assert s == s[..|s| - 1] + [s[|s| - 1]];
    }
  }

  lemma AscendingAppend(s: seq<MatchedHunk>, m: MatchedHunk)
    requires Ascending(s) && forall x | x in s :: x.start <= m.start
    ensures Ascending(s + [m])
  {
  }

  lemma {:induction false} InsertUpAscends(s: seq<MatchedHunk>, m: MatchedHunk)
    requires Ascending(s)
    ensures Ascending(InsertUp(s, m))
  {
    if s != [] && s[|s| - 1].start > m.start {
      var rest, last := s[..|s| - 1], s[|s| - 1];
      InsertUpAscends(rest, m);
      InsertUpIn(rest, m);
      AscendingAppend(InsertUp(rest, m), last);
    } else {
      AscendingAppend(s, m);
    }
  }

  lemma {:induction false} SortUpAscends(s: seq<MatchedHunk>)
    ensures Ascending(SortUp(s))
  {
    if s != [] {
      SortUpAscends(s[..|s| - 1]);
      InsertUpAscends(SortUp(s[..|s| - 1]), s[|s| - 1]);
    }
  }

  lemma {:induction false} SortUpPermutes(s: seq<MatchedHunk>)
    ensures multiset(SortUp(s)) == multiset(s)
  {
    if s != [] {
      var init, last := s[..|s| - 1], s[|s| - 1];
      assert s == init + [last];
      SortUpPermutes(init);
      InsertUpMembers(SortUp(init), last);
    }
  }

  lemma SortUpSorts(s: seq<MatchedHunk>)
    ensures Ascending(SortUp(s)) && multiset(SortUp(s)) == multiset(s)
  {
    SortUpAscends(s);
    SortUpPermutes(s);
  }

  /** Sorting strictly increasing entries downwards reverses them. */
  lemma {:induction false} SortDownReverses(s: seq<MatchedHunk>)
    requires StrictlyAscending(s)
    ensures SortDown(s) == Reverse(s)
  {
    if s != [] {
      var rest, last := s[..|s| - 1], s[|s| - 1];
      SortDownReverses(rest);
      ReverseMembers(rest);
      InsertDownFirst(Reverse(rest), last);
    }
  }

  lemma {:induction false} InsertDownFirst(s: seq<MatchedHunk>, m: MatchedHunk)
    requires forall x | x in s :: x.start < m.start
    ensures InsertDown(s, m) == [m] + s
  {
    if s != [] {
      InsertDownFirst(s[..|s| - 1], m);
      assert s == s[..|s| - 1] + [s[|s| - 1]];
    }
  }

  function Reverse(s: seq<MatchedHunk>): seq<MatchedHunk> {
    if s == [] then [] else [s[|s| - 1]] + Reverse(s[..|s| - 1])
  }

  lemma {:induction false} ReverseMembers(s: seq<MatchedHunk>)
    ensures forall x :: x in Reverse(s) <==> x in s
  {
    if s != [] {
      ReverseMembers(s[..|s| - 1]);
      assert s == s[..|s| - 1] + [s[|s| - 1]];
    }
  }

  // -------------------------------------------------------------------------
  // Splicing
  // -------------------------------------------------------------------------

  function FirstOverlap(s: seq<MatchedHunk>): (r: Option<nat>)
    ensures r.None? ==> forall i | 0 < i < |s| :: s[i - 1].end <= s[i].start
    ensures r.Some? ==> 0 < r.value < |s| && s[r.value - 1].end > s[r.value].start
    ensures r.Some? ==> forall i | 0 < i < r.value :: s[i - 1].end <= s[i].start
  {
    if |s| < 2 then None
    else if s[0].end > s[1].start then Some(1)
    else match FirstOverlap(s[1..]) case None => None case Some(i) => Some(i + 1)
  }

  /** Replaces one hunk's lines; positions past the end are cut off, as slicing does. */
  function SpliceOne(lines: seq<string>, m: MatchedHunk): seq<string> {
    var start := if m.start <= |lines| then m.start else |lines|;
    var end := if m.end <= |lines| then m.end else |lines|;
    lines[..start] + m.lines + lines[end..]
  }

  function Splice(lines: seq<string>, ms: seq<MatchedHunk>): seq<string>
    decreases |ms|
  {
    if ms == [] then lines else Splice(SpliceOne(lines, ms[0]), ms[1..])
  }

  function Updated(lines: seq<string>, matched: seq<MatchedHunk>): Result<seq<string>> {
    var sorted := SortUp(matched);
    var overlap := FirstOverlap(sorted);
    if overlap.Some? then Err(HunksOverlap(sorted[overlap.value - 1].index, sorted[overlap.value].index))
    else Ok(Splice(lines, SortDown(sorted)))
  }

  /** The new text without its byte order mark and with newlines only. */
  function Rejoined(text: string, normalized: string, lines: seq<string>): string {
    var updated := Join(lines);
    if EndsWithNewline(normalized) && (lines != [] || updated == "") then updated + [LF]
    else if text == "" && lines != [] then updated + [LF]
    else updated
  }

  function ApplyHunks(content: string, hunks: seq<seq<string>>): Result<string> {
    if hunks == [] then Ok(content)
    else
      var (bom, text) := StripBom(content);
      var normalized := NormalizeToLf(text);
      var lines := SplitLines(normalized);
      match ParseAll(hunks)
      case Err(e) => Err(e)
      case Ok(parsed) =>
        match PlaceAll(lines, parsed, 0)
        case Err(e) => Err(e)
        case Ok(matched) =>
          match Updated(lines, matched)
          case Err(e) => Err(e)
          case Ok(updated) => Ok(bom + RestoreLineEndings(Rejoined(text, normalized, updated), UsesCrlf(text)))
  }

  method ApplyUpdateHunks(content: string, hunks: seq<seq<string>>) returns (r: Result<string>)
    ensures r == ApplyHunks(content, hunks)
  {
    if hunks == [] {
      return Ok(content);
    }
    var (bom, text) := StripBom(content);
    var normalized := NormalizeToLf(text);
    var lines := SplitLines(normalized);
    var parsed := ParseHunks(hunks);
    match parsed
    case Err(e) => return Err(e);
    case Ok(all) =>
      var matched := MatchHunks(lines, all);
      match matched
      case Err(e) => return Err(e);
      case Ok(ms) =>
        var updated := SpliceHunks(lines, ms);
        match updated
        case Err(e) => return Err(e);
        case Ok(newLines) =>
          r := Ok(bom + RestoreLineEndings(Rejoined(text, normalized, newLines), UsesCrlf(text)));
  }

  method ParseHunks(hunks: seq<seq<string>>) returns (r: Result<seq<ParsedHunk>>)
    ensures r == ParseAll(hunks)
  {
    var parsed: seq<ParsedHunk> := [];
    assert hunks[0..] == hunks;
    assert Prefixed([], ParseAll(hunks)) == ParseAll(hunks) by {
      if ParseAll(hunks).Ok? { assert [] + ParseAll(hunks).value == ParseAll(hunks).value; }
    }
    for i := 0 to |hunks|
      invariant ParseAll(hunks) == Prefixed(parsed, ParseAll(hunks[i..]))
    {
      var one := ParseUpdateHunk(hunks[i]);
      assert hunks[i..][1..] == hunks[i + 1..];
      match one
      case Err(e) => return Err(e);
      case Ok(hunk) =>
        PrefixedTwice(parsed, hunk, ParseAll(hunks[i + 1..]));
        parsed := parsed + [hunk];
    }
    assert parsed + [] == parsed;
    r := Ok(parsed);
  }

  method MatchHunks(lines: seq<string>, parsed: seq<ParsedHunk>) returns (r: Result<seq<MatchedHunk>>)
    ensures r == PlaceAll(lines, parsed, 0)
  {
    var matched: seq<MatchedHunk> := [];
    assert parsed[0..] == parsed;
    assert Prefixed([], PlaceAll(lines, parsed, 0)) == PlaceAll(lines, parsed, 0) by {
      if PlaceAll(lines, parsed, 0).Ok? { assert [] + PlaceAll(lines, parsed, 0).value == PlaceAll(lines, parsed, 0).value; }
    }
    for i := 0 to |parsed|
      invariant PlaceAll(lines, parsed, 0) == Prefixed(matched, PlaceAll(lines, parsed[i..], i))
    {
      assert parsed[i..][1..] == parsed[i + 1..];
      match Place(lines, parsed[i], i)
      case Err(e) => return Err(e);
      case Ok(m) =>
        PrefixedTwice(matched, m, PlaceAll(lines, parsed[i + 1..], i + 1));
        matched := matched + [m];
    }
    assert matched + [] == matched;
    r := Ok(matched);
  }

  method CheckOverlaps(sorted: seq<MatchedHunk>) returns (r: Option<nat>)
    ensures r == FirstOverlap(sorted)
  {
    var i := 1;
    while i < |sorted|
      invariant 1 <= i
      invariant forall k | 0 < k < i && k < |sorted| :: sorted[k - 1].end <= sorted[k].start
    {
      if sorted[i - 1].end > sorted[i].start {
        return Some(i);
      }
      i := i + 1;
    }
    r := None;
  }

  method SpliceHunks(lines: seq<string>, matched: seq<MatchedHunk>) returns (r: Result<seq<string>>)
    ensures r == Updated(lines, matched)
  {
    var sorted := SortUp(matched);
    var overlap := CheckOverlaps(sorted);
    if overlap.Some? {
      return Err(HunksOverlap(sorted[overlap.value - 1].index, sorted[overlap.value].index));
    }
    var descending := SortDown(sorted);
    var updated := lines;
    for k := 0 to |descending|
      invariant Splice(updated, descending[k..]) == Splice(lines, descending)
    {
      assert descending[k..][1..] == descending[k + 1..];
      updated := SpliceOne(updated, descending[k]);
    }
    r := Ok(updated);
  }

  // -------------------------------------------------------------------------
  // What application computes: a forward interleaving
  // -------------------------------------------------------------------------

  /** The ranges lie between `from` and the end of the lines, one after the other. */
  ghost predicate Fits(lines: seq<string>, ms: seq<MatchedHunk>, from: nat) {
    && from <= |lines|
    && (forall i | 0 <= i < |ms| :: from <= ms[i].start <= ms[i].end <= |lines|)
    && (forall i, j | 0 <= i < j < |ms| :: ms[i].end <= ms[j].start)
  }

  /** Reading forward: each untouched gap, then the new lines that follow it. */
  ghost function Interleave(lines: seq<string>, ms: seq<MatchedHunk>, from: nat): seq<string>
    requires Fits(lines, ms, from)
    decreases |ms|
  {
    if ms == [] then lines[from..]
    else lines[from..ms[0].start] + ms[0].lines + Interleave(lines, ms[1..], ms[0].end)
  }

  lemma SplicedFits(lines: seq<string>, ms: seq<MatchedHunk>, m: MatchedHunk, from: nat)
    requires Fits(lines, ms + [m], from)
    ensures from <= m.start <= m.end <= |lines| && forall i | 0 <= i < |ms| :: ms[i].end <= m.start
    ensures Fits(SpliceOne(lines, m), ms, from)
    ensures ms != [] ==> Fits(lines, ms[1..] + [m], ms[0].end)
  {
    var all := ms + [m];
    assert all[|ms|] == m;
    assert forall i | 0 <= i < |ms| :: all[i] == ms[i];
    if ms != [] {
      assert all[1..] == ms[1..] + [m];
    }
  }

  lemma SplicedSlices(lines: seq<string>, m: MatchedHunk, from: nat, to: nat)
    requires from <= to <= m.start <= m.end <= |lines|
    ensures |SpliceOne(lines, m)| >= m.start
    ensures SpliceOne(lines, m)[from..to] == lines[from..to]
    ensures SpliceOne(lines, m)[from..] == lines[from..m.start] + m.lines + lines[m.end..]
  {
  }

  lemma {:induction false} InterleaveLast(lines: seq<string>, ms: seq<MatchedHunk>, m: MatchedHunk, from: nat)
    requires Fits(lines, ms + [m], from)
    ensures Fits(SpliceOne(lines, m), ms, from)
    ensures Interleave(lines, ms + [m], from) == Interleave(SpliceOne(lines, m), ms, from)
    decreases |ms|
  {
    SplicedFits(lines, ms, m, from);
    if ms == [] {
      SplicedSlices(lines, m, from, from);
      assert (ms + [m])[1..] == [];
    } else {
      SplicedSlices(lines, m, from, ms[0].start);
      assert (ms + [m])[1..] == ms[1..] + [m] && (ms + [m])[0] == ms[0];
      InterleaveLast(lines, ms[1..], m, ms[0].end);
    }
  }

  /** Splicing from the back gives the forward interleaving. */
  lemma {:induction false} BackwardIsForward(lines: seq<string>, ms: seq<MatchedHunk>)
    requires Fits(lines, ms, 0)
    ensures Splice(lines, Reverse(ms)) == Interleave(lines, ms, 0)
    decreases |ms|
  {
    if ms != [] {
      var init, last := ms[..|ms| - 1], ms[|ms| - 1];
      assert ms == init + [last];
      InterleaveLast(lines, init, last, 0);
      BackwardIsForward(SpliceOne(lines, last), init);
      assert Reverse(ms)[1..] == Reverse(init);
    }
  }

  predicate DistinctStarts(ms: seq<MatchedHunk>) {
    forall i, j | 0 <= i < j < |ms| :: ms[i].start != ms[j].start
  }

  lemma SortedMembers(ms: seq<MatchedHunk>)
    ensures |SortUp(ms)| == |ms|
    ensures forall m :: m in SortUp(ms) <==> m in ms
  {
    SortUpPermutes(ms);
    assert |multiset(SortUp(ms))| == |multiset(ms)|;
    forall m ensures m in SortUp(ms) <==> m in ms {
      assert m in multiset(SortUp(ms)) <==> m in multiset(ms);
    }
  }

  ghost predicate StrictlyAscending(s: seq<MatchedHunk>) {
    forall i, j | 0 <= i < j < |s| :: s[i].start < s[j].start
  }

  lemma StrictAppend(s: seq<MatchedHunk>, m: MatchedHunk)
    requires StrictlyAscending(s) && forall x | x in s :: x.start < m.start
    ensures StrictlyAscending(s + [m])
  {
  }

  lemma {:induction false} InsertUpStrict(s: seq<MatchedHunk>, m: MatchedHunk)
    requires StrictlyAscending(s) && forall x | x in s :: x.start != m.start
    ensures StrictlyAscending(InsertUp(s, m))
  {
    if s != [] && s[|s| - 1].start > m.start {
      var rest, last := s[..|s| - 1], s[|s| - 1];
      InsertUpStrict(rest, m);
      InsertUpIn(rest, m);
      StrictAppend(InsertUp(rest, m), last);
    } else {
      StrictAppend(s, m);
    }
  }

  lemma {:induction false} SortedDistinct(ms: seq<MatchedHunk>)
    requires DistinctStarts(ms)
    ensures StrictlyAscending(SortUp(ms))
  {
    if ms != [] {
      SortedDistinct(ms[..|ms| - 1]);
      SortedMembers(ms[..|ms| - 1]);
      InsertUpStrict(SortUp(ms[..|ms| - 1]), ms[|ms| - 1]);
    }
  }

  /** Two hunks touch no common line. */
  predicate Apart(a: MatchedHunk, b: MatchedHunk) {
    a.end <= b.start || b.end <= a.start
  }

  predicate AllApart(ms: seq<MatchedHunk>) {
    forall i, j | 0 <= i < j < |ms| :: Apart(ms[i], ms[j])
  }

  /** Of hunks with one start, all but the last listed only insert. */
  predicate InsertionsFirst(ms: seq<MatchedHunk>) {
    forall i, j | 0 <= i < j < |ms| :: ms[i].start == ms[j].start ==> ms[i].start == ms[i].end
  }

  predicate Precedes(a: MatchedHunk, b: MatchedHunk) {
    a.end <= b.start
  }

  /** Every hunk ends before the next ones start. */
  ghost predicate Consecutive(s: seq<MatchedHunk>) {
    forall i, j | 0 <= i < j < |s| :: Precedes(s[i], s[j])
  }

  /** Hunks listed in this order are apart in the order that sorting gives them. */
  predicate SortsApart(a: MatchedHunk, b: MatchedHunk) {
    if a.start <= b.start then Precedes(a, b) else Precedes(b, a)
  }

  lemma ConsecutiveAppend(s: seq<MatchedHunk>, m: MatchedHunk)
    ensures Consecutive(s + [m]) <==> Consecutive(s) && forall x | x in s :: Precedes(x, m)
  {
    var t := s + [m];
    if Consecutive(t) {
      forall i, j | 0 <= i < j < |s| ensures Precedes(s[i], s[j]) {
        assert Precedes(t[i], t[j]);
      }
      forall x | x in s ensures Precedes(x, m) {
        var i :| 0 <= i < |s| && s[i] == x;
        assert Precedes(t[i], t[|s|]);
      }
    }
  }

  lemma {:induction false} InsertConsecutive(s: seq<MatchedHunk>, m: MatchedHunk)
    requires Ascending(s)
    ensures Consecutive(InsertUp(s, m)) <==> Consecutive(s) && forall x | x in s :: SortsApart(x, m)
  {
    if s != [] && s[|s| - 1].start > m.start {
      var rest, last := s[..|s| - 1], s[|s| - 1];
      assert s == rest + [last];
      InsertConsecutive(rest, m);
      InsertUpIn(rest, m);
      ConsecutiveAppend(InsertUp(rest, m), last);
      ConsecutiveAppend(rest, last);
      assert forall x :: x in s <==> x in rest || x == last;
      assert last in s && m in InsertUp(rest, m);
      assert (forall x | x in s :: SortsApart(x, m)) <==> (forall x | x in rest :: SortsApart(x, m)) && Precedes(m, last);
      assert (forall x | x in InsertUp(rest, m) :: Precedes(x, last)) <==> (forall x | x in rest :: Precedes(x, last)) && Precedes(m, last);
    } else {
      ConsecutiveAppend(s, m);
    }
  }

  lemma {:induction false} SortConsecutive(ms: seq<MatchedHunk>)
    ensures Consecutive(SortUp(ms)) <==> forall i, j | 0 <= i < j < |ms| :: SortsApart(ms[i], ms[j])
  {
    if ms != [] {
      var init, last := ms[..|ms| - 1], ms[|ms| - 1];
      SortConsecutive(init);
      SortUpAscends(init);
      SortedMembers(init);
      InsertConsecutive(SortUp(init), last);
      PairsOfMore(init, last);
      assert ms == init + [last];
    }
  }

  lemma PairsOfMore(init: seq<MatchedHunk>, last: MatchedHunk)
    ensures
      var ms := init + [last];
      (forall i, j | 0 <= i < j < |ms| :: SortsApart(ms[i], ms[j])) <==>
        && (forall i, j | 0 <= i < j < |init| :: SortsApart(init[i], init[j]))
        && forall x | x in init :: SortsApart(x, last)
  {
    var ms := init + [last];
    if forall i, j | 0 <= i < j < |ms| :: SortsApart(ms[i], ms[j]) {
      forall i, j | 0 <= i < j < |init| ensures SortsApart(init[i], init[j]) {
        assert SortsApart(ms[i], ms[j]);
      }
      forall x | x in init ensures SortsApart(x, last) {
        var i :| 0 <= i < |init| && init[i] == x;
        assert SortsApart(ms[i], ms[|init|]);
      }
    }
  }

  lemma NeighboursSuffice(s: seq<MatchedHunk>)
    requires Ascending(s)
    ensures FirstOverlap(s).None? <==> Consecutive(s)
  {
    if FirstOverlap(s).None? {
      forall i, j | 0 <= i < j < |s| ensures Precedes(s[i], s[j]) {
        assert s[i + 1 - 1].end <= s[i + 1].start;
      }
    } else {
      assert !Precedes(s[FirstOverlap(s).value - 1], s[FirstOverlap(s).value]);
    }
  }

  predicate Ranges(ms: seq<MatchedHunk>) {
    forall i | 0 <= i < |ms| :: ms[i].start <= ms[i].end
  }

  lemma PairwiseSame(ms: seq<MatchedHunk>)
    requires Ranges(ms)
    ensures (forall i, j | 0 <= i < j < |ms| :: SortsApart(ms[i], ms[j])) <==> AllApart(ms) && InsertionsFirst(ms)
  {
    if forall i, j | 0 <= i < j < |ms| :: SortsApart(ms[i], ms[j]) {
      forall i, j | 0 <= i < j < |ms| ensures Apart(ms[i], ms[j]) && (ms[i].start == ms[j].start ==> ms[i].start == ms[i].end) {
        assert SortsApart(ms[i], ms[j]);
      }
    }
    if AllApart(ms) && InsertionsFirst(ms) {
      forall i, j | 0 <= i < j < |ms| ensures SortsApart(ms[i], ms[j]) {
        assert Apart(ms[i], ms[j]);
      }
    }
  }

  /**
   The check on neighbours after sorting passes exactly when all pairs are apart
   and, of hunks with one start, all but the last listed only insert.
   */
  lemma NeighboursDecide(ms: seq<MatchedHunk>)
    requires Ranges(ms)
    ensures FirstOverlap(SortUp(ms)).None? <==> AllApart(ms) && InsertionsFirst(ms)
    ensures FirstOverlap(SortUp(ms)).None? <==> Consecutive(SortUp(ms))
  {
    SortUpAscends(ms);
    NeighboursSuffice(SortUp(ms));
    SortConsecutive(ms);
    PairwiseSame(ms);
  }

  ghost predicate Within(lines: seq<string>, ms: seq<MatchedHunk>) {
    forall m | m in ms :: m.start <= m.end <= |lines|
  }

  lemma SortedFits(lines: seq<string>, ms: seq<MatchedHunk>)
    requires Within(lines, ms) && Consecutive(SortUp(ms))
    ensures Fits(lines, SortUp(ms), 0)
  {
    SortedMembers(ms);
    var s := SortUp(ms);
    forall i, j | 0 <= i < j < |s| ensures s[i].end <= s[j].start {
      assert Precedes(s[i], s[j]);
    }
    forall i | 0 <= i < |s| ensures s[i].start <= s[i].end <= |lines| {
      assert s[i] in ms;
    }
  }

  /** Exactly when placed hunks are accepted; the interleaving then makes sense. */
  lemma UpdatesExactlyWhen(lines: seq<string>, ms: seq<MatchedHunk>)
    requires Within(lines, ms)
    ensures Updated(lines, ms).Ok? <==> AllApart(ms) && InsertionsFirst(ms)
    ensures Updated(lines, ms).Ok? ==> Fits(lines, SortUp(ms), 0)
  {
    NeighboursDecide(ms);
    if Updated(lines, ms).Ok? {
      SortedFits(lines, ms);
    }
  }

  /** Placed hunks with distinct starts: the lines become the forward interleaving. */
  lemma UpdatedIsInterleaving(lines: seq<string>, ms: seq<MatchedHunk>)
    requires DistinctStarts(ms) && Within(lines, ms)
    ensures Updated(lines, ms).Ok? <==> AllApart(ms)
    ensures AllApart(ms) ==> Fits(lines, SortUp(ms), 0) && Updated(lines, ms) == Ok(Interleave(lines, SortUp(ms), 0))
  {
    UpdatesExactlyWhen(lines, ms);
    if AllApart(ms) {
      SortedDistinct(ms);
      SortDownReverses(SortUp(ms));
      BackwardIsForward(lines, SortUp(ms));
    }
  }

  // -------------------------------------------------------------------------
  // When application succeeds
  // -------------------------------------------------------------------------

  ghost predicate OccursOnce(lines: seq<string>, needle: seq<string>) {
    exists i: nat :: OccursAt(lines, needle, i) && forall j: nat :: OccursAt(lines, needle, j) ==> j == i
  }

  lemma NowhereFound(lines: seq<string>, needle: seq<string>, found: seq<nat>)
    requires AllMatches(lines, needle, found)
    ensures found == [] <==> forall i: nat :: !OccursAt(lines, needle, i)
  {
    if found != [] {
      assert found[0] in found;
    }
  }

  lemma OnceFound(lines: seq<string>, needle: seq<string>, found: seq<nat>)
    requires AllMatches(lines, needle, found)
    ensures |found| == 1 <==> OccursOnce(lines, needle)
  {
    assert |found| > 1 ==> found[0] < found[1];
    if |found| == 1 {
      OnlyMatch(lines, needle, found);
    }
    if OccursOnce(lines, needle) {
      var i: nat :| OccursAt(lines, needle, i) && forall j: nat :: OccursAt(lines, needle, j) ==> j == i;
      assert i in found;
      forall k | 0 <= k < |found| ensures found[k] == i {
        assert found[k] in found && OccursAt(lines, needle, found[k]);
      }
    }
  }

  /** Placed exactly when the old lines occur once, not found exactly when they are nowhere. */
  lemma PlacedExactlyWhen(lines: seq<string>, h: ParsedHunk, n: nat)
    requires h.old' != []
    ensures Place(lines, h, n).Ok? <==> OccursOnce(lines, h.old')
    ensures Place(lines, h, n) == Err(ContextNotFound(n)) <==> forall i: nat :: !OccursAt(lines, h.old', i)
  {
    PlacedByMatches(lines, h, n, FindFrom(lines, h.old', 0));
  }

  lemma PlacedByMatches(lines: seq<string>, h: ParsedHunk, n: nat, found: seq<nat>)
    requires found == FindSubsequenceAll(lines, h.old') && AllMatches(lines, h.old', found)
    ensures Place(lines, h, n).Ok? <==> OccursOnce(lines, h.old')
    ensures Place(lines, h, n) == Err(ContextNotFound(n)) <==> forall i: nat :: !OccursAt(lines, h.old', i)
  {
    NowhereFound(lines, h.old', found);
    OnceFound(lines, h.old', found);
  }

  lemma {:induction false} AllPlaced(lines: seq<string>, hs: seq<ParsedHunk>, n: nat)
    ensures PlaceAll(lines, hs, n).Ok? <==> forall k | 0 <= k < |hs| :: Place(lines, hs[k], n + k).Ok?
  {
    if PlaceAll(lines, hs, n).Ok? {
      forall k | 0 <= k < |hs| ensures Place(lines, hs[k], n + k).Ok? {
        PlaceAllAt(lines, hs, n, k);
      }
    } else {
      var k := FirstUnplaced(lines, hs, n);
    }
  }

  lemma {:induction false} FirstUnplaced(lines: seq<string>, hs: seq<ParsedHunk>, n: nat) returns (k: nat)
    requires PlaceAll(lines, hs, n).Err?
    ensures k < |hs| && Place(lines, hs[k], n + k).Err?
  {
    if Place(lines, hs[0], n).Err? {
      k := 0;
    } else {
      var j := FirstUnplaced(lines, hs[1..], n + 1);
      k := j + 1;
    }
  }

  lemma AllPlacedExactlyWhen(lines: seq<string>, hs: seq<ParsedHunk>)
    requires NonEmptyOld(hs)
    ensures PlaceAll(lines, hs, 0).Ok? <==> forall k | 0 <= k < |hs| :: OccursOnce(lines, hs[k].old')
  {
    AllPlaced(lines, hs, 0);
    forall k | 0 <= k < |hs| ensures Place(lines, hs[k], 0 + k).Ok? <==> OccursOnce(lines, hs[k].old') {
      PlacedExactlyWhen(lines, hs[k], 0 + k);
    }
  }

  /** A list of hunks, each with its only place in the lines. */
  ghost predicate Placed(lines: seq<string>, hs: seq<ParsedHunk>, ms: seq<MatchedHunk>) {
    && |ms| == |hs|
    && forall k | 0 <= k < |hs| ::
      && ms[k] == MatchedHunk(k, ms[k].start, ms[k].start + |hs[k].old'|, hs[k].new')
      && OccursAt(lines, hs[k].old', ms[k].start)
      && (hs[k].old' != [] ==> forall i: nat :: OccursAt(lines, hs[k].old', i) ==> i == ms[k].start)
      && (hs[k].old' == [] ==> ms[k].start == 0)
  }

  lemma PlacedWithin(lines: seq<string>, hs: seq<ParsedHunk>, ms: seq<MatchedHunk>)
    requires Placed(lines, hs, ms)
    ensures Within(lines, ms) && forall m | m in ms && m.start == m.end :: m.start == 0
  {
    forall m | m in ms ensures m.start <= m.end <= |lines| && (m.start == m.end ==> m.start == 0) {
      var k :| 0 <= k < |ms| && ms[k] == m;
      assert OccursAt(lines, hs[k].old', ms[k].start);
    }
  }

  lemma PlaceAllPlaces(lines: seq<string>, hs: seq<ParsedHunk>)
    requires PlaceAll(lines, hs, 0).Ok?
    ensures Placed(lines, hs, PlaceAll(lines, hs, 0).value)
  {
    var ms := PlaceAll(lines, hs, 0).value;
    forall k | 0 <= k < |hs|
      ensures ms[k] == MatchedHunk(k, ms[k].start, ms[k].start + |hs[k].old'|, hs[k].new')
      ensures OccursAt(lines, hs[k].old', ms[k].start)
      ensures hs[k].old' != [] ==> forall i: nat :: OccursAt(lines, hs[k].old', i) ==> i == ms[k].start
      ensures hs[k].old' == [] ==> ms[k].start == 0
    {
      PlaceAllAt(lines, hs, 0, k);
      PlaceIs(lines, hs[k], k);
    }
  }

  /** The lines that hunks are matched against. */
  function LinesOf(content: string): seq<string> {
    SplitLines(NormalizeToLf(StripBom(content).1))
  }

  /** The file text for new lines, in the form of the old text. */
  function TextOf(content: string, lines: seq<string>): string {
    var (bom, text) := StripBom(content);
    bom + RestoreLineEndings(Rejoined(text, NormalizeToLf(text), lines), UsesCrlf(text))
  }

  /**
   Hunks that start at distinct lines succeed exactly when they are apart, and
   then the new text is the forward interleaving of gaps and new lines.
   */
  lemma AppliedForward(content: string, hunks: seq<seq<string>>)
    requires hunks != [] && ParseAll(hunks).Ok?
    requires PlaceAll(LinesOf(content), ParseAll(hunks).value, 0).Ok?
    requires DistinctStarts(PlaceAll(LinesOf(content), ParseAll(hunks).value, 0).value)
    ensures
      var lines, hs := LinesOf(content), ParseAll(hunks).value;
      var ms := PlaceAll(lines, hs, 0).value;
      && Placed(lines, hs, ms)
      && (ApplyHunks(content, hunks).Ok? <==> AllApart(ms))
      && (AllApart(ms) ==>
        && Fits(lines, SortUp(ms), 0)
        && ApplyHunks(content, hunks) == Ok(TextOf(content, Interleave(lines, SortUp(ms), 0))))
  {
    var lines, hs := LinesOf(content), ParseAll(hunks).value;
    var ms := PlaceAll(lines, hs, 0).value;
    PlaceAllPlaces(lines, hs);
    PlacedWithin(lines, hs, ms);
    UpdatedIsInterleaving(lines, ms);
  }

  ghost predicate NonEmptyOld(hs: seq<ParsedHunk>) {
    forall k | 0 <= k < |hs| :: hs[k].old' != []
  }

  /** Hunks that name old lines and are apart start at distinct lines. */
  lemma ApartIsDistinct(lines: seq<string>, hs: seq<ParsedHunk>, ms: seq<MatchedHunk>)
    requires NonEmptyOld(hs) && Placed(lines, hs, ms) && AllApart(ms)
    ensures DistinctStarts(ms)
  {
    forall i, j | 0 <= i < j < |ms| ensures ms[i].start != ms[j].start {
      assert Apart(ms[i], ms[j]);
    }
  }

  /**
   Hunks that all name old lines: they apply exactly when each old part occurs
   exactly once and no two meet, and then the text is the forward interleaving.
   */
  lemma AppliedExactlyWhen(content: string, hunks: seq<seq<string>>)
    requires hunks != [] && ParseAll(hunks).Ok? && NonEmptyOld(ParseAll(hunks).value)
    ensures
      var lines, hs := LinesOf(content), ParseAll(hunks).value;
      ApplyHunks(content, hunks).Ok? <==>
        && (forall k | 0 <= k < |hs| :: OccursOnce(lines, hs[k].old'))
        && exists ms :: Placed(lines, hs, ms) && AllApart(ms)
    ensures
      var lines, hs := LinesOf(content), ParseAll(hunks).value;
      forall ms | Placed(lines, hs, ms) && AllApart(ms) ::
        && Fits(lines, SortUp(ms), 0)
        && ApplyHunks(content, hunks) == Ok(TextOf(content, Interleave(lines, SortUp(ms), 0)))
  {
    var lines, hs := LinesOf(content), ParseAll(hunks).value;
    AllPlacedExactlyWhen(lines, hs);
    forall ms | Placed(lines, hs, ms) && AllApart(ms)
      ensures Fits(lines, SortUp(ms), 0)
      ensures ApplyHunks(content, hunks) == Ok(TextOf(content, Interleave(lines, SortUp(ms), 0)))
    {
      OnePlacement(lines, hs, ms);
      ApartIsDistinct(lines, hs, ms);
      AppliedForward(content, hunks);
    }
    if ApplyHunks(content, hunks).Ok? {
      var ms := PlaceAll(lines, hs, 0).value;
      PlaceAllPlaces(lines, hs);
      PlacedWithin(lines, hs, ms);
      UpdatesExactlyWhen(lines, ms);
      ApartIsDistinct(lines, hs, ms);
      AppliedForward(content, hunks);
    }
  }

  lemma OnePlacement(lines: seq<string>, hs: seq<ParsedHunk>, ms: seq<MatchedHunk>)
    requires NonEmptyOld(hs) && Placed(lines, hs, ms)
    ensures PlaceAll(lines, hs, 0) == Ok(ms)
  {
    forall k | 0 <= k < |hs| ensures OccursOnce(lines, hs[k].old') {
      assert OccursAt(lines, hs[k].old', ms[k].start);
    }
    AllPlacedExactlyWhen(lines, hs);
    var found := PlaceAll(lines, hs, 0).value;
    PlaceAllPlaces(lines, hs);
    forall k | 0 <= k < |hs| ensures found[k] == ms[k] {
      assert OccursAt(lines, hs[k].old', found[k].start);
    }
    assert found == ms;
  }

  // -------------------------------------------------------------------------
  // Context-only hunks
  // -------------------------------------------------------------------------

  /** Every hunk writes back the lines it names. */
  predicate ContextOnly(hs: seq<ParsedHunk>) {
    forall k | 0 <= k < |hs| :: hs[k].old' == hs[k].new'
  }

  /** Each place already holds the lines that go there. */
  ghost predicate Written(lines: seq<string>, ms: seq<MatchedHunk>) {
    forall m | m in ms :: m.start <= m.end <= |lines| && lines[m.start..m.end] == m.lines
  }

  lemma {:induction false} WrittenStays(lines: seq<string>, ms: seq<MatchedHunk>)
    requires Written(lines, ms)
    ensures Splice(lines, ms) == lines
    decreases |ms|
  {
    if ms != [] {
      assert ms[0] in ms;
      assert SpliceOne(lines, ms[0]) == lines;
      WrittenStays(lines, ms[1..]);
    }
  }

  lemma {:induction false} InsertDownMembers(s: seq<MatchedHunk>, m: MatchedHunk)
    ensures forall x | x in InsertDown(s, m) :: x == m || x in s
  {
    if s != [] && s[|s| - 1].start < m.start {
      InsertDownMembers(s[..|s| - 1], m);
    }
  }

  lemma {:induction false} SortDownMembers(s: seq<MatchedHunk>)
    ensures forall x | x in SortDown(s) :: x in s
  {
    if s != [] {
      SortDownMembers(s[..|s| - 1]);
      InsertDownMembers(SortDown(s[..|s| - 1]), s[|s| - 1]);
    }
  }

  lemma PlacedIsWritten(lines: seq<string>, hs: seq<ParsedHunk>, ms: seq<MatchedHunk>)
    requires Placed(lines, hs, ms) && ContextOnly(hs)
    ensures Written(lines, ms)
  {
  }

  lemma ContextOnlyUpdates(lines: seq<string>, ms: seq<MatchedHunk>)
    requires Written(lines, ms) && Updated(lines, ms).Ok?
    ensures Updated(lines, ms) == Ok(lines)
  {
    SortedMembers(ms);
    SortDownMembers(SortUp(ms));
    WrittenStays(lines, SortDown(SortUp(ms)));
  }

  lemma ContextOnlyKeepsLines(content: string, hunks: seq<seq<string>>)
    requires hunks != [] && ParseAll(hunks).Ok? && ContextOnly(ParseAll(hunks).value)
    requires ApplyHunks(content, hunks).Ok?
    ensures ApplyHunks(content, hunks).value == TextOf(content, LinesOf(content))
  {
    var lines, hs := LinesOf(content), ParseAll(hunks).value;
    PlaceAllPlaces(lines, hs);
    var ms := PlaceAll(lines, hs, 0).value;
    PlacedIsWritten(lines, hs, ms);
    ContextOnlyUpdates(lines, ms);
  }

  ghost predicate NoOtherBreaks(text: string) {
    forall c | c in text :: !IsOtherBreak(c)
  }

  /** Carriage returns and newlines come in pairs only. */
  predicate CrlfOnly(text: string) {
    || text == []
    || (text[0] != CR && text[0] != LF && CrlfOnly(text[1..]))
    || (|text| >= 2 && text[0] == CR && text[1] == LF && CrlfOnly(text[2..]))
  }

  /** Newlines only or CRLF pairs only, and no other line breaks. */
  ghost predicate Uniform(text: string) {
    NoOtherBreaks(text) && (CR !in text || CrlfOnly(text))
  }

  lemma {:induction false} LinesHaveNoBreaks(text: string, k: nat, c: char)
    requires k < |SplitLines(text)| && c in SplitLines(text)[k]
    ensures c in text && !IsBreak(c)
  {
    var i := FirstBreak(text);
    if i < |text| && k > 0 {
      LinesHaveNoBreaks(text[i + 1..], k - 1, c);
    }
  }

  lemma {:induction false} JoinChars(lines: seq<string>, c: char)
    requires c in Join(lines)
    ensures c == LF || exists k :: 0 <= k < |lines| && c in lines[k]
  {
    if |lines| > 1 && c !in lines[0] && c != LF {
      assert c in Join(lines[1..]);
      JoinChars(lines[1..], c);
      var k :| 0 <= k < |lines[1..]| && c in lines[1..][k];
      assert c in lines[k + 1];
    }
  }

  /** Splitting text and joining the lines again, with the final newline. */
  function Rewritten(text: string): string {
    Glued(SplitLines(text), EndsWithNewline(text))
  }

  lemma RejoinedIsRewritten(text: string)
    ensures Rejoined(text, NormalizeToLf(text), SplitLines(NormalizeToLf(text))) == Rewritten(NormalizeToLf(text))
  {
    var normalized := NormalizeToLf(text);
    assert normalized != [] ==> SplitLines(normalized) != [];
    assert Join(SplitLines(normalized)) + [] == Join(SplitLines(normalized));
  }

  lemma RewrittenChars(text: string)
    requires CR !in text
    ensures NoOtherBreaks(Rewritten(text)) && CR !in Rewritten(text)
  {
    forall c | c in Rewritten(text) ensures c == LF || (c in text && !IsBreak(c)) {
      if c != LF {
        JoinChars(SplitLines(text), c);
        var k :| 0 <= k < |SplitLines(text)| && c in SplitLines(text)[k];
        LinesHaveNoBreaks(text, k, c);
      }
    }
  }

  /** Lines joined, with a final newline or without. */
  function Glued(lines: seq<string>, ends: bool): string {
    Join(lines) + (if ends then [LF] else [])
  }

  lemma GluedStep(first: string, lines: seq<string>, ends: bool)
    requires lines != []
    ensures Glued([first] + lines, ends) == first + [LF] + Glued(lines, ends)
  {
    assert ([first] + lines)[1..] == lines;
    var end := if ends then [LF] else [];
    assert (first + [LF] + Join(lines)) + end == first + [LF] + (Join(lines) + end);
  }

  lemma {:induction false} RewrittenStays(text: string)
    requires NoOtherBreaks(text)
    ensures Glued(SplitLines(text), EndsWithNewline(text)) == text
  {
    var i := FirstBreak(text);
    if i == |text| {
      assert text != [] ==> text[|text| - 1] != LF;
    } else {
      var first, rest := text[..i], text[i + 1..];
      assert text[i] in text;
      assert text == first + [LF] + rest;
      if rest == [] {
        assert SplitLines(text) == [first] + SplitLines([]) == [first];
      } else {
        RewrittenStays(rest);
        GluedStep(first, SplitLines(rest), EndsWithNewline(rest));
      }
    }
  }

  lemma {:induction false} LfOnlyStays(text: string)
    requires CR !in text
    ensures ReplaceCrlf(text) == text && ReplaceCr(text) == text
  {
    if text != [] {
      assert text[0] in text;
      LfOnlyStays(text[1..]);
    }
  }

  lemma {:induction false} NoCrNoCrlf(text: string)
    requires CR !in text
    ensures Find(text, [CR, LF]).None?
  {
    if text != [] {
      assert text[0] in text;
      NoCrNoCrlf(text[1..]);
    }
  }

  lemma {:induction false} CrlfRoundTrip(text: string)
    requires CrlfOnly(text)
    ensures ToCrlf(NormalizeToLf(text)) == text
  {
    if text == [] {
    } else if text[0] == CR {
      CrlfRoundTrip(text[2..]);
      assert NormalizeToLf(text) == [LF] + NormalizeToLf(text[2..]);
      assert text == [CR, LF] + text[2..];
    } else {
      CrlfRoundTrip(text[1..]);
      assert NormalizeToLf(text) == [text[0]] + NormalizeToLf(text[1..]);
      assert text == [text[0]] + text[1..];
    }
  }

  lemma {:induction false} CrlfDetected(text: string)
    requires CrlfOnly(text) && CR in text
    ensures UsesCrlf(text)
    ensures Find(text, [CR, LF]).Some? && Find(text, [LF]) == Some(Find(text, [CR, LF]).value + 1)
  {
    if text[0] == CR {
      assert text[..2] == [CR, LF] && text[..1] == [CR] && text[1..][..1] == [LF];
    } else {
      assert text[..1] == [text[0]] && text[..1] != [LF];
      assert |text| >= 2 ==> text[..2][0] == text[0];
      CrlfDetected(text[1..]);
    }
  }

  lemma {:induction false} ToCrlfPairs(text: string)
    requires CR !in text
    ensures CrlfOnly(ToCrlf(text))
  {
    if text != [] {
      assert text[0] in text;
      ToCrlfPairs(text[1..]);
      assert text[0] == LF ==> ToCrlf(text)[2..] == ToCrlf(text[1..]);
      assert text[0] != LF ==> ToCrlf(text)[1..] == ToCrlf(text[1..]);
    }
  }

  lemma {:induction false} ToCrlfChars(text: string)
    requires NoOtherBreaks(text)
    ensures NoOtherBreaks(ToCrlf(text))
  {
    if text != [] {
      assert text[0] in text;
      ToCrlfChars(text[1..]);
    }
  }

  lemma {:induction false} NormalizeChars(text: string)
    requires NoOtherBreaks(text)
    ensures NoOtherBreaks(ReplaceCrlf(text)) && NoOtherBreaks(ReplaceCr(text))
    decreases |text|
  {
    if text != [] {
      assert text[0] in text;
      NormalizeChars(text[1..]);
      if |text| >= 2 {
        NormalizeChars(text[2..]);
      }
    }
  }

  /** Text whose lines are written back unchanged comes back unchanged exactly when it is uniform. */
  lemma RewritingIsIdentityExactlyWhen(content: string)
    ensures TextOf(content, LinesOf(content)) == content <==> Uniform(StripBom(content).1)
  {
    var (bom, text) := StripBom(content);
    var normalized := NormalizeToLf(text);
    assert content == bom + text;
    RejoinedIsRewritten(text);
    var back := Rewritten(normalized);
    var restored := RestoreLineEndings(back, UsesCrlf(text));
    assert TextOf(content, LinesOf(content)) == bom + restored;
    assert (bom + restored)[|bom|..] == restored && (bom + text)[|bom|..] == text;
    RewrittenChars(normalized);
    ToCrlfPairs(back);
    ToCrlfChars(back);
    if Uniform(text) {
      UniformRestored(text);
    }
  }

  lemma UniformRestored(text: string)
    requires Uniform(text)
    ensures RestoreLineEndings(Rewritten(NormalizeToLf(text)), UsesCrlf(text)) == text
  {
    NormalizeChars(text);
    NormalizeChars(ReplaceCrlf(text));
    RewrittenStays(NormalizeToLf(text));
    if CR in text {
      CrlfRoundTrip(text);
      CrlfDetected(text);
    } else {
      LfOnlyStays(text);
      NoCrNoCrlf(text);
    }
  }

  /** Context-only hunks give back the file exactly when its text is uniform, byte order mark included. */
  lemma ContextOnlyIsIdentityExactlyWhen(content: string, hunks: seq<seq<string>>)
    requires hunks != [] && ParseAll(hunks).Ok? && ContextOnly(ParseAll(hunks).value)
    requires ApplyHunks(content, hunks).Ok?
    ensures ApplyHunks(content, hunks) == Ok(content) <==> Uniform(StripBom(content).1)
  {
    ContextOnlyKeepsLines(content, hunks);
    RewritingIsIdentityExactlyWhen(content);
  }

  /** The same for hunks that have only context lines. */
  lemma ContextLinesAreIdentityExactlyWhen(content: string, hunks: seq<seq<string>>)
    requires hunks != [] && forall k | 0 <= k < |hunks| :: OnlyContextLines(hunks[k])
    requires ApplyHunks(content, hunks).Ok?
    ensures ApplyHunks(content, hunks) == Ok(content) <==> Uniform(StripBom(content).1)
  {
    AllContextParses(hunks);
    ContextOnlyIsIdentityExactlyWhen(content, hunks);
  }
}
