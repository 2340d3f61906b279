/**
 Line endings, reading back what was written, and what a patch that does not apply is refused for
 (runtime/coding-tools-mcp/coding_tools_mcp/patching.py, from `apply_update_hunks` on).
 */
module HunkText {
  import opened Options
  import opened Lines
  import opened PatchHunks

  // -------------------------------------------------------------------------
  // Line endings
  // -------------------------------------------------------------------------

  /** In one pass: a carriage return before a newline goes, any other becomes a newline. */
  function OnePass(text: string): string {
    if text == [] then []
    else if text[0] != CR then [text[0]] + OnePass(text[1..])
    else (if |text| >= 2 && text[1] == LF then [] else [LF]) + OnePass(text[1..])
  }

  /** Two replacements one after the other are that one pass. */
  lemma {:induction false} NormalizeIsOnePass(text: string)
    ensures NormalizeToLf(text) == OnePass(text)
    decreases |text|
  {
    if |text| >= 2 && text[0] == CR && text[1] == LF {
      NormalizeIsOnePass(text[2..]);
      assert text[1..][1..] == text[2..];
      assert OnePass(text) == OnePass(text[1..]) == [LF] + OnePass(text[2..]);
      assert ([LF] + ReplaceCrlf(text[2..]))[1..] == ReplaceCrlf(text[2..]);
    } else if text != [] {
      NormalizeIsOnePass(text[1..]);
      assert ([text[0]] + ReplaceCrlf(text[1..]))[1..] == ReplaceCrlf(text[1..]);
    }
  }

  /** Text with newlines only survives being written with CRLF and read again. */
  lemma {:induction false} WrittenCrlfReadsBack(text: string)
    requires CR !in text
    ensures NormalizeToLf(ToCrlf(text)) == text
  {
    if text != [] {
      assert text[0] in text;
      var rest := ToCrlf(text[1..]);
      WrittenCrlfReadsBack(text[1..]);
      if text[0] == LF {
        assert ([CR, LF] + rest)[2..] == rest;
        assert ([LF] + ReplaceCrlf(rest))[1..] == ReplaceCrlf(rest);
      } else {
        assert ([text[0]] + rest)[1..] == rest;
        assert ([text[0]] + ReplaceCrlf(rest))[1..] == ReplaceCrlf(rest);
      }
      assert text == [text[0]] + text[1..];
    }
  }

  predicate At(text: string, pattern: string, i: nat) {
    i + |pattern| <= |text| && text[i..i + |pattern|] == pattern
  }

  lemma AtLater(text: string, pattern: string, i: nat)
    requires text != []
    ensures At(text[1..], pattern, i) <==> At(text, pattern, i + 1)
  {
    if i + 1 + |pattern| <= |text| {
      assert text[1..][i..i + |pattern|] == text[i + 1..i + 1 + |pattern|];
    }
  }

  lemma {:induction false} FindsFirst(text: string, pattern: string, k: nat)
    requires pattern != []
    ensures Find(text, pattern).Some? ==> At(text, pattern, Find(text, pattern).value)
    ensures At(text, pattern, k) ==> Find(text, pattern).Some? && Find(text, pattern).value <= k
  {
    if |text| >= |pattern| && text[..|pattern|] != pattern {
      FindsFirst(text[1..], pattern, if k > 0 then k - 1 else 0);
      if Find(text[1..], pattern).Some? {
        AtLater(text, pattern, Find(text[1..], pattern).value);
      }
      if k > 0 {
        AtLater(text, pattern, k - 1);
      }
    }
  }

  lemma AtNewline(text: string, i: nat)
    ensures At(text, [LF], i) <==> i < |text| && text[i] == LF
    ensures At(text, [CR, LF], i) <==> i + 1 < |text| && text[i] == CR && text[i + 1] == LF
  {
    if i + 1 < |text| {
      assert text[i..i + 2] == [text[i], text[i + 1]];
    }
    if i < |text| {
      assert text[i..i + 1] == [text[i]];
    }
  }

  /** The first newline of a text is at `i`, or there is none and `i` is its length. */
  predicate FirstNewline(text: string, i: nat) {
    i <= |text| && (i < |text| ==> text[i] == LF) && forall k | 0 <= k < i :: text[k] != LF
  }

  lemma FirstIsFound(text: string, i: nat, found: Option<nat>)
    requires FirstNewline(text, i)
    requires found.Some? ==> found.value < |text| && text[found.value] == LF
    requires i < |text| ==> found.Some? && found.value <= i
    ensures found == if i < |text| then Some(i) else None
  {
  }

  lemma NewlineFound(text: string, i: nat)
    requires FirstNewline(text, i)
    ensures Find(text, [LF]) == if i < |text| then Some(i) else None
  {
    var found := Find(text, [LF]);
    FindsFirst(text, [LF], i);
    AtNewline(text, i);
    if found.Some? {
      AtNewline(text, found.value);
    }
    FirstIsFound(text, i, found);
  }

  /** A text is taken to use CRLF exactly when its first newline follows a carriage return. */
  lemma UsesCrlfExactlyWhen(text: string, i: nat)
    requires FirstNewline(text, i)
    ensures UsesCrlf(text) <==> 0 < i < |text| && text[i - 1] == CR
  {
    NewlineFound(text, i);
    if i > 0 {
      FindsFirst(text, [CR, LF], i - 1);
      AtNewline(text, i - 1);
    } else {
      FindsFirst(text, [CR, LF], 0);
    }
    if Find(text, [CR, LF]).Some? {
      AtNewline(text, Find(text, [CR, LF]).value);
    }
  }

  // -------------------------------------------------------------------------
  // Reading back
  // -------------------------------------------------------------------------

  /** Whether the new text gets a final newline: the old one had one, or was empty. */
  predicate AddsNewline(content: string, lines: seq<string>) {
    var text := StripBom(content).1;
    EndsWithNewline(OnePass(text)) || (text == "" && lines != [])
  }

  lemma NewTextIs(content: string, lines: seq<string>)
    ensures var (bom, text) := StripBom(content);
            TextOf(content, lines) == bom + RestoreLineEndings(Glued(lines, AddsNewline(content, lines)), UsesCrlf(text))
  {
    var text := StripBom(content).1;
    NormalizeIsOnePass(text);
    assert Join(lines) + [] == Join(lines);
  }

  /** Lines that hold no line break of any kind. */
  ghost predicate Clean(lines: seq<string>) {
    forall k | 0 <= k < |lines| :: CleanLine(lines[k])
  }

  ghost predicate CleanLine(line: string) {
    forall c | c in line :: c != CR && !IsBreak(c)
  }

  /** The lines and the final newline say nothing else but those lines. */
  predicate Faithful(lines: seq<string>, ends: bool) {
    if ends then lines != [] else lines == [] || lines[|lines| - 1] != ""
  }

  lemma BreaksAt(first: string, rest: string, brk: char)
    requires IsBreak(brk) && forall c | c in first :: !IsBreak(c)
    ensures FirstBreak(first + [brk] + rest) == |first|
    ensures SplitLines(first + [brk] + rest) == [first] + SplitLines(rest)
  {
    var text := first + [brk] + rest;
    assert text[|first|] == brk && forall k | 0 <= k < |first| :: text[k] == first[k];
    assert forall k | 0 <= k < |first| :: text[k] in first;
    assert text[..|first|] == first && text[|first| + 1..] == rest;
  }

  lemma OneLine(first: string)
    requires first != "" && forall c | c in first :: !IsBreak(c)
    ensures SplitLines(first) == [first]
  {
    assert forall k | 0 <= k < |first| :: first[k] in first;
  }

  lemma GluedOne(first: string, ends: bool)
    requires forall c | c in first :: !IsBreak(c)
    ensures SplitLines(Glued([first], ends)) == if ends || first != "" then [first] else []
  {
    if ends {
      BreaksAt(first, "", LF);
      assert Glued([first], ends) == first + [LF] + "";
    } else {
      assert Glued([first], ends) == first;
      if first != "" {
        OneLine(first);
      }
    }
  }

  /** What splitting finds of lines that were glued together. */
  function Found(lines: seq<string>, ends: bool): seq<string> {
    if lines == [] then (if ends then [""] else [])
    else if ends || lines[|lines| - 1] != "" then lines
    else lines[..|lines| - 1]
  }

  lemma {:induction false} GluedSplits(lines: seq<string>, ends: bool)
    requires Clean(lines)
    ensures SplitLines(Glued(lines, ends)) == Found(lines, ends)
  {
    if lines == [] {
      BreaksAt("", "", LF);
      assert "" + [LF] + "" == [LF];
    } else if |lines| == 1 {
      assert CleanLine(lines[0]);
      GluedOne(lines[0], ends);
      assert lines == [lines[0]];
    } else {
      assert lines == [lines[0]] + lines[1..];
      GluedMore(lines[0], lines[1..], ends);
    }
  }

  lemma {:induction false} GluedMore(first: string, rest: seq<string>, ends: bool)
    requires rest != [] && Clean([first] + rest)
    ensures SplitLines(Glued([first] + rest, ends)) == Found([first] + rest, ends)
    decreases |rest|
  {
    var lines := [first] + rest;
    assert lines[0] == first;
    assert CleanLine(lines[0]);
    forall k | 0 <= k < |rest| ensures CleanLine(rest[k]) {
      assert lines[k + 1] == rest[k];
    }
    GluedStep(first, rest, ends);
    BreaksAt(first, Glued(rest, ends), LF);
    if |rest| == 1 {
      assert CleanLine(rest[0]);
      GluedOne(rest[0], ends);
    } else {
      assert rest == [rest[0]] + rest[1..];
      GluedMore(rest[0], rest[1..], ends);
    }
    assert rest == [rest[0]] + rest[1..];
    FoundMore(first, rest, ends);
  }

  lemma FoundMore(first: string, rest: seq<string>, ends: bool)
    requires rest != []
    ensures Found([first] + rest, ends) == [first] + Found(rest, ends)
  {
  }

  lemma GluedHasNoCr(lines: seq<string>, ends: bool)
    requires Clean(lines)
    ensures CR !in Glued(lines, ends)
  {
    if CR in Join(lines) {
      JoinChars(lines, CR);
    }
  }

  lemma RestoredReadsBack(text: string, crlf: bool)
    requires CR !in text
    ensures NormalizeToLf(RestoreLineEndings(text, crlf)) == text
  {
    WrittenCrlfReadsBack(text);
    LfOnlyStays(text);
  }

  lemma {:induction false} FirstCharOf(lines: seq<string>, ends: bool)
    requires lines != [] && Glued(lines, ends) != []
    ensures Glued(lines, ends)[0] == if lines[0] == "" then LF else lines[0][0]
  {
  }

  lemma RestoredFirst(text: string, crlf: bool)
    requires text == [] || text[0] != BOM
    ensures var r := RestoreLineEndings(text, crlf); r == [] || r[0] != BOM
  {
  }

  lemma MarkSplits(bom: string, rest: string)
    requires bom == "" || bom == [BOM]
    requires bom == "" ==> rest == [] || rest[0] != BOM
    ensures StripBom(bom + rest) == (bom, rest)
  {
    assert bom == "" ==> bom + rest == rest;
    assert bom != "" ==> (bom + rest)[1..] == rest && (bom + rest)[0] == BOM;
  }

  lemma GluedFirst(lines: seq<string>, ends: bool)
    requires lines != [] && lines[0] != "" ==> lines[0][0] != BOM
    ensures Glued(lines, ends) == [] || Glued(lines, ends)[0] != BOM
  {
    if lines != [] && Glued(lines, ends) != [] {
      FirstCharOf(lines, ends);
    }
  }

  /** The mark at the front of the file is still the one that was there. */
  lemma MarkStays(content: string, lines: seq<string>)
    requires lines != [] && lines[0] != "" ==> lines[0][0] != BOM
    ensures StripBom(TextOf(content, lines)).0 == StripBom(content).0
    ensures StripBom(TextOf(content, lines)).1 ==
            RestoreLineEndings(Glued(lines, AddsNewline(content, lines)), UsesCrlf(StripBom(content).1))
  {
    NewTextIs(content, lines);
    var (bom, text) := StripBom(content);
    var glued := Glued(lines, AddsNewline(content, lines));
    GluedFirst(lines, AddsNewline(content, lines));
    RestoredFirst(glued, UsesCrlf(text));
    MarkSplits(bom, RestoreLineEndings(glued, UsesCrlf(text)));
  }

  /**
   Lines without breaks, written in the form of the old text, are the lines the next patch finds: exactly when
   there are some if a final newline is added, and the last is not empty if there are some and none is added.
   */
  lemma ReadsBackExactlyWhen(content: string, lines: seq<string>)
    requires Clean(lines) && (lines != [] && lines[0] != "" ==> lines[0][0] != BOM)
    ensures LinesOf(TextOf(content, lines)) == lines <==> Faithful(lines, AddsNewline(content, lines))
  {
    var text, ends := StripBom(content).1, AddsNewline(content, lines);
    var glued := Glued(lines, ends);
    MarkStays(content, lines);
    GluedHasNoCr(lines, ends);
    RestoredReadsBack(glued, UsesCrlf(text));
    GluedSplits(lines, ends);
  }

  // -------------------------------------------------------------------------
  // Refusals
  // -------------------------------------------------------------------------

  /** The first badly marked line decides how its hunk fails. */
  lemma {:induction false} HunkFailsAtFirst(hunk: seq<string>, i: nat)
    requires i < |hunk| && !WellMarked(hunk[i]) && forall k | 0 <= k < i :: WellMarked(hunk[k])
    ensures ParseHunk(hunk) == Err(if hunk[i] == "" then InvalidEmptyLine else InvalidMarker)
  {
    if i > 0 {
      assert WellMarked(hunk[0]);
      HunkFailsAtFirst(hunk[1..], i - 1);
    }
  }

  lemma {:induction false} ParseFailsAtFirst(hunks: seq<seq<string>>, k: nat)
    requires k < |hunks| && ParseHunk(hunks[k]).Err? && forall j | 0 <= j < k :: ParseHunk(hunks[j]).Ok?
    ensures ParseAll(hunks) == Err(ParseHunk(hunks[k]).error)
  {
    if k > 0 {
      ParseFailsAtFirst(hunks[1..], k - 1);
    }
  }

  /** Every hunk is parsed before any is placed: the first badly marked line of the first such hunk decides. */
  lemma RefusedByMarks(content: string, hunks: seq<seq<string>>, k: nat, i: nat)
    requires k < |hunks| && (forall j, l | 0 <= j < k && 0 <= l < |hunks[j]| :: WellMarked(hunks[j][l]))
    requires i < |hunks[k]| && !WellMarked(hunks[k][i]) && forall l | 0 <= l < i :: WellMarked(hunks[k][l])
    ensures ApplyHunks(content, hunks) == Err(if hunks[k][i] == "" then InvalidEmptyLine else InvalidMarker)
  {
    forall j | 0 <= j < k ensures ParseHunk(hunks[j]).Ok? {
      ParsedExactlyWhen(hunks[j]);
    }
    HunkFailsAtFirst(hunks[k], i);
    ParseFailsAtFirst(hunks, k);
  }

  /** The places at which some lines occur. */
  function Places(lines: seq<string>, needle: seq<string>): set<nat> {
    set i: nat | i <= |lines| && OccursAt(lines, needle, i)
  }

  function Members(found: seq<nat>): set<nat> {
    set i | i in found
  }

  lemma MembersMore(init: seq<nat>, last: nat)
    ensures Members(init + [last]) == Members(init) + {last}
  {
  }

  lemma {:induction false} Counted(found: seq<nat>)
    requires forall j, k | 0 <= j < k < |found| :: found[j] < found[k]
    ensures |Members(found)| == |found|
  {
    if found != [] {
      var init, last := found[..|found| - 1], found[|found| - 1];
      Counted(init);
      assert found == init + [last];
      MembersMore(init, last);
      assert last !in Members(init);
    }
  }

  /** A hunk that names old lines: refused as not found when they are nowhere, as ambiguous with the number of places when there are more. */
  lemma PlacedByCount(lines: seq<string>, h: ParsedHunk, n: nat)
    requires h.old' != []
    ensures var places := Places(lines, h.old');
            && (places == {} ==> Place(lines, h, n) == Err(ContextNotFound(n)))
            && (|places| == 1 ==> Place(lines, h, n).Ok? && places == {Place(lines, h, n).value.start})
            && (|places| > 1 ==> Place(lines, h, n) == Err(ContextAmbiguous(n, |places|)))
  {
    CountedPlace(lines, h, n, FindFrom(lines, h.old', 0));
  }

  lemma CountedPlace(lines: seq<string>, h: ParsedHunk, n: nat, found: seq<nat>)
    requires found == FindSubsequenceAll(lines, h.old') && AllMatches(lines, h.old', found)
    ensures var places := Places(lines, h.old');
            && (places == {} ==> Place(lines, h, n) == Err(ContextNotFound(n)))
            && (|places| == 1 ==> Place(lines, h, n).Ok? && places == {Place(lines, h, n).value.start})
            && (|places| > 1 ==> Place(lines, h, n) == Err(ContextAmbiguous(n, |places|)))
  {
    Counted(found);
    assert Places(lines, h.old') == Members(found);
    if |found| == 1 {
      assert found == [found[0]];
    }
  }

  /** The first hunk, of those numbered from `n` on, that cannot be placed, and why. */
  ghost predicate FailsFirst(lines: seq<string>, hs: seq<ParsedHunk>, n: nat, k: nat, e: Failure) {
    k < |hs| && Place(lines, hs[k], n + k) == Err(e) && forall j | 0 <= j < k :: Place(lines, hs[j], n + j).Ok?
  }

  ghost predicate AllFail(lines: seq<string>, hs: seq<ParsedHunk>, n: nat, e: Failure) {
    PlaceAll(lines, hs, n) == Err(e)
  }

  lemma FailsFirstLater(lines: seq<string>, hs: seq<ParsedHunk>, n: nat, k: nat, e: Failure)
    requires FailsFirst(lines, hs, n, k, e) && k > 0
    ensures Place(lines, hs[0], n).Ok? && FailsFirst(lines, hs[1..], n + 1, k - 1, e)
  {
    assert Place(lines, hs[0], n + 0).Ok?;
    forall j | 0 <= j < k - 1 ensures Place(lines, hs[1..][j], n + 1 + j).Ok? {
      assert hs[1..][j] == hs[j + 1] && n + 1 + j == n + (j + 1);
    }
  }

  lemma AllFailLater(lines: seq<string>, hs: seq<ParsedHunk>, n: nat, e: Failure)
    requires hs != [] && Place(lines, hs[0], n).Ok? && AllFail(lines, hs[1..], n + 1, e)
    ensures AllFail(lines, hs, n, e)
  {
  }

  lemma AllFailNow(lines: seq<string>, hs: seq<ParsedHunk>, n: nat, e: Failure)
    requires FailsFirst(lines, hs, n, 0, e)
    ensures AllFail(lines, hs, n, e)
  {
  }

  lemma {:induction false} PlaceFailsAtFirst(lines: seq<string>, hs: seq<ParsedHunk>, n: nat, k: nat, e: Failure)
    requires FailsFirst(lines, hs, n, k, e)
    ensures AllFail(lines, hs, n, e)
  {
    if k > 0 {
      FailsFirstLater(lines, hs, n, k, e);
      PlaceFailsAtFirst(lines, hs[1..], n + 1, k - 1, e);
      AllFailLater(lines, hs, n, e);
    } else {
      AllFailNow(lines, hs, n, e);
    }
  }

  /** A hunk that can be placed: it names no old lines, or lines that are found in one place. */
  ghost predicate Placeable(lines: seq<string>, h: ParsedHunk) {
    h.old' == [] || |Places(lines, h.old')| == 1
  }

  lemma PlaceableIsPlaced(lines: seq<string>, h: ParsedHunk, n: nat)
    ensures Place(lines, h, n).Ok? <==> Placeable(lines, h)
  {
    if h.old' != [] {
      PlacedByCount(lines, h, n);
    }
  }

  /** The first hunk that cannot be placed. */
  ghost predicate FirstUnplaceable(lines: seq<string>, hs: seq<ParsedHunk>, k: nat) {
    k < |hs| && !Placeable(lines, hs[k]) && forall j | 0 <= j < k :: Placeable(lines, hs[j])
  }

  lemma PlaceAllFails(lines: seq<string>, hs: seq<ParsedHunk>, k: nat)
    requires FirstUnplaceable(lines, hs, k)
    ensures var places := Places(lines, hs[k].old');
            PlaceAll(lines, hs, 0) == Err(if places == {} then ContextNotFound(k) else ContextAmbiguous(k, |places|))
  {
    forall j | 0 <= j < k ensures Place(lines, hs[j], 0 + j).Ok? {
      PlaceableIsPlaced(lines, hs[j], 0 + j);
    }
    PlaceableIsPlaced(lines, hs[k], 0 + k);
    PlacedByCount(lines, hs[k], 0 + k);
    PlaceFailsAtFirst(lines, hs, 0, k, Place(lines, hs[k], 0 + k).error);
  }

  /** The first hunk that cannot be placed decides, by how often its old lines occur. */
  lemma RefusedByContext(content: string, hunks: seq<seq<string>>, hs: seq<ParsedHunk>, k: nat)
    requires hunks != [] && ParseAll(hunks) == Ok(hs) && FirstUnplaceable(LinesOf(content), hs, k)
    ensures var places := Places(LinesOf(content), hs[k].old');
            ApplyHunks(content, hunks) == Err(if places == {} then ContextNotFound(k) else ContextAmbiguous(k, |places|))
  {
    PlaceAllFails(LinesOf(content), hs, k);
  }

  /** Hunks refused as overlapping are two that do, the one that starts no later named first. */
  lemma RefusedByOverlap(lines: seq<string>, ms: seq<MatchedHunk>, a: nat, b: nat)
    requires Updated(lines, ms) == Err(HunksOverlap(a, b))
    ensures exists m, n :: m in ms && n in ms && m.index == a && n.index == b && m.start <= n.start < m.end
  {
    var sorted := SortUp(ms);
    SortedMembers(ms);
    SortUpAscends(ms);
    var i := FirstOverlap(sorted).value;
    assert sorted[i - 1] in sorted && sorted[i] in sorted;
    assert sorted[i - 1].start <= sorted[i].start;
  }
}
