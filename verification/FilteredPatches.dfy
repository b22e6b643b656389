/** Written-out diffs under the file filter: which of them read the same before and after
    unwanted files are dropped. */
module FilteredPatches {
  import opened Prelude
  import opened Text
  import opened FileHeaders
  import opened UnifiedDiffs
  import opened DiffFilters

  // ---- Cutting joined sections apart again ----------------------------------------

  /** The separator does not occur across the end of an uncut text: it has one newline. */
  lemma NoEarlierCut(first: string, raw: string, i: nat)
    requires Whole(first) && i < |first|
    ensures !OccursAt(first + SECTION_BREAK + raw, SECTION_BREAK, i)
  {
    var diff, n := first + SECTION_BREAK + raw, |SECTION_BREAK|;
    if i + n <= |first| {
      assert diff[i..i + n] == first[i..i + n];
      assert !OccursAt(first, SECTION_BREAK, i);
    } else {
      OccursChar(diff, SECTION_BREAK, i, |first| - i);
      assert diff[|first|] == SECTION_BREAK[0];
    }
  }

  lemma CutAfterFirst(first: string, raw: string)
    requires Whole(first)
    ensures SplitOn(first + SECTION_BREAK + raw, SECTION_BREAK) == [first] + SplitOn(raw, SECTION_BREAK)
  {
    var diff := first + SECTION_BREAK + raw;
    forall i | 0 <= i < |first|
      ensures !OccursAt(diff, SECTION_BREAK, i)
    {
      NoEarlierCut(first, raw, i);
    }
    assert OccursAt(diff, SECTION_BREAK, |first|);
    assert Find(diff, SECTION_BREAK) == Some(|first|);
    assert diff[..|first|] == first && diff[|first| + |SECTION_BREAK|..] == raw;
  }

  lemma HeaderShiftsFind(raw: string)
    ensures var k := Find(raw, SECTION_BREAK);
            Find(FILE_HEADER + raw, SECTION_BREAK) == if k.Some? then Some(|FILE_HEADER| + k.value) else None
  {
    var x, n := FILE_HEADER + raw, |FILE_HEADER|;
    forall i: nat
      ensures OccursAt(x, SECTION_BREAK, i) <==> i >= n && OccursAt(raw, SECTION_BREAK, i - n)
    {
      HeaderShiftsCut(raw, i);
    }
    var k := Find(raw, SECTION_BREAK);
    if k.Some? {
      assert OccursAt(x, SECTION_BREAK, n + k.value);
    }
  }

  lemma SplitShape(s: string, sep: string, head: string, tail: string)
    requires sep != [] && Find(s, sep) == Some(|head|) && s == head + sep + tail
    ensures SplitOn(s, sep) == [head] + SplitOn(tail, sep)
  {
    assert s[..|head|] == head && s[|head| + |sep|..] == tail;
  }

  lemma CutAt(s: string, word: string, i: nat)
    requires OccursAt(s, word, i)
    ensures s == s[..i] + word + s[i + |word|..]
  {
  }

  lemma ShiftedSplit(front: string, raw: string, sep: string)
    requires sep != []
    requires var k := Find(raw, sep);
             Find(front + raw, sep) == if k.Some? then Some(|front| + k.value) else None
    ensures SplitOn(front + raw, sep) == [front + SplitOn(raw, sep)[0]] + SplitOn(raw, sep)[1..]
  {
    var k := Find(raw, sep);
    if k.Some? {
      var head, tail := raw[..k.value], raw[k.value + |sep|..];
      CutAt(raw, sep, k.value);
      SplitShape(raw, sep, head, tail);
      Regroup(front, head, sep, tail);
      SplitShape(front + raw, sep, front + head, tail);
    } else {
      assert SplitOn(raw, sep) == [raw] && SplitOn(front + raw, sep) == [front + raw];
    }
  }

  lemma Regroup<T>(a: seq<T>, b: seq<T>, c: seq<T>, d: seq<T>)
    ensures a + (b + c + d) == a + b + c + d
    ensures a + (b + (c + d)) == a + (b + c) + d
  {
  }

  /** A file header in front of a text stays with its first piece. */
  lemma HeaderShiftsPieces(raw: string)
    ensures Sections(FILE_HEADER + raw) == Prefixed(SplitOn(raw, SECTION_BREAK))
  {
    HeaderShiftsFind(raw);
    ShiftedSplit(FILE_HEADER, raw, SECTION_BREAK);
  }

  lemma {:induction false} JoinedSections(texts: seq<string>)
    requires texts != [] && forall k :: 0 <= k < |texts| ==> Proper(texts[k])
    ensures NewlineOnly(JoinLines(texts)) && StartsWith(JoinLines(texts), FILE_HEADER)
    ensures Sections(JoinLines(texts)) == texts
  {
    var first := texts[0];
    assert Proper(first);
    if |texts| == 1 {
      assert Find(first, SECTION_BREAK) == None;
      assert texts == [first];
    } else {
      var rest := JoinLines(texts[1..]);
      JoinedSections(texts[1..]);
      var raw := rest[|FILE_HEADER|..];
      assert rest == FILE_HEADER + raw;
      SeparatorSplits(first, raw);
      Associate(first, "\n", rest);
      CutAfterFirst(first, raw);
      HeaderShiftsPieces(raw);
      NewlineOnlyJoins("\n", rest);
      NewlineOnlyJoins(first, "\n" + rest);
      assert (first + "\n" + rest)[..|FILE_HEADER|] == first[..|FILE_HEADER|];
      assert texts == [first] + texts[1..];
    }
  }

  // ---- Lines that make up one section ---------------------------------------------

  lemma JoinedStartsWith(lines: seq<string>)
    requires lines != [] && !StartsWith(lines[0], FILE_HEADER)
    ensures !StartsWith(JoinLines(lines), FILE_HEADER)
  {
    var s, line, n := JoinLines(lines), lines[0], |FILE_HEADER|;
    if |lines| > 1 {
      if |line| >= n {
        assert s[..n] == line[..n];
      } else {
        assert s[|line|] == '\n' && FILE_HEADER[|line|] != '\n';
        assert |s| >= n ==> s[..n][|line|] == s[|line|];
      }
    }
  }

  lemma UnbrokenHasNoNewline(line: string)
    requires Unbroken(line)
    ensures NewlineOnly(line) && '\n' !in line
  {
    forall i | 0 <= i < |line|
      ensures line[i] != '\n' && (IsLineBreak(line[i]) ==> ReturnAt(line, i))
    {
      if i < |Chop(line)| {
        assert line[i] == Chop(line)[i];
      }
    }
  }

  lemma CutAtNewline(line: string, rest: string)
    ensures OccursAt(line + "\n" + rest, SECTION_BREAK, |line|) ==> StartsWith(rest, FILE_HEADER)
  {
    var s, n := line + "\n" + rest, |SECTION_BREAK|;
    if OccursAt(s, SECTION_BREAK, |line|) {
      assert s[|line|..|line| + n][1..] == rest[..n - 1];
      assert SECTION_BREAK[1..] == FILE_HEADER;
    }
  }

  lemma LaterCut(line: string, rest: string, i: nat)
    requires '\n' !in line && Uncut(rest) && !StartsWith(rest, FILE_HEADER)
    ensures !OccursAt(line + "\n" + rest, SECTION_BREAK, i)
  {
    var s, n := line + "\n" + rest, |SECTION_BREAK|;
    if i < |line| {
      OccursChar(s, SECTION_BREAK, i, 0);
      assert s[i] == line[i] && line[i] in line;
    } else if i == |line| {
      CutAtNewline(line, rest);
    } else {
      var k := i - |line| - 1;
      assert i + n <= |s| ==> s[i..i + n] == rest[k..k + n];
      assert !OccursAt(rest, SECTION_BREAK, k);
    }
  }

  /** Unbroken lines, of which only the first may be a file header, make uncut text. */
  lemma {:induction false} JoinedIsUncut(lines: seq<string>)
    requires lines != [] && AllUnbroken(lines)
    requires forall k :: 1 <= k < |lines| ==> !StartsWith(lines[k], FILE_HEADER)
    ensures Uncut(JoinLines(lines))
  {
    var s, line := JoinLines(lines), lines[0];
    UnbrokenHasNoNewline(line);
    if |lines| == 1 {
      forall i: nat
        ensures !OccursAt(s, SECTION_BREAK, i)
      {
        OccursChar(s, SECTION_BREAK, i, 0);
      }
    } else {
      var rest := JoinLines(lines[1..]);
      JoinedIsUncut(lines[1..]);
      JoinedStartsWith(lines[1..]);
      Associate(line, "\n", rest);
      NewlineOnlyJoins("\n", rest);
      NewlineOnlyJoins(line, "\n" + rest);
      forall i: nat
        ensures !OccursAt(s, SECTION_BREAK, i)
      {
        LaterCut(line, rest, i);
      }
    }
  }

  lemma {:induction false} JoinConcat(a: seq<string>, b: seq<string>)
    requires a != [] && b != []
    ensures JoinLines(a + b) == JoinLines(a) + "\n" + JoinLines(b)
  {
    assert (a + b)[0] == a[0] && (a + b)[1..] == a[1..] + b;
    if |a| > 1 {
      JoinConcat(a[1..], b);
      Associate(a[0] + "\n", JoinLines(a[1..]) + "\n", JoinLines(b));
      Associate(a[0] + "\n", JoinLines(a[1..]), "\n");
    } else {
      assert (a + b)[1..] == b;
    }
  }

  lemma JoinWithEmpty(lines: seq<string>)
    requires lines != []
    ensures JoinLines(lines + [""]) == JoinLines(lines) + "\n"
  {
    JoinConcat(lines, [""]);
    assert JoinLines(lines) + "\n" + "" == JoinLines(lines) + "\n";
  }

  lemma {:induction false} LastCharOfJoin(lines: seq<string>)
    requires lines != [] && lines[|lines| - 1] != ""
    ensures var s, line := JoinLines(lines), lines[|lines| - 1]; s != "" && s[|s| - 1] == line[|line| - 1]
  {
    if |lines| > 1 {
      LastCharOfJoin(lines[1..]);
    }
  }

  // ---- The sections of a written-out diff -----------------------------------------

  /** A well-formed section whose lines hold no breaks of their own. */
  ghost predicate CleanFile(f: FilePatch) {
    && TargetPath(f.header).Some? && WellFormed(f, TargetPath(f.header).value) && BreakFree(f.header)
    && AllUnbroken(RenderFile(f))
  }

  lemma FilesAreClean(files: seq<FilePatch>)
    requires WellFormedDiff(files) && files != []
    ensures CleanFile(files[0]) && WellFormedDiff(files[1..])
  {
    assert files[0] in files;
    PartsAreUnbroken(RenderFile(files[0]), RenderPatch(files[1..]));
  }

  /** The text of a section, without the newline that ends its last line. */
  function FileText(f: FilePatch): string {
    JoinLines(RenderFile(f))
  }

  /** The sections of the diff: all but the last have lost their final newline to the cut. */
  function SectionTexts(files: seq<FilePatch>): seq<string> {
    if files == [] then []
    else if |files| == 1 then [FileText(files[0]) + "\n"]
    else [FileText(files[0])] + SectionTexts(files[1..])
  }

  lemma {:induction false} TextsJoin(files: seq<FilePatch>)
    requires files != []
    ensures JoinLines(SectionTexts(files)) == DiffText(files)
  {
    var first, rest := RenderFile(files[0]), RenderPatch(files[1..]);
    if |files| == 1 {
      assert rest == [] && first + [] == first;
    } else {
      TextsJoin(files[1..]);
      assert rest == RenderFile(files[1]) + RenderPatch(files[2..]);
      JoinConcat(first, rest);
      JoinCons(FileText(files[0]), SectionTexts(files[1..]));
      Associate(FileText(files[0]) + "\n", JoinLines(rest), "\n");
      Associate(FileText(files[0]), "\n", JoinLines(rest) + "\n");
    }
  }

  lemma BodyOpensNothing(body: seq<BodyLine>, i: nat)
    requires i < |RenderBody(body)|
    ensures OpensNothing(RenderBody(body)[i])
  {
    BodyLineReads(body[0]);
    if i > 0 {
      BodyOpensNothing(body[1..], i - 1);
    }
  }

  lemma {:induction false} HunkLineIsNoHeader(hunks: seq<Hunk>, i: nat)
    requires (forall h :: h in hunks ==> HeaderStates(h)) && i < |RenderHunks(hunks)|
    ensures !StartsWith(RenderHunks(hunks)[i], FILE_HEADER)
  {
    var h, body := hunks[0], RenderBody(hunks[0].body);
    assert HeaderStates(h);
    if i == 0 {
      StatedHeadersReadBack(h);
    } else if i <= |body| {
      BodyOpensNothing(h.body, i - 1);
    } else {
      HunkLineIsNoHeader(hunks[1..], i - 1 - |body|);
    }
  }

  lemma LaterLineIsNoHeader(f: FilePatch, i: nat)
    requires CleanFile(f) && 1 <= i < |RenderFile(f)|
    ensures !StartsWith(RenderFile(f)[i], FILE_HEADER)
  {
    if i <= |f.meta| {
      assert RenderFile(f)[i] == f.meta[i - 1] && f.meta[i - 1] in f.meta;
    } else {
      HunkLineIsNoHeader(f.hunks, i - 1 - |f.meta|);
    }
  }

  lemma JoinStarts(lines: seq<string>, word: string)
    requires lines != [] && StartsWith(lines[0], word)
    ensures StartsWith(JoinLines(lines), word)
  {
    assert JoinLines(lines)[..|word|] == lines[0][..|word|];
  }

  lemma LinesAreProper(lines: seq<string>)
    requires lines != [] && AllUnbroken(lines) && StartsWith(lines[0], FILE_HEADER)
    requires forall k :: 1 <= k < |lines| ==> !StartsWith(lines[k], FILE_HEADER)
    ensures Proper(JoinLines(lines))
  {
    JoinedIsUncut(lines);
    JoinStarts(lines, FILE_HEADER);
  }

  lemma FileTextIsProper(f: FilePatch)
    requires CleanFile(f)
    ensures Proper(FileText(f)) && Proper(FileText(f) + "\n")
  {
    var lines := RenderFile(f);
    forall i | 1 <= i < |lines|
      ensures !StartsWith(lines[i], FILE_HEADER)
    {
      LaterLineIsNoHeader(f, i);
    }
    LinesAreProper(lines);
    FirstCharDiffers("", FILE_HEADER);
    FreeIsUnbroken("");
    LinesAreProper(lines + [""]);
    JoinWithEmpty(lines);
  }

  lemma {:induction false} TextsAreProper(files: seq<FilePatch>)
    requires WellFormedDiff(files)
    ensures |SectionTexts(files)| == |files|
    ensures forall k :: 0 <= k < |files| ==> Proper(SectionTexts(files)[k])
  {
    if files != [] {
      FilesAreClean(files);
      FileTextIsProper(files[0]);
      TextsAreProper(files[1..]);
    }
  }

  /** The filter cuts a written-out diff into exactly its files. */
  lemma SectionsAreFiles(files: seq<FilePatch>)
    requires WellFormedDiff(files) && files != []
    ensures NewlineOnly(DiffText(files)) && HeadedSections(DiffText(files)) == SectionTexts(files)
  {
    TextsAreProper(files);
    TextsJoin(files);
    JoinedSections(SectionTexts(files));
    assert Proper(SectionTexts(files)[0]);
  }

  predicate Skips(f: FilePatch, skip: string -> bool) {
    TargetPath(f.header).Some? && skip(TargetPath(f.header).value)
  }

  lemma FirstLineIsHeader(f: FilePatch, x: string)
    requires CleanFile(f) && (x == FileText(f) || x == FileText(f) + "\n")
    ensures FirstLine(x) == f.header
  {
    var lines := RenderFile(f);
    FreeIsUnbroken(f.header);
    if x == f.header {
      LastOpenLine([], f.header);
      assert [] + f.header == f.header;
    } else {
      var tail := if |lines| == 1 then "" else JoinLines(lines[1..]) + x[|FileText(f)|..];
      assert x == f.header + "\n" + tail;
      FirstOfLines(f.header, tail);
    }
  }

  lemma TextSurvives(files: seq<FilePatch>, skip: string -> bool)
    requires WellFormedDiff(files) && files != []
    ensures Survives(SectionTexts(files)[0], skip) <==> !Skips(files[0], skip)
  {
    FilesAreClean(files);
    FirstLineIsHeader(files[0], SectionTexts(files)[0]);
  }

  // ---- Sections that end in an empty line -----------------------------------------

  /** The last line of the last hunk is empty. */
  predicate EndsBlank(hunks: seq<Hunk>) {
    hunks != [] && var body := hunks[|hunks| - 1].body; body != [] && body[|body| - 1].Blank?
  }

  /** The hunks without the last line of the last one. */
  function Trimmed(hunks: seq<Hunk>): seq<Hunk>
    requires EndsBlank(hunks)
  {
    var n := |hunks| - 1;
    hunks[..n] + [hunks[n].(body := hunks[n].body[..|hunks[n].body| - 1])]
  }

  lemma {:induction false} RenderHunksConcat(a: seq<Hunk>, b: seq<Hunk>)
    ensures RenderHunks(a + b) == RenderHunks(a) + RenderHunks(b)
  {
    if a == [] {
      assert a + b == b;
    } else {
      assert (a + b)[1..] == a[1..] + b;
      RenderHunksConcat(a[1..], b);
    }
  }

  lemma {:induction false} RecordedConcat(path: string, a: seq<Hunk>, b: seq<Hunk>)
    ensures Recorded(path, a + b) == Recorded(path, a) + Recorded(path, b)
  {
    if a == [] {
      assert a + b == b;
    } else {
      assert (a + b)[1..] == a[1..] + b;
      RecordedConcat(path, a[1..], b);
    }
  }

  lemma {:induction false} BodyAppend(body: seq<BodyLine>, b: BodyLine)
    ensures RenderBody(body + [b]) == RenderBody(body) + [RenderLine(b)]
    ensures b.Blank? ==> NewSide(body + [b]) == NewSide(body) + [""] && MaskedCount(body + [b]) == MaskedCount(body)
  {
    if body == [] {
      assert [] + [b] == [b] && [b][1..] == [];
    } else {
      assert (body + [b])[0] == body[0] && (body + [b])[1..] == body[1..] + [b];
      BodyAppend(body[1..], b);
    }
  }

  lemma OneHunk(path: string, h: Hunk)
    ensures RenderHunks([h]) == [h.header] + RenderBody(h.body)
    ensures MaskedCount(h.body) <= |NewSide(h.body)|
    ensures Recorded(path, [h]) == Run(path, h.newStart, |NewSide(h.body)| - MaskedCount(h.body))
    ensures Covered(path, [h]) == Run(path, h.newStart, |NewSide(h.body)|)
  {
    BodyFound(path, h.newStart, h.body);
    assert [h][1..] == [];
  }

  lemma LastHunkRenders(init: seq<Hunk>, h: Hunk)
    ensures RenderHunks(init + [h]) == RenderHunks(init) + ([h.header] + RenderBody(h.body))
  {
    RenderHunksConcat(init, [h]);
    OneHunk("", h);
  }

  lemma TrimmedRenders(hunks: seq<Hunk>)
    requires EndsBlank(hunks)
    ensures RenderHunks(hunks) == RenderHunks(Trimmed(hunks)) + [""]
  {
    var n := |hunks| - 1;
    var h, t := hunks[n], Trimmed(hunks)[n];
    assert hunks == hunks[..n] + [h] && h.body == t.body + [Blank];
    LastHunkRenders(hunks[..n], h);
    LastHunkRenders(hunks[..n], t);
    BodyAppend(t.body, Blank);
    Regroup(RenderHunks(hunks[..n]), [h.header], RenderBody(t.body), [""]);
  }

  /** Where the scanner stands after the last hunk. */
  function EndLine(hunks: seq<Hunk>): nat
    requires hunks != []
  {
    var h := hunks[|hunks| - 1];
    BodyFound("", h.newStart, h.body);
    h.newStart + |NewSide(h.body)| - MaskedCount(h.body)
  }

  lemma {:induction false} HunksScanned(p: Pos, path: string, hunks: seq<Hunk>)
    requires FileAt(p) == Some(path) && hunks != []
    ensures Scan(p, HunkTokens(hunks)) == Inside(path, EndLine(hunks))
    decreases |hunks|
  {
    var h, rest := hunks[0], hunks[1..];
    var t := HunkHeader(Some(h.newStart));
    OneToken(p, t);
    BodyFound(path, h.newStart, h.body);
    ScanConcat(p, [t], BodyTokens(h.body));
    ScanConcat(p, [t] + BodyTokens(h.body), HunkTokens(rest));
    if rest != [] {
      HunksScanned(Scan(p, [t] + BodyTokens(h.body)), path, rest);
    }
  }

  lemma {:induction false} EarlierHunksLieBefore(before: seq<string>, after: seq<string>, hunks: seq<Hunk>,
                                                 i: nat, j: nat, path: string, s: Spot)
    requires Turns(before, after, hunks, i, j) && hunks != [] && s in Covered(path, [hunks[|hunks| - 1]])
    ensures s in Covered(path, hunks) && s !in Covered(path, hunks[..|hunks| - 1])
    decreases |hunks|
  {
    var n := |hunks| - 1;
    if n == 0 {
      assert hunks == [hunks[0]];
    } else {
      var gone, come := OldSide(hunks[0].body), NewSide(hunks[0].body);
      EarlierHunksLieBefore(before, after, hunks[1..], Begin(hunks[0].oldStart, gone) + |gone|,
                            Begin(hunks[0].newStart, come) + |come|, path, s);
      LaterHunksLieBeyond(before, after, hunks, i, j, path, s);
      assert hunks[..n][1..] == hunks[1..][..n - 1];
    }
  }

  /** The empty last line of the hunks is recorded once. */
  lemma LastLineIsFresh(before: seq<string>, after: seq<string>, hunks: seq<Hunk>, path: string)
    requires EndsBlank(hunks) && Turns(before, after, hunks, 0, 0)
    ensures Spot(path, EndLine(Trimmed(hunks))) !in Recorded(path, Trimmed(hunks))
  {
    var n := |hunks| - 1;
    var h, t, s := hunks[n], Trimmed(hunks)[n], Spot(path, EndLine(Trimmed(hunks)));
    assert h.body == t.body + [Blank];
    BodyAppend(t.body, Blank);
    OneHunk(path, h);
    OneHunk(path, t);
    EarlierHunksLieBefore(before, after, hunks, 0, 0, path, s);
    RecordedConcat(path, hunks[..n], [t]);
    RecordedIsCovered(path, hunks[..n]);
  }

  // ---- What the cut costs ---------------------------------------------------------

  /** The section read with its final newline. */
  lemma FileTextReads(f: FilePatch)
    requires CleanFile(f)
    ensures Read(FileText(f) + "\n") == Tokens(RenderFile(f))
    ensures Found(START, Tokens(RenderFile(f))) == Recorded(TargetPath(f.header).value, f.hunks)
  {
    LinesRoundTrip(RenderFile(f));
    FileIsSteady(f, TargetPath(f.header).value);
    SteadyTokens(RenderFile(f));
    FileFound(START, f, TargetPath(f.header).value);
  }

  lemma HunkHeaderIsNotEmpty(h: Hunk)
    requires HeaderStates(h)
    ensures h.header != ""
  {
    StatedHeadersReadBack(h);
    assert StartsWith(h.header, "@@");
  }

  lemma BlankRenders(b: BodyLine)
    ensures RenderLine(b) == "" <==> b.Blank?
  {
    assert !b.Blank? ==> |RenderLine(b)| > 0;
  }

  /** The last line of a hunk and its header, and whether it is empty. */
  lemma LastLineOfHunk(h: Hunk)
    requires h.header != ""
    ensures var lines := [h.header] + RenderBody(h.body); lines[|lines| - 1] == "" <==> EndsBlank([h])
  {
    if h.body != [] {
      var m := |h.body| - 1;
      assert h.body == h.body[..m] + [h.body[m]];
      BodyAppend(h.body[..m], h.body[m]);
      BlankRenders(h.body[m]);
    }
  }

  lemma LastLineOfHunks(hunks: seq<Hunk>)
    requires hunks != [] && forall h :: h in hunks ==> HeaderStates(h)
    ensures var lines := RenderHunks(hunks); lines != [] && (lines[|lines| - 1] == "" <==> EndsBlank(hunks))
  {
    var n := |hunks| - 1;
    assert hunks[n] in hunks && hunks == hunks[..n] + [hunks[n]];
    LastHunkRenders(hunks[..n], hunks[n]);
    HunkHeaderIsNotEmpty(hunks[n]);
    LastLineOfHunk(hunks[n]);
  }

  function TrimmedFile(f: FilePatch): FilePatch
    requires EndsBlank(f.hunks)
  {
    f.(hunks := Trimmed(f.hunks))
  }

  lemma TrimmedFileIsClean(f: FilePatch)
    requires CleanFile(f) && EndsBlank(f.hunks)
    ensures RenderFile(f) == RenderFile(TrimmedFile(f)) + [""] && CleanFile(TrimmedFile(f))
  {
    TrimmedRenders(f.hunks);
    assert RenderFile(f) == RenderFile(TrimmedFile(f)) + [""];
    PartsAreUnbroken(RenderFile(TrimmedFile(f)), [""]);
    TrimmedHeadersState(f.hunks);
  }

  lemma TrimmedHeadersState(hunks: seq<Hunk>)
    requires EndsBlank(hunks) && forall h :: h in hunks ==> HeaderStates(h)
    ensures forall h :: h in Trimmed(hunks) ==> HeaderStates(h)
  {
    var n := |hunks| - 1;
    var t := Trimmed(hunks)[n];
    assert hunks[n] in hunks;
    SameHeaderStates(hunks[n], t);
    forall h | h in Trimmed(hunks)
      ensures HeaderStates(h)
    {
      assert h == t || h in hunks[..n];
    }
  }

  lemma SameHeaderStates(h: Hunk, t: Hunk)
    requires HeaderStates(h) && t == h.(body := t.body)
    ensures HeaderStates(t)
  {
    var oldCount, newCount, tail :| h.header == FormatHunkHeader(h.oldStart, oldCount, h.newStart, newCount, tail);
    assert t.header == FormatHunkHeader(t.oldStart, oldCount, t.newStart, newCount, tail);
  }

  lemma FileScanned(f: FilePatch)
    requires CleanFile(f)
    ensures var path := TargetPath(f.header);
            Scan(START, Tokens(RenderFile(f))) ==
              if f.hunks == [] then Outside(path) else Inside(path.value, EndLine(f.hunks))
  {
    var path := TargetPath(f.header).value;
    var t := FileHeader(Some(path));
    TokensConcat([f.header], f.meta);
    TokensConcat([f.header] + f.meta, RenderHunks(f.hunks));
    TokensAre(f.meta);
    HunksRead(f.hunks);
    assert Tokens([f.header]) == [t];
    OneToken(START, t);
    MetaIsSilent(Some(path), Tokens(f.meta));
    ScanConcat(START, [t], Tokens(f.meta));
    ScanConcat(START, [t] + Tokens(f.meta), HunkTokens(f.hunks));
    if f.hunks != [] {
      HunksScanned(Outside(Some(path)), path, f.hunks);
    }
  }

  /** A section whose last hunk ends in an empty line loses that line when it is cut off. */
  lemma BlankEnding(f: FilePatch)
    requires CleanFile(f) && EndsBlank(f.hunks)
    ensures var path := TargetPath(f.header).value;
            && Trailing(FileText(f)) == {Spot(path, EndLine(Trimmed(f.hunks)))}
            && Found(START, Read(FileText(f))) == Recorded(path, Trimmed(f.hunks))
  {
    var t := TrimmedFile(f);
    TrimmedFileIsClean(f);
    JoinWithEmpty(RenderFile(t));
    assert FileText(f) == FileText(t) + "\n";
    FileTextReads(t);
    FileScanned(t);
  }

  lemma UnbrokenEnd(line: string)
    requires Unbroken(line) && line != ""
    ensures var c := line[|line| - 1]; IsLineBreak(c) ==> c == '\r'
  {
    if Chop(line) == line {
      assert !IsLineBreak(line[|line| - 1]);
    }
  }

  lemma NoBlankEnding(f: FilePatch)
    requires CleanFile(f) && !EndsBlank(f.hunks)
    ensures Trailing(FileText(f)) == {}
  {
    var lines, x := RenderFile(f), FileText(f);
    var last := lines[|lines| - 1];
    if last != "" {
      LastCharOfJoin(lines);
      assert Unbroken(last);
      UnbrokenEnd(last);
      assert !EndsLine(x);
    } else {
      if f.hunks != [] {
        LastLineOfHunks(f.hunks);
      }
      FileScanned(f);
      FileTextReads(f);
      if EndsLine(x) {
        ReadClosed(x);
        ScanConcat(START, Read(x), [NewText]);
        OneToken(Scan(START, Read(x)), NewText);
      }
    }
  }

  /** The hunks of the section turn some file into another. */
  ghost predicate Applies(f: FilePatch) {
    exists before, after :: Turns(before, after, f.hunks, 0, 0)
  }

  predicate NoRepeats(files: seq<FilePatch>) {
    forall i, j :: 0 <= i < j < |files| ==> files[i] != files[j]
  }

  /** The spots of a cut-off section: they all belong to its file, and the one it lost is not
      among those it kept. */
  lemma CutOffSpots(f: FilePatch)
    requires CleanFile(f)
    ensures var x, path := FileText(f), TargetPath(f.header).value;
            && (forall s :: s in Found(START, Read(x)) + Trailing(x) ==> s.path == path)
            && (Applies(f) ==> Trailing(x) !! Found(START, Read(x)))
  {
    var x, path := FileText(f), TargetPath(f.header).value;
    FileTextIsProper(f);
    FileTextReads(f);
    SectionSpots(x, START);
    forall s | s in Found(START, Read(x)) + Trailing(x)
      ensures s.path == path
    {
      RecordedHasPath(path, f.hunks, s);
    }
    if EndsBlank(f.hunks) {
      BlankEnding(f);
      if Applies(f) {
        var before, after :| Turns(before, after, f.hunks, 0, 0);
        LastLineIsFresh(before, after, f.hunks, path);
      }
    } else {
      NoBlankEnding(f);
    }
  }

  /** The last kept section ends in an empty line and a section after it is dropped. */
  predicate CutsShort(files: seq<FilePatch>, skip: string -> bool) {
    files != [] &&
    if !Skips(files[0], skip) && |files| > 1 && forall f :: f in files[1..] ==> Skips(f, skip)
    then EndsBlank(files[0].hunks)
    else CutsShort(files[1..], skip)
  }

  lemma {:induction false} KeptNothing(files: seq<FilePatch>, skip: string -> bool)
    requires WellFormedDiff(files)
    ensures Kept(SectionTexts(files), skip) == [] <==> forall f :: f in files ==> Skips(f, skip)
  {
    if files != [] {
      FilesAreClean(files);
      TextSurvives(files, skip);
      KeptCons(SectionTexts(files), skip);
      assert SectionTexts(files)[1..] == SectionTexts(files[1..]);
      KeptNothing(files[1..], skip);
      assert forall f :: f in files <==> f == files[0] || f in files[1..];
    }
  }

  lemma {:induction false} LostExactly(files: seq<FilePatch>, skip: string -> bool)
    requires WellFormedDiff(files)
    ensures Lost(SectionTexts(files), skip) != {} <==> CutsShort(files, skip)
  {
    if files != [] {
      FilesAreClean(files);
      TextSurvives(files, skip);
      assert SectionTexts(files)[1..] == SectionTexts(files[1..]);
      KeptNothing(files[1..], skip);
      LostExactly(files[1..], skip);
      if |files| > 1 {
        if EndsBlank(files[0].hunks) {
          BlankEnding(files[0]);
        } else {
          NoBlankEnding(files[0]);
        }
      }
    }
  }

  lemma FreshStep(x: string, rest: seq<string>, skip: string -> bool, s: Spot)
    requires Proper(x) && forall k :: 0 <= k < |rest| ==> Proper(rest[k])
    requires s in LostFirst(x, rest, skip) && Trailing(x) !! Found(START, Read(x))
    requires s in Lost(rest, skip) ==>
               && s !in Found(START, AllTokens(Kept(rest, skip)))
               && s !in Found(START, Read(x)) + Trailing(x)
    ensures s !in Found(START, AllTokens(KeptFirst(x, rest, skip)))
  {
    KeptFirstApart(x, rest, skip);
    NothingLeft(rest, skip);
  }

  lemma LostHere(x: string, rest: seq<string>, skip: string -> bool, s: Spot)
    requires s in LostFirst(x, rest, skip) && s !in Lost(rest, skip)
    ensures s in Trailing(x)
  {
  }

  /** The lost spot is recorded nowhere else. */
  lemma {:induction false} LostIsFresh(files: seq<FilePatch>, skip: string -> bool, s: Spot)
    requires WellFormedDiff(files) && NoRepeats(files) && forall f :: f in files ==> Applies(f)
    requires s in Lost(SectionTexts(files), skip)
    ensures s !in Found(START, AllTokens(Kept(SectionTexts(files), skip)))
    ensures exists f :: f in files && s.path == TargetPath(f.header).value
  {
    if |files| > 1 {
      var f, x, rest := files[0], FileText(files[0]), SectionTexts(files[1..]);
      FilesAreClean(files);
      TextsAreProper(files[1..]);
      FileTextIsProper(f);
      CutOffSpots(f);
      assert SectionTexts(files)[1..] == rest && SectionTexts(files)[0] == x;
      assert f in files;
      if s in Lost(rest, skip) {
        LostIsFresh(files[1..], skip, s);
        OtherPath(files, s);
      } else {
        LostHere(x, rest, skip, s);
      }
      FreshStep(x, rest, skip, s);
      KeptCons(SectionTexts(files), skip);
    }
  }

  lemma OtherPath(files: seq<FilePatch>, s: Spot)
    requires WellFormedDiff(files) && NoRepeats(files) && files != []
    requires exists f :: f in files[1..] && s.path == TargetPath(f.header).value
    ensures s.path != TargetPath(files[0].header).value
    ensures exists f :: f in files && s.path == TargetPath(f.header).value
  {
    var g :| g in files[1..] && s.path == TargetPath(g.header).value;
    assert g in files && g != files[0];
  }

  /** Filtering a written-out diff and reading it commute exactly when the last kept section
      does not end in an empty line or no section after it is dropped. */
  lemma FilteringCommutesExactly(files: seq<FilePatch>, skip: string -> bool)
    requires WellFormedDiff(files) && files != [] && NoRepeats(files) && forall f :: f in files ==> Applies(f)
    ensures Unskipped(DiffSpots(DiffText(files)), skip) == DiffSpots(Filtered(DiffText(files), skip)) <==>
              !CutsShort(files, skip)
  {
    var diff := DiffText(files);
    SectionsAreFiles(files);
    FilteringCommutesUpToLost(diff, skip);
    FilteredReadsKept(diff, skip);
    LostExactly(files, skip);
    if CutsShort(files, skip) {
      var s :| s in Lost(SectionTexts(files), skip);
      LostIsFresh(files, skip, s);
    }
  }

  // ---- A diff for which they do not -----------------------------------------------

  /** A section that is nothing but its header, as for a change of mode. */
  function HeaderOnly(path: string): FilePatch {
    FilePatch(OwnHeader(path), [], [])
  }

  lemma HeaderOnlyIsClean(path: string)
    requires CleanPath(path)
    ensures CleanFile(HeaderOnly(path)) && Applies(HeaderOnly(path))
    ensures TargetPath(HeaderOnly(path).header) == Some(path)
  {
    var f := HeaderOnly(path);
    OwnHeaderReads(path);
    FreeIsUnbroken(f.header);
    assert RenderFile(f) == [f.header];
    assert Turns([], [], f.hunks, 0, 0);
  }

  lemma InsertedLineIsClean(path: string, text: string)
    requires CleanPath(path) && Unbroken(text)
    ensures CleanFile(InsertedLine(path, text)) && Applies(InsertedLine(path, text))
    ensures TargetPath(InsertedLine(path, text).header) == Some(path)
  {
    OwnHeaderReads(path);
    InsertedLineIsWellFormed(path, text);
    FilesAreClean([InsertedLine(path, text)]);
  }

  lemma JoinUnbroken(a: seq<string>, b: seq<string>)
    requires AllUnbroken(a) && AllUnbroken(b)
    ensures AllUnbroken(a + b)
  {
  }

  lemma TwoFiles(f: FilePatch, g: FilePatch)
    requires CleanFile(f) && CleanFile(g) && TargetPath(f.header) != TargetPath(g.header)
    ensures WellFormedDiff([f, g]) && NoRepeats([f, g])
  {
    assert [f, g][1..] == [g] && [g][1..] == [];
    JoinUnbroken(RenderFile(f), RenderFile(g));
    assert RenderPatch([g]) == RenderFile(g) + [] == RenderFile(g);
  }

  lemma KeptThenDropped(f: FilePatch, g: FilePatch, skip: string -> bool)
    requires CleanFile(f) && CleanFile(g) && Applies(f) && Applies(g)
    requires !Skips(f, skip) && Skips(g, skip) && EndsBlank(f.hunks)
    ensures Unskipped(DiffSpots(DiffText([f, g])), skip) != DiffSpots(Filtered(DiffText([f, g]), skip))
  {
    TwoFiles(f, g);
    assert [f, g][1..] == [g];
    FilteringCommutesExactly([f, g], skip);
  }

  /** A kept section that ends in an empty line of a hunk, followed by a skipped one: the
      whole diff records the empty line of the kept file, the filtered one does not. */
  lemma EmptyEndingIsLost(path: string, other: string, text: string, skip: string -> bool)
    requires CleanPath(path) && CleanPath(other) && Unbroken(text)
    requires !skip(path) && skip(other)
    ensures var diff := DiffText([InsertedLine(path, text), HeaderOnly(other)]);
            Unskipped(DiffSpots(diff), skip) != DiffSpots(Filtered(diff, skip))
  {
    InsertedLineIsClean(path, text);
    HeaderOnlyIsClean(other);
    assert EndsBlank(InsertedLine(path, text).hunks);
    KeptThenDropped(InsertedLine(path, text), HeaderOnly(other), skip);
  }
}
