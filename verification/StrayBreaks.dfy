/** Line breaks inside the lines of a file. A diff has one line for each line of the file, up to
    the newline; the scanner also splits at every other break Python's `splitlines` knows. */
module StrayBreaks {
  import opened Prelude
  import opened Text
  import opened FileHeaders
  import opened UnifiedDiffs
  import DiffFilters

  // ---- The lines the scanner sees -------------------------------------------------

  /** What becomes of one written-out line. */
  function Pieces(line: string): seq<string> {
    SplitLines(line + "\n")
  }

  function Broken(lines: seq<string>): seq<string> {
    if lines == [] then [] else Pieces(lines[0]) + Broken(lines[1..])
  }

  /** Every written-out line is split on its own. */
  lemma {:induction false} SplitsByLine(lines: seq<string>)
    requires lines != []
    ensures SplitLines(JoinLines(lines) + "\n") == Broken(lines)
  {
    var rest := if |lines| == 1 then "" else JoinLines(lines[1..]) + "\n";
    JoinClosed(lines);
    SplitAfterNewline(lines[0] + "\n", rest);
    if |lines| == 1 {
      assert lines[1..] == [] && SplitLines("") == [];
    } else {
      SplitsByLine(lines[1..]);
    }
  }

  lemma {:induction false} BrokenConcat(a: seq<string>, b: seq<string>)
    ensures Broken(a + b) == Broken(a) + Broken(b)
  {
    if a == [] {
      assert a + b == b;
    } else {
      assert (a + b)[0] == a[0] && (a + b)[1..] == a[1..] + b;
      BrokenConcat(a[1..], b);
    }
  }

  lemma FreeLineIsWhole(line: string)
    requires BreakFree(line)
    ensures Pieces(line) == [line]
  {
    FreeIsUnbroken(line);
    FirstOfLines(line, "");
    assert line + "\n" + "" == line + "\n";
  }

  predicate AllPlain(lines: seq<string>) {
    forall line :: line in lines ==> OpensNothing(line)
  }

  /** The lines the scanner sees of a hunk: of its header, then of its body. */
  function HunkPieces(h: Hunk): seq<string> {
    Pieces(h.header) + Broken(RenderBody(h.body))
  }

  /** How many lines the scanner counts as new text. */
  function NewCount(tokens: seq<Token>): nat {
    if tokens == [] then 0 else (if tokens[0] == NewText then 1 else 0) + NewCount(tokens[1..])
  }

  function NewLines(h: Hunk): nat {
    if HunkPieces(h) == [] then 0 else NewCount(Tokens(HunkPieces(h)[1..]))
  }

  /** A section in which only the first pieces of headers read like headers. */
  ghost predicate Readable(f: FilePatch) {
    && StartsWith(f.header, FILE_HEADER) && TargetPath(f.header).Some? && BreakFree(f.header)
    && AllPlain(Broken(f.meta))
    && forall h :: h in f.hunks ==> HeaderStates(h) && HunkPieces(h) != [] && AllPlain(HunkPieces(h)[1..])
  }

  lemma FrontIsBreakFree(oldStart: nat, oldCount: Option<nat>, newStart: nat, newCount: Option<nat>)
    ensures var front := FormatHunkHeader(oldStart, oldCount, newStart, newCount, "");
            front != [] && BreakFree(front)
  {
    AnyRangeIsBreakFree(oldStart, oldCount);
    AnyRangeIsBreakFree(newStart, newCount);
    SixJoined("@@ -", RenderRange(oldStart, oldCount), " +", RenderRange(newStart, newCount), " @@", "");
  }

  lemma AnyRangeIsBreakFree(start: nat, count: Option<nat>)
    ensures BreakFree(RenderRange(start, count))
  {
    if count.Some? {
      RangeIsBreakFree(start, count.value);
    } else {
      DecimalIsBreakFree(start);
      assert Decimal(start) + "" == Decimal(start);
    }
  }

  lemma FirstPiece(front: string, tail: string) returns (t: string)
    requires front != [] && BreakFree(front)
    ensures Pieces(front + tail) != [] && Pieces(front + tail)[0] == front + t
  {
    var rest := tail + "\n";
    assert front + tail + "\n" == front + rest && [] + front == front;
    BreakFreeGrows([], front, rest);
    FirstLineGrows(front, rest);
    t := LinesFrom(front, rest)[0][|front|..];
  }

  lemma HeaderTail(oldStart: nat, oldCount: Option<nat>, newStart: nat, newCount: Option<nat>, tail: string)
    ensures FormatHunkHeader(oldStart, oldCount, newStart, newCount, tail)
         == FormatHunkHeader(oldStart, oldCount, newStart, newCount, "") + tail
  {
  }

  /** The first piece of a hunk header states the start. */
  lemma FirstPieceReads(h: Hunk)
    requires HeaderStates(h)
    ensures Pieces(h.header) != [] && Tokenize(Pieces(h.header)[0]) == HunkHeader(Some(h.newStart))
  {
    var oldCount, newCount, tail :| h.header == FormatHunkHeader(h.oldStart, oldCount, h.newStart, newCount, tail);
    HeaderTail(h.oldStart, oldCount, h.newStart, newCount, tail);
    FrontIsBreakFree(h.oldStart, oldCount, h.newStart, newCount);
    var t := FirstPiece(FormatHunkHeader(h.oldStart, oldCount, h.newStart, newCount, ""), tail);
    HeaderTail(h.oldStart, oldCount, h.newStart, newCount, t);
    HunkHeaderRoundTrip(h.oldStart, oldCount, h.newStart, newCount, t);
  }

  // ---- What the scanner records ---------------------------------------------------

  function Noted(path: string, hunks: seq<Hunk>): set<Spot> {
    if hunks == [] then {} else Run(path, hunks[0].newStart, NewLines(hunks[0])) + Noted(path, hunks[1..])
  }

  lemma {:induction false} PlainTokens(lines: seq<string>)
    requires AllPlain(lines)
    ensures Silent(Tokens(lines))
  {
    TokensAre(lines);
  }

  lemma {:induction false} SilentFound(path: string, n: nat, tokens: seq<Token>)
    requires Silent(tokens)
    ensures Found(Inside(path, n), tokens) == Run(path, n, NewCount(tokens))
    ensures Scan(Inside(path, n), tokens) == Inside(path, n + NewCount(tokens))
    decreases |tokens|
  {
    if tokens != [] {
      assert tokens[0] in tokens && forall t :: t in tokens[1..] ==> t in tokens;
      SilentFound(path, if tokens[0] == NewText then n + 1 else n, tokens[1..]);
    }
  }

  lemma HunkNoted(p: Pos, path: string, h: Hunk)
    requires HeaderStates(h) && HunkPieces(h) != [] && AllPlain(HunkPieces(h)[1..]) && FileAt(p) == Some(path)
    ensures Found(p, Tokens(HunkPieces(h))) == Run(path, h.newStart, NewLines(h))
    ensures FileAt(Scan(p, Tokens(HunkPieces(h)))) == Some(path)
  {
    var lines := HunkPieces(h);
    var t, rest := HunkHeader(Some(h.newStart)), Tokens(lines[1..]);
    FirstPieceReads(h);
    assert lines[0] == Pieces(h.header)[0];
    assert Tokens(lines) == [t] + rest;
    OneToken(p, t);
    ScanConcat(p, [t], rest);
    PlainTokens(lines[1..]);
    SilentFound(path, h.newStart, rest);
  }

  lemma HunkBreaks(hunks: seq<Hunk>)
    requires hunks != []
    ensures Broken(RenderHunks(hunks)) == HunkPieces(hunks[0]) + Broken(RenderHunks(hunks[1..]))
  {
    var h := hunks[0];
    BrokenConcat([h.header] + RenderBody(h.body), RenderHunks(hunks[1..]));
    BrokenConcat([h.header], RenderBody(h.body));
    assert [h.header][1..] == [] && Broken([h.header]) == Pieces(h.header) + [];
  }

  lemma {:induction false} HunksNoted(p: Pos, path: string, hunks: seq<Hunk>)
    requires FileAt(p) == Some(path)
    requires forall h :: h in hunks ==> HeaderStates(h) && HunkPieces(h) != [] && AllPlain(HunkPieces(h)[1..])
    ensures Found(p, Tokens(Broken(RenderHunks(hunks)))) == Noted(path, hunks)
    decreases |hunks|
  {
    if hunks != [] {
      var first, rest := HunkPieces(hunks[0]), Broken(RenderHunks(hunks[1..]));
      assert hunks[0] in hunks;
      HunkBreaks(hunks);
      TokensConcat(first, rest);
      ScanConcat(p, Tokens(first), Tokens(rest));
      HunkNoted(p, path, hunks[0]);
      HunksNoted(Scan(p, Tokens(first)), path, hunks[1..]);
    }
  }

  /** What the scanner sees of a section after its header line. */
  function OwnTokens(f: FilePatch): seq<Token> {
    Tokens(Broken(f.meta) + Broken(RenderHunks(f.hunks)))
  }

  /** A section that names its file, and no later piece of which reads like a file header. */
  ghost predicate Sectioned(f: FilePatch) {
    && StartsWith(f.header, FILE_HEADER) && TargetPath(f.header).Some? && BreakFree(f.header)
    && DiffFilters.NoHeader(OwnTokens(f))
  }

  /** What the scanner records of the section on its own. */
  function Scanned(f: FilePatch): set<Spot> {
    Found(Outside(TargetPath(f.header)), OwnTokens(f))
  }

  lemma FileBreaks(f: FilePatch)
    requires BreakFree(f.header)
    ensures Broken(RenderFile(f)) == [f.header] + (Broken(f.meta) + Broken(RenderHunks(f.hunks)))
  {
    BrokenConcat([f.header] + f.meta, RenderHunks(f.hunks));
    BrokenConcat([f.header], f.meta);
    FreeLineIsWhole(f.header);
    assert [f.header][1..] == [] && Broken([f.header]) == [f.header] + [];
  }

  lemma FileScans(p: Pos, f: FilePatch)
    requires Sectioned(f)
    ensures Found(p, Tokens(Broken(RenderFile(f)))) == Scanned(f)
  {
    var t := FileHeader(TargetPath(f.header));
    FileBreaks(f);
    TokensConcat([f.header], Broken(f.meta) + Broken(RenderHunks(f.hunks)));
    assert Tokens([f.header]) == [t];
    OneToken(p, t);
    ScanConcat(p, [t], OwnTokens(f));
  }

  lemma ScannedHasPath(f: FilePatch, s: Spot)
    requires Sectioned(f) && s in Scanned(f)
    ensures TargetPath(f.header) == Some(s.path)
  {
    DiffFilters.NoHeaderKeepsFile(Outside(TargetPath(f.header)), OwnTokens(f));
  }

  function ScannedAll(files: seq<FilePatch>): set<Spot> {
    if files == [] then {} else Scanned(files[0]) + ScannedAll(files[1..])
  }

  lemma {:induction false} PatchScans(p: Pos, files: seq<FilePatch>)
    requires forall f :: f in files ==> Sectioned(f)
    ensures Found(p, Tokens(Broken(RenderPatch(files)))) == ScannedAll(files)
    decreases |files|
  {
    if files != [] {
      var first, rest := Broken(RenderFile(files[0])), Broken(RenderPatch(files[1..]));
      assert files[0] in files;
      FileScans(p, files[0]);
      BrokenConcat(RenderFile(files[0]), RenderPatch(files[1..]));
      TokensConcat(first, rest);
      ScanConcat(p, Tokens(first), Tokens(rest));
      PatchScans(Scan(p, Tokens(first)), files[1..]);
    }
  }

  /** Sections of distinct files record their own lines. */
  lemma {:induction false} ScannedInFile(files: seq<FilePatch>, f: FilePatch, s: Spot)
    requires (forall g :: g in files ==> Sectioned(g)) && DistinctPaths(files)
    requires TargetPath(f.header) == Some(s.path)
    requires forall g :: g in files && TargetPath(g.header) == Some(s.path) ==> g == f
    ensures s in ScannedAll(files) <==> f in files && s in Scanned(f)
    decreases |files|
  {
    if files != [] {
      var g := files[0];
      assert g in files;
      ScannedInFile(files[1..], f, s);
      if s in Scanned(g) {
        ScannedHasPath(g, s);
      }
      assert f in files <==> f == g || f in files[1..];
    }
  }

  lemma DiffScans(files: seq<FilePatch>)
    requires (forall g :: g in files ==> Sectioned(g)) && files != []
    ensures DiffSpots(DiffText(files)) == ScannedAll(files)
  {
    assert RenderFile(files[0]) != [] && RenderPatch(files) == RenderFile(files[0]) + RenderPatch(files[1..]);
    SplitsByLine(RenderPatch(files));
    PatchScans(START, files);
  }

  lemma {:induction false} CoveredHasPath(path: string, hunks: seq<Hunk>, s: Spot)
    requires s in Covered(path, hunks)
    ensures s.path == path
  {
    if s !in Run(path, hunks[0].newStart, |NewSide(hunks[0].body)|) {
      CoveredHasPath(path, hunks[1..], s);
    }
  }

  /** Whatever breaks and hunk headers its lines hold, and however its hunks lie: the numbers
      extracted for a file are the covered lines if and only if its own section, scanned
      alone, records them. */
  lemma SectionDecides(files: seq<FilePatch>, f: FilePatch, path: string)
    requires (forall g :: g in files ==> Sectioned(g)) && DistinctPaths(files)
    requires f in files && TargetPath(f.header) == Some(path) && Sectioned(f)
    ensures SpotsAreTheCoveredLines(DiffSpots(DiffText(files)), path, f.hunks) <==> Scanned(f) == Covered(path, f.hunks)
  {
    DiffScans(files);
    forall s: Spot | s.path == path
      ensures s in ScannedAll(files) <==> s in Scanned(f)
    {
      ScannedInFile(files, f, s);
    }
    OwnSpotsDecide(ScannedAll(files), f, path);
  }

  lemma OwnSpotsDecide(spots: set<Spot>, f: FilePatch, path: string)
    requires Sectioned(f) && TargetPath(f.header) == Some(path)
    requires forall s: Spot :: s.path == path ==> (s in spots <==> s in Scanned(f))
    ensures SpotsAreTheCoveredLines(spots, path, f.hunks) <==> Scanned(f) == Covered(path, f.hunks)
  {
    forall s | s in Scanned(f)
      ensures s.path == path
    {
      ScannedHasPath(f, s);
    }
    forall s | s in Covered(path, f.hunks)
      ensures s.path == path
    {
      CoveredHasPath(path, f.hunks, s);
    }
  }

  lemma SilentHasNoHeader(tokens: seq<Token>)
    requires Silent(tokens)
    ensures DiffFilters.NoHeader(tokens)
  {
    assert forall i :: 0 <= i < |tokens| ==> tokens[i] in tokens;
  }

  lemma NoHeaderJoins(a: seq<Token>, b: seq<Token>)
    requires DiffFilters.NoHeader(a) && DiffFilters.NoHeader(b)
    ensures DiffFilters.NoHeader(a + b)
  {
  }

  lemma HunkHasNoHeader(h: Hunk)
    requires HeaderStates(h) && HunkPieces(h) != [] && AllPlain(HunkPieces(h)[1..])
    ensures DiffFilters.NoHeader(Tokens(HunkPieces(h)))
  {
    var lines := HunkPieces(h);
    FirstPieceReads(h);
    assert lines[0] == Pieces(h.header)[0];
    PlainTokens(lines[1..]);
    SilentHasNoHeader(Tokens(lines[1..]));
    assert Tokens(lines) == [HunkHeader(Some(h.newStart))] + Tokens(lines[1..]);
  }

  lemma {:induction false} HunksHaveNoHeader(hunks: seq<Hunk>)
    requires forall h :: h in hunks ==> HeaderStates(h) && HunkPieces(h) != [] && AllPlain(HunkPieces(h)[1..])
    ensures DiffFilters.NoHeader(Tokens(Broken(RenderHunks(hunks))))
  {
    if hunks != [] {
      assert hunks[0] in hunks;
      HunkBreaks(hunks);
      HunkHasNoHeader(hunks[0]);
      HunksHaveNoHeader(hunks[1..]);
      TokensConcat(HunkPieces(hunks[0]), Broken(RenderHunks(hunks[1..])));
      NoHeaderJoins(Tokens(HunkPieces(hunks[0])), Tokens(Broken(RenderHunks(hunks[1..]))));
    }
  }

  /** A readable section records a run of lines for each hunk. */
  lemma ReadableScans(f: FilePatch)
    requires Readable(f)
    ensures Sectioned(f) && Scanned(f) == Noted(TargetPath(f.header).value, f.hunks)
  {
    var file := TargetPath(f.header);
    var meta, hunks := Broken(f.meta), Broken(RenderHunks(f.hunks));
    TokensConcat(meta, hunks);
    PlainTokens(meta);
    SilentHasNoHeader(Tokens(meta));
    HunksHaveNoHeader(f.hunks);
    NoHeaderJoins(Tokens(meta), Tokens(hunks));
    MetaIsSilent(file, Tokens(meta));
    ScanConcat(Outside(file), Tokens(meta), Tokens(hunks));
    HunksNoted(Outside(file), file.value, f.hunks);
  }

  // ---- When the numbers are right -------------------------------------------------

  /** Between two hunks there is an unchanged line. */
  predicate Apart(hunks: seq<Hunk>) {
    |hunks| > 1 ==>
      var h, g := hunks[0], hunks[1];
      && Begin(g.newStart, NewSide(g.body)) > Begin(h.newStart, NewSide(h.body)) + |NewSide(h.body)|
      && Apart(hunks[1..])
  }

  predicate CountsRight(hunks: seq<Hunk>) {
    forall h :: h in hunks ==> NewLines(h) == |NewSide(h.body)|
  }

  lemma {:induction false} RightCountsCover(path: string, hunks: seq<Hunk>)
    requires CountsRight(hunks)
    ensures Noted(path, hunks) == Covered(path, hunks)
  {
    if hunks != [] {
      assert hunks[0] in hunks;
      RightCountsCover(path, hunks[1..]);
    }
  }

  lemma {:induction false} NotedLiesBeyond(before: seq<string>, after: seq<string>, hunks: seq<Hunk>,
                                           i: nat, j: nat, path: string, s: Spot)
    requires Turns(before, after, hunks, i, j) && s in Noted(path, hunks)
    ensures s.path == path && j <= s.line
    decreases |hunks|
  {
    var h := hunks[0];
    var gone, come := OldSide(h.body), NewSide(h.body);
    if s !in Run(path, h.newStart, NewLines(h)) {
      NotedLiesBeyond(before, after, hunks[1..], Begin(h.oldStart, gone) + |gone|,
                      Begin(h.newStart, come) + |come|, path, s);
    }
  }

  /** An unchanged line in front of the first hunk can be passed over. */
  lemma PassLine(before: seq<string>, after: seq<string>, hunks: seq<Hunk>, i: nat, j: nat)
    requires Turns(before, after, hunks, i, j) && hunks != []
    requires Begin(hunks[0].newStart, NewSide(hunks[0].body)) > j
    ensures Turns(before, after, hunks, i + 1, j + 1)
  {
    var h := hunks[0];
    var oi, nj := Begin(h.oldStart, OldSide(h.body)), Begin(h.newStart, NewSide(h.body));
    assert before[i + 1..oi] == before[i..oi][1..] && after[j + 1..nj] == after[j..nj][1..];
  }

  /** What the later hunks record or cover lies past the line after this one. */
  lemma RestLiesBeyond(before: seq<string>, after: seq<string>, hunks: seq<Hunk>, i: nat, j: nat,
                       path: string, s: Spot)
    requires Turns(before, after, hunks, i, j) && hunks != [] && Apart(hunks)
    ensures var h := hunks[0];
            var end := Begin(h.newStart, NewSide(h.body)) + |NewSide(h.body)|;
            && (s in Noted(path, hunks[1..]) ==> s.path == path && end + 1 <= s.line)
            && (s in Covered(path, hunks[1..]) ==> s.path == path && end + 1 < s.line)
  {
    var h, rest := hunks[0], hunks[1..];
    var gone, come := OldSide(h.body), NewSide(h.body);
    var i', j' := Begin(h.oldStart, gone) + |gone|, Begin(h.newStart, come) + |come|;
    if rest != [] {
      PassLine(before, after, rest, i', j');
      if s in Noted(path, rest) {
        NotedLiesBeyond(before, after, rest, i' + 1, j' + 1, path, s);
      }
      if s in Covered(path, rest) {
        CoveredText(before, after, rest, i' + 1, j' + 1, path, s);
      }
    }
  }

  /** A miscounted hunk shows in a line that is recorded but not covered, or the other way
      round. */
  lemma {:induction false} MiscountShows(before: seq<string>, after: seq<string>, hunks: seq<Hunk>, i: nat, j: nat,
                                         path: string)
    returns (s: Spot)
    requires Turns(before, after, hunks, i, j) && Apart(hunks) && !CountsRight(hunks)
    ensures s.path == path && (s in Noted(path, hunks) <==> s !in Covered(path, hunks))
    decreases |hunks|
  {
    var h, rest := hunks[0], hunks[1..];
    var gone, come := OldSide(h.body), NewSide(h.body);
    if NewLines(h) == |come| {
      var g :| g in hunks && NewLines(g) != |NewSide(g.body)|;
      assert g in rest;
      s := MiscountShows(before, after, rest, Begin(h.oldStart, gone) + |gone|, Begin(h.newStart, come) + |come|, path);
    } else {
      s := Spot(path, h.newStart + if NewLines(h) < |come| then NewLines(h) else |come|);
    }
    RestLiesBeyond(before, after, hunks, i, j, path, s);
  }

  lemma RightCountsExactly(hunks: seq<Hunk>, path: string, before: seq<string>, after: seq<string>)
    requires Turns(before, after, hunks, 0, 0) && Apart(hunks)
    ensures Noted(path, hunks) == Covered(path, hunks) <==> CountsRight(hunks)
  {
    if CountsRight(hunks) {
      RightCountsCover(path, hunks);
    } else {
      var s := MiscountShows(before, after, hunks, 0, 0, path);
    }
  }

  /** Line numbers in the presence of stray breaks. When the hunks of a file turn one text
      into another with an unchanged line between any two of them, and no piece of a line but
      the first of a header reads like a header, the extracted numbers are exactly the covered
      lines if and only if every hunk has as many pieces that count as new text as it has
      new-side lines. */
  lemma NumbersRightExactly(files: seq<FilePatch>, f: FilePatch, path: string, before: seq<string>,
                            after: seq<string>)
    requires (forall g :: g in files ==> Readable(g)) && DistinctPaths(files)
    requires f in files && TargetPath(f.header) == Some(path)
    requires Turns(before, after, f.hunks, 0, 0) && Apart(f.hunks)
    ensures SpotsAreTheCoveredLines(DiffSpots(DiffText(files)), path, f.hunks) <==> CountsRight(f.hunks)
  {
    forall g | g in files
      ensures Sectioned(g)
    {
      ReadableScans(g);
    }
    ReadableScans(f);
    SectionDecides(files, f, path);
    RightCountsExactly(f.hunks, path, before, after);
  }

  // ---- One inserted line ----------------------------------------------------------

  /** A line break inside a line of a file, which git writes out as it is: any break but a
      newline, and a carriage return only if more of the line follows. */
  predicate StrayBreak(c: char, rest: string) {
    IsLineBreak(c) && c != '\n' && (c == '\r' ==> rest != "")
  }

  lemma StrayLines(header: string, hunk: string, u: string, c: char, v: string)
    requires BreakFree(header) && BreakFree(hunk) && BreakFree(u) && BreakFree(v) && StrayBreak(c, v)
    ensures SplitLines(JoinLines([header, hunk, u + [c] + v, ""]) + "\n") == [header, hunk, u, v, ""]
  {
    var third := u + [c] + (v + "\n" + "\n");
    StrayJoined(header, hunk, u, c, v);
    FreeIsUnbroken(header);
    FreeIsUnbroken(hunk);
    FreeIsUnbroken(v);
    FirstOfLines(header, hunk + "\n" + third);
    FirstOfLines(hunk, third);
    LineUpToBreak([], u, c, v + "\n" + "\n");
    assert [] + u == u;
    FirstOfLines(v, "\n");
    assert "\n"[1..] == [] && SplitLines("\n") == [""];
  }

  lemma StrayJoined(header: string, hunk: string, u: string, c: char, v: string)
    ensures JoinLines([header, hunk, u + [c] + v, ""]) + "\n"
         == header + "\n" + (hunk + "\n" + (u + [c] + (v + "\n" + "\n")))
  {
    var x := u + [c] + v;
    assert [header, hunk, x, ""][1..] == [hunk, x, ""] && [hunk, x, ""][1..] == [x, ""] && [x, ""][1..] == [""];
    assert JoinLines([x, ""]) == x + "\n";
    assert x + "\n" + "\n" == u + [c] + (v + "\n" + "\n");
  }

  lemma InsertedHeadersRead(path: string)
    requires CleanPath(path)
    ensures Tokenize(OwnHeader(path)) == FileHeader(Some(path)) && Tokenize(INSERTED_HEADER) == HunkHeader(Some(1))
    ensures BreakFree(OwnHeader(path)) && BreakFree(INSERTED_HEADER)
  {
    OwnHeaderReads(path);
    InsertedHeaderReads();
  }

  lemma AddedLineReads(u: string)
    requires BreakFree(u)
    ensures Tokenize("+" + u) == BodyToken(Added(u)) && BreakFree("+" + u) && Tokenize("") == NewText
  {
    BodyLineReads(Added(u));
    BodyLineReads(Blank);
    BreakFreeJoins("+", u);
  }

  /** What the scanner sees of an inserted line with a stray break in it. */
  lemma StrayTokens(path: string, u: string, c: char, v: string)
    requires CleanPath(path) && BreakFree(u) && BreakFree(v) && StrayBreak(c, v)
    ensures Tokens(SplitLines(DiffText([InsertedLine(path, u + [c] + v)])))
         == [FileHeader(Some(path)), HunkHeader(Some(1)), BodyToken(Added(u)), Tokenize(v), NewText]
  {
    var front := "+" + u;
    InsertedLines(path, u + [c] + v);
    assert "+" + (u + [c] + v) == front + [c] + v;
    InsertedHeadersRead(path);
    AddedLineReads(u);
    StrayLines(OwnHeader(path), INSERTED_HEADER, front, c, v);
    FiveTokens(OwnHeader(path), INSERTED_HEADER, front, v, "");
  }

  lemma FiveTokens(a: string, b: string, c: string, d: string, e: string)
    ensures Tokens([a, b, c, d, e]) == [Tokenize(a), Tokenize(b), Tokenize(c), Tokenize(d), Tokenize(e)]
  {
    assert [a, b, c, d, e][1..] == [b, c, d, e] && [b, c, d, e][1..] == [c, d, e];
    assert [c, d, e][1..] == [d, e] && [d, e][1..] == [e] && [e][1..] == [];
    assert Tokens([d, e]) == [Tokenize(d), Tokenize(e)];
    assert Tokens([b, c, d, e]) == [Tokenize(b), Tokenize(c)] + Tokens([d, e]);
  }

  lemma StraySpots(path: string, a: Token, b: Token)
    ensures var p := StepPos(Inside(path, 1), a);
            Found(START, [FileHeader(Some(path)), HunkHeader(Some(1)), a, b, NewText])
            == Commentable(Inside(path, 1), a) + Commentable(p, b) + Commentable(StepPos(p, b), NewText)
  {
    var h, k := FileHeader(Some(path)), HunkHeader(Some(1));
    var p := StepPos(Inside(path, 1), a);
    assert [h, k, a, b, NewText] == [h] + ([k] + ([a] + ([b] + [NewText])));
    ScanConcat(START, [h], [k] + ([a] + ([b] + [NewText])));
    ScanConcat(Outside(Some(path)), [k], [a] + ([b] + [NewText]));
    ScanConcat(Inside(path, 1), [a], [b] + [NewText]);
    ScanConcat(p, [b], [NewText]);
    OneToken(START, h);
    OneToken(Outside(Some(path)), k);
    OneToken(Inside(path, 1), a);
    OneToken(p, b);
    OneToken(StepPos(p, b), NewText);
  }

  lemma StrayReads(path: string, u: string, c: char, v: string)
    requires CleanPath(path) && BreakFree(u) && BreakFree(v) && StrayBreak(c, v)
    ensures var a, b := BodyToken(Added(u)), Tokenize(v);
            var p := StepPos(Inside(path, 1), a);
            DiffSpots(DiffText([InsertedLine(path, u + [c] + v)]))
            == Commentable(Inside(path, 1), a) + Commentable(p, b) + Commentable(StepPos(p, b), NewText)
  {
    StrayTokens(path, u, c, v);
    StraySpots(path, BodyToken(Added(u)), Tokenize(v));
  }

  /** The stray break does no harm: its two halves count as one line of the new file, or the
      second half happens to restore the count. */
  predicate Harmless(u: string, v: string) {
    if StartsWith(u, "++") then Tokenize(v) == NewText
    else Tokenize(v) == Ignored || Tokenize(v) == HunkHeader(Some(2))
  }

  /** The scanner splits lines at every break Python knows, a diff only at newlines. For a line
      inserted before an empty one, the extracted numbers are those of the covered lines if
      and only if what follows the break reads harmlessly. */
  lemma StrayBreakExactly(path: string, u: string, c: char, v: string)
    requires CleanPath(path) && BreakFree(u) && BreakFree(v) && StrayBreak(c, v)
    ensures var text := u + [c] + v;
            var f := InsertedLine(path, text);
            && Turns([""], [text, ""], f.hunks, 0, 0)
            && (SpotsAreTheCoveredLines(DiffSpots(DiffText([f])), path, f.hunks) <==> Harmless(u, v))
  {
    var text := u + [c] + v;
    InsertedTurns(path, text);
    StrayReads(path, u, c, v);
    InsertedCovers(path, text);
    StrayCases(path, BodyToken(Added(u)), Tokenize(v), DiffSpots(DiffText([InsertedLine(path, text)])),
        InsertedLine(path, text).hunks);
  }

  lemma InsertedCovers(path: string, text: string)
    ensures forall s :: s in Covered(path, InsertedLine(path, text).hunks) <==> s == Spot(path, 1) || s == Spot(path, 2)
  {
    InsertedBody(text);
    assert InsertedLine(path, text).hunks[1..] == [];
  }

  lemma StrayCases(path: string, a: Token, b: Token, spots: set<Spot>, hunks: seq<Hunk>)
    requires a == NewText || a == Ignored
    requires var p := StepPos(Inside(path, 1), a);
             spots == Commentable(Inside(path, 1), a) + Commentable(p, b) + Commentable(StepPos(p, b), NewText)
    requires forall s :: s in Covered(path, hunks) <==> s == Spot(path, 1) || s == Spot(path, 2)
    ensures SpotsAreTheCoveredLines(spots, path, hunks) <==>
              if a == Ignored then b == NewText else b == Ignored || b == HunkHeader(Some(2))
  {
    assert Spot(path, 1) in Covered(path, hunks) && Spot(path, 2) in Covered(path, hunks);
    assert Spot(path, 3) !in Covered(path, hunks);
    assert forall s: Spot :: s.path == path ==> s == Spot(path, s.line);
  }

  lemma ContextReads(v: string)
    requires v != [] && v[0] == ' '
    ensures Tokenize(v) == NewText
  {
    BodyLineReads(Context(v[1..]));
    assert RenderLine(Context(v[1..])) == v;
  }

  /** So an added line with a form feed and a blank in it is taken for two lines of the new
      file, and the line after it is numbered one too high. */
  lemma FormFeedCountsTwice(path: string, u: string, v: string)
    requires CleanPath(path) && BreakFree(u) && BreakFree(v) && v != [] && v[0] == ' ' && !StartsWith(u, "++")
    ensures var f := InsertedLine(path, u + ['\U{0C}'] + v);
            && DiffSpots(DiffText([f])) == {Spot(path, 1), Spot(path, 2), Spot(path, 3)}
            && Covered(path, f.hunks) == {Spot(path, 1), Spot(path, 2)}
  {
    ContextReads(v);
    StrayReads(path, u, '\U{0C}', v);
    InsertedCovers(path, u + ['\U{0C}'] + v);
  }
}
