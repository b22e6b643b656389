/** Dropping unwanted files from a diff (`filter_diff`), and why doing so before or after
    reading the line numbers comes to the same. */
module DiffFilters {
  import opened Prelude
  import opened Text
  import opened FileHeaders
  import opened UnifiedDiffs

  /** What `str.split` cuts at: a newline followed by a file header. */
  const SECTION_BREAK := "\ndiff --git "

  function FirstLine(s: string): string {
    if SplitLines(s) == [] then "" else SplitLines(s)[0]
  }

  /** A section stays if its header names no path or a path that is not to be skipped. */
  predicate Survives(section: string, skip: string -> bool) {
    var path := TargetPath(FirstLine(section));
    path.None? || !skip(path.value)
  }

  function Prefixed(raws: seq<string>): seq<string> {
    if raws == [] then [] else [FILE_HEADER + raws[0]] + Prefixed(raws[1..])
  }

  /** The pieces of a diff: what comes before the first header that starts a line other than
      the first, then one piece for each such header. */
  function Sections(diff: string): (r: seq<string>)
    ensures r != []
  {
    var pieces := SplitOn(diff, SECTION_BREAK);
    [pieces[0]] + Prefixed(pieces[1..])
  }

  function Surviving(skip: string -> bool): string -> bool {
    section => Survives(section, skip)
  }

  function Kept(sections: seq<string>, skip: string -> bool): seq<string> {
    Filter(sections, Surviving(skip))
  }

  /** Python's `rstrip("\n")`. */
  function StripNewlines(s: string): string {
    if s != [] && s[|s| - 1] == '\n' then StripNewlines(s[..|s| - 1]) else s
  }

  /** Put a preamble and the joined sections together again. */
  function Assemble(preamble: string, body: string): string {
    if preamble != "" && body != "" then StripNewlines(preamble) + "\n" + body
    else if body != "" then body
    else preamble
  }

  function Filtered(diff: string, skip: string -> bool): string {
    if diff == "" then diff
    else
      var sections := Sections(diff);
      if StartsWith(sections[0], FILE_HEADER) then Assemble("", JoinLines(Kept(sections, skip)))
      else Assemble(sections[0], JoinLines(Kept(sections[1..], skip)))
  }

  lemma {:induction false} PrefixedAt(raws: seq<string>, i: nat)
    requires i < |raws|
    ensures |Prefixed(raws)| == |raws| && Prefixed(raws)[i] == FILE_HEADER + raws[i]
  {
    if i > 0 {
      PrefixedAt(raws[1..], i - 1);
    } else if |raws| > 1 {
      PrefixedAt(raws[1..], 0);
    }
  }

  lemma KeepOneMore(sections: seq<string>, from: nat, i: nat, skip: string -> bool)
    requires from <= i < |sections|
    ensures Kept(sections[from..i + 1], skip)
         == Kept(sections[from..i], skip) + (if Survives(sections[i], skip) then [sections[i]] else [])
  {
    assert sections[from..i + 1] == sections[from..i] + [sections[i]];
    FilterAppend(sections[from..i], sections[i], Surviving(skip));
  }

  lemma SectionAt(diff: string, i: nat)
    requires i < |SplitOn(diff, SECTION_BREAK)|
    ensures |Sections(diff)| == |SplitOn(diff, SECTION_BREAK)|
    ensures Sections(diff)[i] ==
              if i == 0 then SplitOn(diff, SECTION_BREAK)[0] else FILE_HEADER + SplitOn(diff, SECTION_BREAK)[i]
  {
    var raws := SplitOn(diff, SECTION_BREAK)[1..];
    if raws != [] {
      PrefixedAt(raws, if i == 0 then 0 else i - 1);
    }
  }

  /** The loop over the pieces after the first; `start` is what was kept of the first. */
  method CollectSections(diff: string, skip: string -> bool, ghost from: nat, start: seq<string>)
    returns (kept: seq<string>)
    requires from <= 1 && start == Kept(Sections(diff)[from..1], skip)
    ensures kept == Kept(Sections(diff)[from..], skip)
  {
    var pieces := SplitOn(diff, SECTION_BREAK);
    ghost var sections := Sections(diff);
    SectionAt(diff, 0);
    kept := start;
    for i := 1 to |pieces|
      invariant kept == Kept(sections[from..i], skip)
    {
      SectionAt(diff, i);
      KeepOneMore(sections, from, i, skip);
      var section := FILE_HEADER + pieces[i];
      if Survives(section, skip) {
        kept := kept + [section];
      }
    }
    assert sections[from..|pieces|] == sections[from..];
  }

  /** `filter_diff`, for any predicate on paths. */
  method FilterDiff(diff: string, skip: string -> bool) returns (filtered: string)
    ensures filtered == Filtered(diff, skip)
  {
    if diff == "" {
      return diff;
    }
    ghost var sections := Sections(diff);
    var preamble := SplitOn(diff, SECTION_BREAK)[0];
    if StartsWith(preamble, FILE_HEADER) {
      KeepOneMore(sections, 0, 0, skip);
      var kept := CollectSections(diff, skip, 0, if Survives(preamble, skip) then [preamble] else []);
      assert sections[0..] == sections;
      return Assemble("", JoinLines(kept));
    } else {
      var kept := CollectSections(diff, skip, 1, []);
      return Assemble(preamble, JoinLines(kept));
    }
  }

  // ---- What the sections of a diff look like --------------------------------------

  /** A carriage return that a newline follows, or that ends the text. */
  predicate ReturnAt(s: string, i: nat)
    requires i < |s|
  {
    s[i] == '\r' && (i + 1 == |s| || s[i + 1] == '\n')
  }

  /** Every line break of the text is a newline, with or without a carriage return before it. */
  predicate NewlineOnly(s: string) {
    forall i {:trigger IsLineBreak(s[i])} :: 0 <= i < |s| && IsLineBreak(s[i]) ==> s[i] == '\n' || ReturnAt(s, i)
  }

  lemma NewlineOnlyAfter(s: string, n: nat)
    requires NewlineOnly(s) && n <= |s|
    ensures NewlineOnly(s[n..])
  {
    forall i | 0 <= i < |s| - n && IsLineBreak(s[n..][i])
      ensures s[n..][i] == '\n' || ReturnAt(s[n..], i)
    {
      assert IsLineBreak(s[n + i]);
    }
  }

  lemma NewlineOnlyBefore(s: string, n: nat)
    requires NewlineOnly(s) && n <= |s| && (n == |s| || s[n] == '\n')
    ensures NewlineOnly(s[..n])
  {
    forall i | 0 <= i < n && IsLineBreak(s[..n][i])
      ensures s[..n][i] == '\n' || ReturnAt(s[..n], i)
    {
      assert IsLineBreak(s[i]);
    }
  }

  lemma NewlineOnlyJoins(a: string, b: string)
    requires NewlineOnly(a) && NewlineOnly(b)
    requires a == [] || b == [] || a[|a| - 1] != '\r' || b[0] == '\n'
    ensures NewlineOnly(a + b)
  {
    var s := a + b;
    forall i | 0 <= i < |s| && IsLineBreak(s[i])
      ensures s[i] == '\n' || ReturnAt(s, i)
    {
      if i < |a| {
        assert IsLineBreak(a[i]);
      } else {
        assert IsLineBreak(b[i - |a|]);
      }
    }
  }

  /** The sections joined by newlines are the diff. */
  lemma SectionsRoundTrip(diff: string)
    ensures JoinLines(Sections(diff)) == diff
  {
    SplitOnRoundTrip(diff, SECTION_BREAK);
    JoinedPieces(SplitOn(diff, SECTION_BREAK));
  }

  lemma JoinCons(x: string, tail: seq<string>)
    ensures JoinLines([x] + tail) == x + (if tail == [] then "" else "\n" + JoinLines(tail))
  {
    assert ([x] + tail)[1..] == tail;
    if tail != [] {
      Associate(x, "\n", JoinLines(tail));
    } else {
      assert x + "" == x;
    }
  }

  lemma Associate(a: string, b: string, c: string)
    ensures a + b + c == a + (b + c)
  {
  }

  /** Prefixing the first of several joined lines prefixes the whole. */
  lemma PrefixedFirst(x: string, tail: seq<string>)
    ensures JoinLines([FILE_HEADER + x] + tail) == FILE_HEADER + JoinLines([x] + tail)
  {
    JoinCons(x, tail);
    JoinCons(FILE_HEADER + x, tail);
    Associate(FILE_HEADER, x, if tail == [] then "" else "\n" + JoinLines(tail));
  }

  lemma {:induction false} JoinedPieces(pieces: seq<string>)
    requires pieces != []
    ensures JoinLines([pieces[0]] + Prefixed(pieces[1..])) == Join(pieces, SECTION_BREAK)
    decreases |pieces|
  {
    var first, others := pieces[0], pieces[1..];
    JoinCons(first, Prefixed(others));
    if others == [] {
      assert first + "" == first;
    } else {
      JoinedPieces(others);
      PrefixedFirst(others[0], Prefixed(others[1..]));
      var joined := Join(others, SECTION_BREAK);
      assert JoinLines(Prefixed(others)) == FILE_HEADER + joined;
      SeparatorSplits(first, joined);
    }
  }

  lemma SeparatorSplits(a: string, b: string)
    ensures a + ("\n" + (FILE_HEADER + b)) == a + SECTION_BREAK + b
  {
    assert "\n" + FILE_HEADER == SECTION_BREAK;
    Associate("\n", FILE_HEADER, b);
    Associate(a, SECTION_BREAK, b);
  }

  // ---- Where file headers can stand -----------------------------------------------

  /** The first line of a text is how the text begins. */
  lemma {:induction false} FirstLineBegins(prefix: string, s: string)
    requires LinesFrom(prefix, s) != []
    ensures StartsWith(prefix + s, LinesFrom(prefix, s)[0])
    decreases |s|
  {
    if s == [] {
      assert prefix + s == prefix;
    } else if IsLineBreak(s[0]) {
      assert (prefix + s)[..|prefix|] == prefix;
    } else {
      assert prefix + [s[0]] + s[1..] == prefix + s;
      FirstLineBegins(prefix + [s[0]], s[1..]);
    }
  }

  lemma OccursLater(s: string, n: nat, word: string, i: nat)
    requires n <= |s| && OccursAt(s[n..], word, i)
    ensures OccursAt(s, word, n + i)
  {
    assert s[n..][i..i + |word|] == s[n + i..n + i + |word|];
  }

  lemma BreakAtFront(s: string)
    requires s != [] && s[0] == '\n' && StartsWith(s[1..], FILE_HEADER)
    ensures OccursAt(s, SECTION_BREAK, 0)
  {
    assert s[..|SECTION_BREAK|] == [s[0]] + s[1..][..|FILE_HEADER|];
    assert SECTION_BREAK == "\n" + FILE_HEADER;
  }

  /** The line break at the front ends in a newline, and the second line is a file header. */
  lemma SecondLineIsBreak(s: string)
    requires s != [] && IsLineBreak(s[0]) && NewlineOnly(s)
    requires var lines := LinesFrom([], s[BreakLength(s)..]); lines != [] && StartsWith(lines[0], FILE_HEADER)
    ensures OccursAt(s, SECTION_BREAK, BreakLength(s) - 1)
  {
    var n := BreakLength(s);
    var rest := s[n..];
    assert s[0] == '\n' || ReturnAt(s, 0);
    FirstLineBegins([], rest);
    StartsFurther([] + rest, LinesFrom([], rest)[0], FILE_HEADER);
    assert [] + rest == rest && s[n - 1..][1..] == rest;
    BreakAtFront(s[n - 1..]);
    OccursLater(s, n - 1, SECTION_BREAK, 0);
  }

  lemma StartsFurther(s: string, line: string, word: string)
    requires StartsWith(s, line) && StartsWith(line, word)
    ensures StartsWith(s, word)
  {
    assert s[..|word|] == s[..|line|][..|word|];
  }

  /** In a text whose line breaks are newlines, a line after the first that looks like a file
      header is a place where the text would have been cut. */
  lemma {:induction false} HeaderLineIsBreak(prefix: string, s: string, k: nat) returns (i: nat)
    requires NewlineOnly(s) && 1 <= k < |LinesFrom(prefix, s)| && StartsWith(LinesFrom(prefix, s)[k], FILE_HEADER)
    ensures OccursAt(s, SECTION_BREAK, i)
    decreases |s|
  {
    var n := if IsLineBreak(s[0]) then BreakLength(s) else 1;
    NewlineOnlyAfter(s, n);
    if !IsLineBreak(s[0]) {
      i := HeaderLineIsBreak(prefix + [s[0]], s[1..], k);
    } else if k == 1 {
      SecondLineIsBreak(s);
      return n - 1;
    } else {
      i := HeaderLineIsBreak([], s[n..], k - 1);
    }
    OccursLater(s, n, SECTION_BREAK, i);
    i := n + i;
  }

  /** The text would not be cut any further. */
  ghost predicate Whole(s: string) {
    forall i: nat :: !OccursAt(s, SECTION_BREAK, i)
  }

  ghost predicate Uncut(s: string) {
    NewlineOnly(s) && Whole(s)
  }

  lemma CutShape(s: string, i: nat)
    requires OccursAt(s, SECTION_BREAK, i)
    ensures s[i] == '\n'
  {
    assert s[i..i + |SECTION_BREAK|][0] == s[i];
  }

  lemma {:induction false} PiecesAreUncut(s: string)
    requires NewlineOnly(s)
    ensures forall k :: 0 <= k < |SplitOn(s, SECTION_BREAK)| ==> Uncut(SplitOn(s, SECTION_BREAK)[k])
    decreases |s|
  {
    SplitOnRoundTrip(s, SECTION_BREAK);
    var i := Find(s, SECTION_BREAK);
    if i.Some? {
      CutShape(s, i.value);
      NewlineOnlyBefore(s, i.value);
      NewlineOnlyAfter(s, i.value + |SECTION_BREAK|);
      PiecesAreUncut(s[i.value + |SECTION_BREAK|..]);
    }
  }

  lemma HeaderShiftsCut(raw: string, i: nat)
    ensures OccursAt(FILE_HEADER + raw, SECTION_BREAK, i) <==>
              i >= |FILE_HEADER| && OccursAt(raw, SECTION_BREAK, i - |FILE_HEADER|)
  {
    var x, n := FILE_HEADER + raw, |SECTION_BREAK|;
    if i < |FILE_HEADER| {
      OccursChar(x, SECTION_BREAK, i, 0);
      assert x[i] == FILE_HEADER[i] != '\n';
    } else if i + n <= |x| {
      assert x[i..i + n] == raw[i - |FILE_HEADER|..i - |FILE_HEADER| + n];
    }
  }

  /** A file header put before uncut text opens no new place to cut. */
  lemma HeaderedIsUncut(raw: string)
    requires Uncut(raw)
    ensures Uncut(FILE_HEADER + raw) && StartsWith(FILE_HEADER + raw, FILE_HEADER)
  {
    assert forall i :: 0 <= i < |FILE_HEADER| ==> !IsLineBreak(FILE_HEADER[i]);
    NewlineOnlyJoins(FILE_HEADER, raw);
    forall i: nat
      ensures !OccursAt(FILE_HEADER + raw, SECTION_BREAK, i)
    {
      HeaderShiftsCut(raw, i);
    }
  }

  // ---- Sections as token lists ----------------------------------------------------

  function Read(s: string): seq<Token> {
    Tokens(SplitLines(s))
  }

  predicate NoHeader(ts: seq<Token>) {
    forall i :: 0 <= i < |ts| ==> !ts[i].FileHeader?
  }

  predicate IsSection(ts: seq<Token>) {
    ts != [] && ts[0].FileHeader? && NoHeader(ts[1..])
  }

  lemma {:induction false} TokenAt(lines: seq<string>, i: nat)
    requires i < |lines|
    ensures Tokens(lines)[i] == Tokenize(lines[i])
  {
    if i > 0 {
      TokenAt(lines[1..], i - 1);
    }
  }

  lemma LaterLinesAreNoHeaders(s: string, k: nat)
    requires Uncut(s) && 1 <= k < |SplitLines(s)|
    ensures !Read(s)[k].FileHeader?
  {
    TokenAt(SplitLines(s), k);
    if StartsWith(SplitLines(s)[k], FILE_HEADER) {
      var i := HeaderLineIsBreak([], s, k);
    }
  }

  lemma SectionReads(x: string)
    requires Uncut(x) && StartsWith(x, FILE_HEADER)
    ensures IsSection(Read(x)) && Read(x)[0] == FileHeader(TargetPath(FirstLine(x)))
  {
    HeaderFirst(x);
    TokenAt(SplitLines(x), 0);
    forall k | 1 <= k < |Read(x)|
      ensures !Read(x)[k].FileHeader?
    {
      LaterLinesAreNoHeaders(x, k);
    }
  }

  lemma HeaderFirst(x: string)
    requires StartsWith(x, FILE_HEADER)
    ensures SplitLines(x) != [] && StartsWith(SplitLines(x)[0], FILE_HEADER)
  {
    var raw := x[|FILE_HEADER|..];
    assert x == FILE_HEADER + raw;
    BreakFreeGrows([], FILE_HEADER, raw);
    assert [] + FILE_HEADER == FILE_HEADER;
    FirstLineGrows(FILE_HEADER, raw);
  }

  lemma PreambleReads(x: string)
    requires Uncut(x) && !StartsWith(x, FILE_HEADER)
    ensures NoHeader(Read(x))
  {
    forall k | 0 <= k < |Read(x)|
      ensures !Read(x)[k].FileHeader?
    {
      if k == 0 {
        TokenAt(SplitLines(x), 0);
        FirstLineBegins([], x);
        assert [] + x == x;
        var line, n := SplitLines(x)[0], |FILE_HEADER|;
        assert n <= |line| ==> line[..n] == x[..|line|][..n] == x[..n];
      } else {
        LaterLinesAreNoHeaders(x, k);
      }
    }
  }

  /** Closing a text with a newline reads as before, or as one more context line if the text
      already ended in an empty line. */
  lemma ReadClosed(x: string)
    requires x != ""
    ensures Read(x + "\n") == Read(x) + (if EndsLine(x) then [NewText] else [])
  {
    SplitWithNewline(x);
    if EndsLine(x) {
      TokensConcat(SplitLines(x), [""]);
      FirstCharDiffers("", FILE_HEADER);
      FirstCharDiffers("", "@@");
      assert Tokens([""]) == [NewText];
    } else {
      assert SplitLines(x) + [] == SplitLines(x) && Read(x) + [] == Read(x);
    }
  }

  // ---- Sections on their own ------------------------------------------------------

  lemma {:induction false} NoHeaderKeepsFile(p: Pos, ts: seq<Token>)
    requires NoHeader(ts)
    ensures FileAt(Scan(p, ts)) == FileAt(p)
    ensures forall s :: s in Found(p, ts) ==> FileAt(p) == Some(s.path)
    ensures p == START ==> Scan(p, ts) == START
    decreases |ts|
  {
    if ts != [] {
      NoHeaderKeepsFile(StepPos(p, ts[0]), ts[1..]);
    }
  }

  /** A file whose path git quotes is lost on both: its section finds no spots, whatever its
      hunks are, and it survives every predicate on paths. */
  lemma QuotedFileEscapes(section: string, from: string, path: string, p: Pos, skip: string -> bool)
    requires NeedsQuote(path) && Free(path) && Free(from)
    requires IsSection(Read(section)) && FirstLine(section) == GitHeader(from, path)
    ensures Found(p, Read(section)) == {} && Survives(section, skip)
  {
    QuotedHeaderNamesNothing(from, path);
    GitHeaderShape(from, path);
    TokenAt(SplitLines(section), 0);
    NoHeaderKeepsFile(Outside(None), Read(section)[1..]);
    assert Found(Outside(None), Read(section)[1..]) == {};
  }

  /** A section finds the same spots wherever it stands, all in its own file. */
  lemma SectionStandsAlone(p: Pos, ts: seq<Token>)
    requires IsSection(ts)
    ensures Found(p, ts) == Found(START, ts)
    ensures forall s :: s in Found(p, ts) ==> ts[0].file == Some(s.path)
  {
    NoHeaderKeepsFile(Outside(ts[0].file), ts[1..]);
  }

  function AllTokens(sections: seq<string>): seq<Token> {
    if sections == [] then []
    else if |sections| == 1 then Read(sections[0])
    else Read(sections[0] + "\n") + AllTokens(sections[1..])
  }

  lemma {:induction false} JoinedReads(sections: seq<string>)
    ensures Read(JoinLines(sections)) == AllTokens(sections)
  {
    if |sections| > 1 {
      var rest := JoinLines(sections[1..]);
      JoinedReads(sections[1..]);
      SplitAfterNewline(sections[0] + "\n", rest);
      TokensConcat(SplitLines(sections[0] + "\n"), SplitLines(rest));
    }
  }

  // ---- Filtering commutes ---------------------------------------------------------

  /** Drop the spots of skipped files. */
  function Unskipped(spots: set<Spot>, skip: string -> bool): set<Spot> {
    set s | s in spots && !skip(s.path)
  }

  ghost predicate Proper(section: string) {
    Uncut(section) && StartsWith(section, FILE_HEADER)
  }

  /** The spot of the empty line a section ends in, if it does and the line lies in a hunk. */
  function Trailing(section: string): set<Spot> {
    if EndsLine(section) then Commentable(Scan(START, Read(section)), NewText) else {}
  }

  /** The one spot filtering may cost: the empty last line of the last kept section, when
      sections after it are dropped. */
  function Lost(sections: seq<string>, skip: string -> bool): set<Spot> {
    if sections == [] then {}
    else if Survives(sections[0], skip) && |sections| > 1 && Kept(sections[1..], skip) == [] then Trailing(sections[0])
    else Lost(sections[1..], skip)
  }

  /** The spots of one section, wherever it stands, closed by a newline or not. */
  lemma SectionSpots(section: string, p: Pos)
    requires Proper(section)
    ensures Found(p, Read(section)) == Found(START, Read(section))
    ensures Found(p, Read(section + "\n")) == Found(START, Read(section)) + Trailing(section)
  {
    SectionReads(section);
    ReadClosed(section);
    var ts := Read(section);
    var blank := if EndsLine(section) then [NewText] else [];
    SectionStandsAlone(p, ts);
    SectionStandsAlone(p, ts + blank);
    ScanConcat(START, ts, blank);
    if EndsLine(section) {
      OneToken(Scan(START, ts), NewText);
    }
  }

  /** All spots of a section survive or fall together. */
  lemma SectionSurvives(section: string, skip: string -> bool)
    requires Proper(section)
    ensures var spots := Found(START, Read(section));
            && Unskipped(spots, skip) == (if Survives(section, skip) then spots else {})
            && Unskipped(Trailing(section), skip) == (if Survives(section, skip) then Trailing(section) else {})
  {
    SectionReads(section);
    var ts := Read(section);
    SectionStandsAlone(START, ts);
    NoHeaderKeepsFile(Outside(ts[0].file), ts[1..]);
    assert FileAt(Scan(START, ts)) == ts[0].file;
  }

  lemma KeptCons(sections: seq<string>, skip: string -> bool)
    requires sections != []
    ensures Kept(sections, skip) ==
              (if Survives(sections[0], skip) then [sections[0]] else []) + Kept(sections[1..], skip)
  {
  }

  lemma {:induction false} NothingKeptNothingLost(sections: seq<string>, skip: string -> bool)
    requires Kept(sections, skip) == []
    ensures Lost(sections, skip) == {}
  {
    if sections != [] {
      KeptCons(sections, skip);
      NothingKeptNothingLost(sections[1..], skip);
    }
  }

  /** The spots of a list of sections, with those of its first section apart. */
  lemma FirstSectionApart(sections: seq<string>, p: Pos)
    requires sections != [] && Proper(sections[0])
    ensures sections[1..] == [] ==> Found(p, AllTokens(sections)) == Found(START, Read(sections[0]))
    ensures sections[1..] != [] ==>
              Found(p, AllTokens(sections))
              == (Found(START, Read(sections[0])) + Trailing(sections[0]))
                 + Found(Scan(p, Read(sections[0] + "\n")), AllTokens(sections[1..]))
  {
    SectionSpots(sections[0], p);
    if sections[1..] != [] {
      ScanConcat(p, Read(sections[0] + "\n"), AllTokens(sections[1..]));
    }
  }

  /** Sections: dropping the spots of skipped files leaves what the kept sections give, and
      the lost spot if there is one. */
  lemma {:induction false} SectionsCommute(sections: seq<string>, skip: string -> bool, p: Pos)
    requires forall k :: 0 <= k < |sections| ==> Proper(sections[k])
    ensures Unskipped(Found(p, AllTokens(sections)), skip)
         == Found(START, AllTokens(Kept(sections, skip))) + Lost(sections, skip)
    decreases |sections|
  {
    if sections != [] {
      var x, rest, q := sections[0], sections[1..], Scan(p, Read(sections[0] + "\n"));
      FirstSectionApart(sections, p);
      SectionsCommute(rest, skip, q);
      CommuteStep(x, rest, skip, Found(p, AllTokens(sections)), Found(q, AllTokens(rest)));
      KeptCons(sections, skip);
      assert Lost(sections, skip) == LostFirst(x, rest, skip);
      assert Kept(sections, skip) == KeptFirst(x, rest, skip);
    }
  }

  function LostFirst(x: string, rest: seq<string>, skip: string -> bool): set<Spot> {
    if Survives(x, skip) && rest != [] && Kept(rest, skip) == [] then Trailing(x) else Lost(rest, skip)
  }

  function KeptFirst(x: string, rest: seq<string>, skip: string -> bool): seq<string> {
    (if Survives(x, skip) then [x] else []) + Kept(rest, skip)
  }

  lemma UnskippedWhole(own: set<Spot>, tail: set<Spot>, later: set<Spot>, skip: string -> bool)
    ensures Unskipped(own + tail + later, skip) ==
              Unskipped(own, skip) + (Unskipped(tail, skip) + Unskipped(later, skip))
  {
  }

  /** The spots of the kept sections, with those of the first section apart. */
  lemma KeptFirstApart(x: string, rest: seq<string>, skip: string -> bool)
    requires Proper(x) && forall k :: 0 <= k < |rest| ==> Proper(rest[k])
    ensures var kept := Kept(rest, skip);
            Found(START, AllTokens(KeptFirst(x, rest, skip)))
            == if Survives(x, skip) then
                 Found(START, Read(x)) + (if kept == [] then {} else Trailing(x)) + Found(START, AllTokens(kept))
               else Found(START, AllTokens(kept))
  {
    var kept := Kept(rest, skip);
    if Survives(x, skip) {
      forall k | 0 <= k < |kept|
        ensures Proper(kept[k])
      {
        assert kept[k] in kept;
      }
      KeepFirst(x, kept, skip);
    } else {
      assert [] + kept == kept;
    }
  }

  /** One section in front of the rest; `whole` and `later` are the spots with and without it. */
  lemma CommuteStep(x: string, rest: seq<string>, skip: string -> bool, whole: set<Spot>,
                    later: set<Spot>)
    requires Proper(x) && forall k :: 0 <= k < |rest| ==> Proper(rest[k])
    requires whole == if rest == [] then Found(START, Read(x)) else (Found(START, Read(x)) + Trailing(x)) + later
    requires Unskipped(later, skip) == Found(START, AllTokens(Kept(rest, skip))) + Lost(rest, skip)
    ensures Unskipped(whole, skip) == Found(START, AllTokens(KeptFirst(x, rest, skip))) + LostFirst(x, rest, skip)
  {
    SectionSurvives(x, skip);
    KeptFirstApart(x, rest, skip);
    NothingLeft(rest, skip);
    CombineStep(x, rest, skip, whole, later, Found(START, Read(x)), Trailing(x),
                Found(START, AllTokens(Kept(rest, skip))), Lost(rest, skip),
                Found(START, AllTokens(KeptFirst(x, rest, skip))));
  }

  lemma CombineStep(x: string, rest: seq<string>, skip: string -> bool, whole: set<Spot>,
                    later: set<Spot>,
                    own: set<Spot>, tail: set<Spot>, kept: set<Spot>, lost: set<Spot>, keptFirst: set<Spot>)
    requires whole == if rest == [] then own else (own + tail) + later
    requires Unskipped(later, skip) == kept + lost && tail == Trailing(x) && lost == Lost(rest, skip)
    requires Unskipped(own, skip) == if Survives(x, skip) then own else {}
    requires Unskipped(tail, skip) == if Survives(x, skip) then tail else {}
    requires Kept(rest, skip) == [] ==> kept == {} && lost == {}
    requires keptFirst == if Survives(x, skip) then own + (if Kept(rest, skip) == [] then {} else tail) + kept else kept
    ensures Unskipped(whole, skip) == keptFirst + LostFirst(x, rest, skip)
  {
    UnskippedWhole(own, tail, later, skip);
  }

  lemma NothingLeft(rest: seq<string>, skip: string -> bool)
    ensures Kept(rest, skip) == [] ==> Lost(rest, skip) == {}
  {
    if Kept(rest, skip) == [] {
      NothingKeptNothingLost(rest, skip);
    }
  }

  /** A kept section in front of other kept sections. */
  lemma KeepFirst(x: string, kept: seq<string>, skip: string -> bool)
    requires Proper(x) && forall k :: 0 <= k < |kept| ==> Proper(kept[k])
    ensures Found(START, AllTokens([x] + kept))
         == Found(START, Read(x)) + (if kept == [] then {} else Trailing(x)) + Found(START, AllTokens(kept))
  {
    assert ([x] + kept)[1..] == kept;
    SectionSpots(x, START);
    if kept != [] {
      var q := Scan(START, Read(x + "\n"));
      ScanConcat(START, Read(x + "\n"), AllTokens(kept));
      ListStandsAlone(kept, q);
    }
  }

  lemma {:induction false} ListStandsAlone(sections: seq<string>, p: Pos)
    requires forall k :: 0 <= k < |sections| ==> Proper(sections[k])
    ensures Found(p, AllTokens(sections)) == Found(START, AllTokens(sections))
    decreases |sections|
  {
    if sections != [] {
      var x, rest := sections[0], sections[1..];
      SectionSpots(x, p);
      SectionSpots(x, START);
      if rest != [] {
        ScanConcat(p, Read(x + "\n"), AllTokens(rest));
        ScanConcat(START, Read(x + "\n"), AllTokens(rest));
        ListStandsAlone(rest, Scan(p, Read(x + "\n")));
        ListStandsAlone(rest, Scan(START, Read(x + "\n")));
      }
    }
  }

  // ---- Whole diffs ----------------------------------------------------------------

  /** The sections that start with a file header. */
  function HeadedSections(diff: string): seq<string> {
    if StartsWith(Sections(diff)[0], FILE_HEADER) then Sections(diff) else Sections(diff)[1..]
  }

  lemma SectionsAreProper(diff: string)
    requires NewlineOnly(diff)
    ensures Uncut(Sections(diff)[0])
    ensures forall k :: 1 <= k < |Sections(diff)| ==> Proper(Sections(diff)[k])
    ensures forall k :: 0 <= k < |HeadedSections(diff)| ==> Proper(HeadedSections(diff)[k])
  {
    PiecesAreUncut(diff);
    SectionAt(diff, 0);
    forall k | 1 <= k < |Sections(diff)|
      ensures Proper(Sections(diff)[k])
    {
      SectionAt(diff, k);
      HeaderedIsUncut(SplitOn(diff, SECTION_BREAK)[k]);
    }
  }

  lemma PrefixOccurs(s: string, n: nat, word: string, i: nat)
    requires n <= |s|
    ensures OccursAt(s[..n], word, i) ==> OccursAt(s, word, i)
    ensures OccursAt(s[..n], word, 0) <==> StartsWith(s[..n], word)
    ensures OccursAt(s, word, 0) <==> StartsWith(s, word)
  {
    assert i + |word| <= n ==> s[..n][i..i + |word|] == s[i..i + |word|];
  }

  lemma {:induction false} StrippedIsUncut(s: string)
    requires Uncut(s) && !StartsWith(s, FILE_HEADER)
    ensures Uncut(StripNewlines(s)) && !StartsWith(StripNewlines(s), FILE_HEADER)
    decreases |s|
  {
    if EndsInNewline(s) {
      var r := s[..|s| - 1];
      forall i: nat
        ensures !OccursAt(r, SECTION_BREAK, i)
      {
        PrefixOccurs(s, |s| - 1, SECTION_BREAK, i);
      }
      PrefixOccurs(s, |s| - 1, FILE_HEADER, 0);
      NewlineOnlyBefore(s, |s| - 1);
      StrippedIsUncut(r);
    }
  }

  /** A preamble finds nothing and leaves the scanner at its start. */
  lemma PreambleIsSilent(preamble: string, body: string)
    requires Uncut(preamble) && !StartsWith(preamble, FILE_HEADER)
    ensures Found(START, Read(preamble)) == {}
    ensures Found(START, Read(preamble + "\n" + body)) == Found(START, Read(body))
  {
    PreambleReads(preamble);
    NoHeaderKeepsFile(START, Read(preamble));
    var closed := preamble + "\n";
    SplitAfterNewline(closed, body);
    TokensConcat(SplitLines(closed), SplitLines(body));
    ScanConcat(START, Read(closed), Read(body));
    if preamble == "" {
      assert closed == "\n";
      LineUpToBreak([], [], '\n', []);
      assert SplitLines(closed) == [""];
      FirstCharDiffers("", FILE_HEADER);
    } else {
      ReadClosed(preamble);
    }
    assert NoHeader(Read(closed));
    NoHeaderKeepsFile(START, Read(closed));
  }

  /** The spots of a diff are the spots of its headed sections. */
  lemma DiffReadsSections(diff: string)
    requires NewlineOnly(diff)
    ensures DiffSpots(diff) == Found(START, AllTokens(HeadedSections(diff)))
  {
    var sections := Sections(diff);
    SectionsRoundTrip(diff);
    SectionsAreProper(diff);
    JoinedReads(HeadedSections(diff));
    if !StartsWith(sections[0], FILE_HEADER) {
      assert sections == [sections[0]] + sections[1..];
      JoinCons(sections[0], sections[1..]);
      var rest := JoinLines(sections[1..]);
      PreambleIsSilent(sections[0], rest);
      Associate(sections[0], "\n", rest);
      assert sections[0] + "" == sections[0];
    }
  }

  /** The spots of the filtered diff are those of the kept sections. */
  lemma FilteredReadsKept(diff: string, skip: string -> bool)
    requires NewlineOnly(diff)
    ensures DiffSpots(Filtered(diff, skip)) == Found(START, AllTokens(Kept(HeadedSections(diff), skip)))
  {
    var sections, kept := Sections(diff), Kept(HeadedSections(diff), skip);
    SectionsAreProper(diff);
    JoinedReads(kept);
    var body := JoinLines(kept);
    if diff == "" {
      assert SplitOn(diff, SECTION_BREAK) == [diff];
      assert sections == [""] && kept == [];
    } else if !StartsWith(sections[0], FILE_HEADER) {
      StrippedIsUncut(sections[0]);
      PreambleIsSilent(StripNewlines(sections[0]), body);
      PreambleIsSilent(sections[0], body);
    }
  }

  /** Filtering and reading commute, up to one line: for every diff whose line breaks are
      newlines and every predicate on paths, reading the whole diff and dropping the skipped
      files gives what reading the filtered diff gives, plus the lost spot if there is one. */
  lemma FilteringCommutesUpToLost(diff: string, skip: string -> bool)
    requires NewlineOnly(diff)
    ensures Unskipped(DiffSpots(diff), skip) == DiffSpots(Filtered(diff, skip)) + Lost(HeadedSections(diff), skip)
  {
    DiffReadsSections(diff);
    FilteredReadsKept(diff, skip);
    SectionsAreProper(diff);
    SectionsCommute(HeadedSections(diff), skip, START);
  }

  /** No section but the last ends in an empty line. */
  predicate NoEmptyEndings(sections: seq<string>) {
    forall k :: 0 <= k < |sections| - 1 ==> !EndsLine(sections[k])
  }

  lemma {:induction false} NoEmptyEndingsLoseNothing(sections: seq<string>, skip: string -> bool)
    requires NoEmptyEndings(sections)
    ensures Lost(sections, skip) == {}
  {
    if sections != [] {
      assert NoEmptyEndings(sections[1..]);
      NoEmptyEndingsLoseNothing(sections[1..], skip);
    }
  }

  /** So filtering commutes with reading when no section but the last ends in an empty line. */
  lemma FilteringCommutes(diff: string, skip: string -> bool)
    requires NewlineOnly(diff) && NoEmptyEndings(HeadedSections(diff))
    ensures Unskipped(DiffSpots(diff), skip) == DiffSpots(Filtered(diff, skip))
  {
    FilteringCommutesUpToLost(diff, skip);
    NoEmptyEndingsLoseNothing(HeadedSections(diff), skip);
  }
}
