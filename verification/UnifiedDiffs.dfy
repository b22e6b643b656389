/** Reading a unified diff (`extract_diff_new_lines`, `_partition_findings`): which lines of
    the new files a review comment may be attached to. Unified format as in POSIX.1-2008,
    `diff` utility, "Diff -u or -U Output Format", with git's `diff --git` headers. */
module UnifiedDiffs {
  import opened Prelude
  import opened Text
  import opened Reviews
  import opened FileHeaders

  // ---- The line scanner -----------------------------------------------------------

  /** Skip an optional count, a comma and digits. */
  function AfterCount(s: string): string {
    if StartsWith(s, ",") && Digits(s[1..]) > 0 then s[1 + Digits(s[1..])..] else s
  }

  /** A line number, or a number and a count: what follows it, if it is there. */
  function AfterRange(s: string): Option<string> {
    if Digits(s) == 0 then None else Some(AfterCount(s[Digits(s)..]))
  }

  /** The new-side start of a hunk header, "@@ -a[,b] +c[,d] @@" and anything after it. */
  function HunkStart(line: string): Option<nat> {
    if !StartsWith(line, "@@ -") then None
    else
      var afterOld := AfterRange(line[4..]);
      if afterOld.None? || !StartsWith(afterOld.value, " +") then None
      else
        var newRange := afterOld.value[2..];
        var afterNew := AfterRange(newRange);
        if afterNew.None? || !StartsWith(afterNew.value, " @@") then None
        else Some(ValueOf(newRange[..Digits(newRange)]))
  }

  /** Inside a hunk a line counts as new-side text unless it is a removal, a
      no-newline marker, or looks like a file marker. */
  predicate OnNewSide(line: string) {
    && !StartsWith(line, "+++") && !StartsWith(line, "---")
    && (StartsWith(line, "+") || (!StartsWith(line, "-") && !StartsWith(line, "\\")))
  }

  /** What a line is to the scanner. */
  datatype Token = FileHeader(file: Option<string>) | HunkHeader(start: Option<nat>) | NewText | Ignored

  function Tokenize(line: string): Token {
    if StartsWith(line, FILE_HEADER) then FileHeader(TargetPath(line))
    else if StartsWith(line, "@@") then HunkHeader(HunkStart(line))
    else if OnNewSide(line) then NewText
    else Ignored
  }

  function Tokens(lines: seq<string>): (r: seq<Token>)
    ensures |r| == |lines|
  {
    if lines == [] then [] else [Tokenize(lines[0])] + Tokens(lines[1..])
  }

  lemma {:induction false} TokensConcat(a: seq<string>, b: seq<string>)
    ensures Tokens(a + b) == Tokens(a) + Tokens(b)
  {
    if a == [] {
      assert a + b == b;
    } else {
      assert (a + b)[1..] == a[1..] + b;
      TokensConcat(a[1..], b);
    }
  }

  /** Where the scanner is: outside any hunk, with the current file if its header named one,
      or inside a hunk at a line of the new file. */
  datatype Pos = Outside(file: Option<string>) | Inside(path: string, next: nat)

  const START := Outside(None)

  function FileAt(p: Pos): Option<string> {
    if p.Outside? then p.file else Some(p.path)
  }

  /** A line of a file, by path and number. */
  datatype Spot = Spot(path: string, line: nat)

  function StepPos(p: Pos, t: Token): Pos {
    match t
    case FileHeader(file) => Outside(file)
    case HunkHeader(start) =>
      if start.Some? && FileAt(p).Some? then Inside(FileAt(p).value, start.value) else Outside(FileAt(p))
    case NewText => if p.Inside? then p.(next := p.next + 1) else p
    case Ignored => p
  }

  /** The spot a line of the diff makes commentable. */
  function Commentable(p: Pos, t: Token): set<Spot> {
    if t.NewText? && p.Inside? then {Spot(p.path, p.next)} else {}
  }

  function Scan(p: Pos, tokens: seq<Token>): Pos
    decreases |tokens|
  {
    if tokens == [] then p else Scan(StepPos(p, tokens[0]), tokens[1..])
  }

  /** All the spots that a stretch of the diff makes commentable. */
  function Found(p: Pos, tokens: seq<Token>): set<Spot>
    decreases |tokens|
  {
    if tokens == [] then {} else Commentable(p, tokens[0]) + Found(StepPos(p, tokens[0]), tokens[1..])
  }

  lemma {:induction false} ScanConcat(p: Pos, a: seq<Token>, b: seq<Token>)
    ensures Scan(p, a + b) == Scan(Scan(p, a), b)
    ensures Found(p, a + b) == Found(p, a) + Found(Scan(p, a), b)
    decreases |a|
  {
    if a == [] {
      assert a + b == b;
    } else {
      assert (a + b)[1..] == a[1..] + b;
      ScanConcat(StepPos(p, a[0]), a[1..], b);
    }
  }

  lemma OneToken(p: Pos, t: Token)
    ensures Found(p, [t]) == Commentable(p, t) && Scan(p, [t]) == StepPos(p, t)
  {
    assert [t][1..] == [];
  }

  /** The spots a diff makes commentable. */
  function DiffSpots(diff: string): set<Spot> {
    Found(START, Tokens(SplitLines(diff)))
  }

  ghost predicate Represents(result: map<string, set<nat>>, spots: set<Spot>) {
    && (forall path, n :: Spot(path, n) in spots <==> path in result && n in result[path])
    && (forall path :: path in result ==> result[path] != {})
  }

  function AddLine(result: map<string, set<nat>>, path: string, n: nat): map<string, set<nat>> {
    result[path := (if path in result then result[path] else {}) + {n}]
  }

  /** The scanner's three variables stand for a position. */
  predicate StandsFor(file: Option<string>, next: nat, inHunk: bool, p: Pos) {
    if inHunk then file.Some? && p == Inside(file.value, next) else p == Outside(file)
  }

  lemma ReadOneMore(lines: seq<string>, i: nat)
    requires i < |lines|
    ensures var before, t := Tokens(lines[..i]), Tokenize(lines[i]);
            && Scan(START, Tokens(lines[..i + 1])) == StepPos(Scan(START, before), t)
            && Found(START, Tokens(lines[..i + 1])) == Found(START, before) + Commentable(Scan(START, before), t)
  {
    assert lines[..i + 1] == lines[..i] + [lines[i]];
    TokensConcat(lines[..i], [lines[i]]);
    ScanConcat(START, Tokens(lines[..i]), Tokens([lines[i]]));
    assert Tokens([lines[i]]) == [Tokenize(lines[i])];
    OneToken(Scan(START, Tokens(lines[..i])), Tokenize(lines[i]));
  }

  lemma AddedRepresents(result: map<string, set<nat>>, spots: set<Spot>, path: string, n: nat)
    requires Represents(result, spots)
    ensures Represents(AddLine(result, path, n), spots + {Spot(path, n)})
  {
  }

  /** The dictionary after a line. */
  function Extended(result: map<string, set<nat>>, pos: Pos, t: Token): map<string, set<nat>> {
    if t.NewText? && pos.Inside? then AddLine(result, pos.path, pos.next) else result
  }

  lemma ExtendedRepresents(result: map<string, set<nat>>, spots: set<Spot>, pos: Pos, t: Token)
    requires Represents(result, spots)
    ensures Represents(Extended(result, pos, t), spots + Commentable(pos, t))
  {
    if t.NewText? && pos.Inside? {
      AddedRepresents(result, spots, pos.path, pos.next);
    } else {
      assert spots + {} == spots;
    }
  }

  /** The part of the loop's body that deals with a line inside a hunk. */
  method ReadHunkLine(line: string, file: string, next: nat, result: map<string, set<nat>>)
    returns (next': nat, result': map<string, set<nat>>)
    ensures next' == if OnNewSide(line) then next + 1 else next
    ensures result' == if OnNewSide(line) then AddLine(result, file, next) else result
  {
    next', result' := next, result;
    if StartsWith(line, "+++") || StartsWith(line, "---") {
      return;
    }
    if StartsWith(line, "+") {
      return next + 1, AddLine(result, file, next);
    } else if StartsWith(line, "-") {
      return;
    } else if StartsWith(line, "\\") {
      return;
    } else {
      return next + 1, AddLine(result, file, next);
    }
  }

  /** The body of the scanner's loop. */
  method ReadLine(line: string, file: Option<string>, next: nat, inHunk: bool,
                  result: map<string, set<nat>>,
                  ghost pos: Pos)
    returns (file': Option<string>, next': nat, inHunk': bool, result': map<string, set<nat>>)
    requires StandsFor(file, next, inHunk, pos)
    ensures StandsFor(file', next', inHunk', StepPos(pos, Tokenize(line)))
    ensures result' == Extended(result, pos, Tokenize(line))
  {
    file', next', inHunk', result' := file, next, inHunk, result;
    if StartsWith(line, FILE_HEADER) {
      return TargetPath(line), next, false, result;
    }
    if StartsWith(line, "@@") {
      var start := HunkStart(line);
      if start.Some? && file.Some? {
        return file, start.value, true, result;
      }
      return file, next, false, result;
    }
    if !inHunk || file.None? {
      return;
    }
    next', result' := ReadHunkLine(line, file.value, next, result);
  }

  /** `extract_diff_new_lines`. */
  method ExtractDiffNewLines(diff: string) returns (result: map<string, set<nat>>)
    ensures Represents(result, DiffSpots(diff))
  {
    result := map[];
    var currentFile: Option<string> := None;
    var currentNewLine := 0;
    var inHunk := false;
    var lines := SplitLines(diff);
    ghost var pos, spots := START, {};
    assert lines[..0] == [];
    for i := 0 to |lines|
      invariant pos == Scan(START, Tokens(lines[..i])) && spots == Found(START, Tokens(lines[..i]))
      invariant StandsFor(currentFile, currentNewLine, inHunk, pos) && Represents(result, spots)
    {
      ReadOneMore(lines, i);
      ExtendedRepresents(result, spots, pos, Tokenize(lines[i]));
      currentFile, currentNewLine, inHunk, result :=
        ReadLine(lines[i], currentFile, currentNewLine, inHunk, result, pos);
      pos, spots := StepPos(pos, Tokenize(lines[i])), spots + Commentable(pos, Tokenize(lines[i]));
    }
    assert lines[..|lines|] == lines;
  }

  // ---- Partitioning findings ------------------------------------------------------

  function SeverityLabel(s: Severity): string {
    match s
    case Critical => "CRITICAL"
    case High => "HIGH"
    case Medium => "MEDIUM"
    case Low => "LOW"
    case Info => "INFO"
  }

  /** The body of the comment that carries a finding. */
  function CommentBody(f: Finding): string {
    "**[" + SeverityLabel(f.severity) + "]** " + f.body
  }

  datatype InlineComment = InlineComment(path: string, line: int, body: string)

  function CommentFor(f: Finding): InlineComment {
    InlineComment(f.file, f.line, CommentBody(f))
  }

  /** What stands in front of the text of each finding. */
  function Tag(s: Severity): string {
    match s
    case Critical => "**[CRITICAL]** "
    case High => "**[HIGH]** "
    case Medium => "**[MEDIUM]** "
    case Low => "**[LOW]** "
    case Info => "**[INFO]** "
  }

  /** A comment shows where the finding is, how severe, and what it says. */
  lemma CommentTold(f: Finding)
    ensures CommentFor(f) == InlineComment(f.file, f.line, Tag(f.severity) + f.body)
  {
    TagTold(f.severity);
    assert CommentBody(f) == "**[" + SeverityLabel(f.severity) + "]** " + f.body;
  }

  lemma TagTold(s: Severity)
    ensures Tag(s) == "**[" + SeverityLabel(s) + "]** "
  {
    match s
    case Critical =>
    case High =>
    case Medium =>
    case Low =>
    case Info =>
  }

  /** Two findings have one comment text exactly when severity and body agree. */
  lemma CommentsTellApart(f: Finding, g: Finding)
    ensures CommentBody(f) == CommentBody(g) <==> f.severity == g.severity && f.body == g.body
  {
    CommentTold(f);
    CommentTold(g);
    var a, b := CommentBody(f), CommentBody(g);
    if a == b {
      assert a[3] == Tag(f.severity)[3] && b[3] == Tag(g.severity)[3];
      assert a[|Tag(f.severity)|..] == f.body && b[|Tag(g.severity)|..] == g.body;
    }
  }

  predicate Inlineable(f: Finding, spots: set<Spot>) {
    f.line >= 0 && Spot(f.file, f.line) in spots
  }

  function Placed(spots: set<Spot>, inline: bool): Finding -> bool {
    f => Inlineable(f, spots) == inline
  }

  function Where(findings: seq<Finding>, spots: set<Spot>, inline: bool): seq<Finding> {
    Filter(findings, Placed(spots, inline))
  }

  /** No finding is lost or duplicated. */
  lemma {:induction false} WhereSplits(findings: seq<Finding>, spots: set<Spot>)
    ensures multiset(Where(findings, spots, true)) + multiset(Where(findings, spots, false)) == multiset(findings)
    ensures forall f :: f in Where(findings, spots, true) ==> Inlineable(f, spots)
    ensures forall f :: f in Where(findings, spots, false) ==> !Inlineable(f, spots)
  {
    if findings != [] {
      WhereSplits(findings[1..], spots);
      assert findings == [findings[0]] + findings[1..];
    }
  }

  /** A finding becomes an inline comment exactly when its line is in the diff, and stays
      behind otherwise. */
  lemma PlacedExactly(findings: seq<Finding>, spots: set<Spot>, f: Finding)
    ensures f in Where(findings, spots, true) <==> f in findings && f.line >= 0 && Spot(f.file, f.line) in spots
    ensures f in Where(findings, spots, false) <==> f in findings && !(f.line >= 0 && Spot(f.file, f.line) in spots)
  {
    assert Placed(spots, true)(f) <==> Inlineable(f, spots);
    assert Placed(spots, false)(f) <==> !Inlineable(f, spots);
  }

  function Comments(findings: seq<Finding>): (r: seq<InlineComment>)
    ensures |r| == |findings| && forall i :: 0 <= i < |r| ==> r[i] == CommentFor(findings[i])
  {
    seq(|findings|, i requires 0 <= i < |findings| => CommentFor(findings[i]))
  }

  lemma CommentsAppend(a: seq<Finding>, f: Finding)
    ensures Comments(a + [f]) == Comments(a) + [CommentFor(f)]
  {
  }

  /** `_partition_findings`: the inline comments, in order, for the findings on commentable
      lines, and the others, in order, for the review body. */
  method PartitionFindings(findings: seq<Finding>, validLines: map<string, set<nat>>,
                           ghost spots: set<Spot>)
    returns (inline: seq<InlineComment>, orphans: seq<Finding>)
    requires Represents(validLines, spots)
    ensures inline == Comments(Where(findings, spots, true))
    ensures orphans == Where(findings, spots, false)
    ensures multiset(Where(findings, spots, true)) + multiset(orphans) == multiset(findings)
    ensures forall c :: c in inline ==> c.line >= 0 && Spot(c.path, c.line) in spots
  {
    inline, orphans := [], [];
    for k := 0 to |findings|
      invariant orphans == Where(findings[..k], spots, false)
      invariant inline == Comments(Where(findings[..k], spots, true))
    {
      var f := findings[k];
      assert findings[..k + 1] == findings[..k] + [f];
      FilterAppend(findings[..k], f, Placed(spots, true));
      FilterAppend(findings[..k], f, Placed(spots, false));
      CommentsAppend(Where(findings[..k], spots, true), f);
      var allowed := if f.file in validLines then validLines[f.file] else {};
      if f.line >= 0 && f.line in allowed {
        inline := inline + [CommentFor(f)];
      } else {
        orphans := orphans + [f];
      }
    }
    assert findings[..|findings|] == findings;
    WhereSplits(findings, spots);
    InlineOnSpots(findings, spots);
  }

  lemma InlineOnSpots(findings: seq<Finding>, spots: set<Spot>)
    ensures forall c :: c in Comments(Where(findings, spots, true)) ==> c.line >= 0 && Spot(c.path, c.line) in spots
  {
    var kept := Where(findings, spots, true);
    forall c | c in Comments(kept)
      ensures c.line >= 0 && Spot(c.path, c.line) in spots
    {
      var i :| 0 <= i < |kept| && Comments(kept)[i] == c;
      assert kept[i] in kept;
    }
  }

  // ---- What the spots mean --------------------------------------------------------

  /** A line of a hunk. `Blank` is an empty context line whose leading space was trimmed. */
  datatype BodyLine = Context(text: string) | Added(text: string) | Removed(text: string) | Blank | NoNewline

  /** A hunk: its header line, the two start numbers the header states, and its lines. */
  datatype Hunk = Hunk(header: string, oldStart: nat, newStart: nat, body: seq<BodyLine>)

  /** One file's section: the header line, the lines before the first hunk, the hunks. */
  datatype FilePatch = FilePatch(header: string, meta: seq<string>, hunks: seq<Hunk>)

  function RenderLine(b: BodyLine): string {
    match b
    case Context(t) => " " + t
    case Added(t) => "+" + t
    case Removed(t) => "-" + t
    case Blank => ""
    case NoNewline => "\\ No newline at end of file"
  }

  function RenderRange(start: nat, count: Option<nat>): string {
    Decimal(start) + (if count.Some? then "," + Decimal(count.value) else "")
  }

  /** A hunk header; the counts are optional and anything may follow. */
  function FormatHunkHeader(oldStart: nat, oldCount: Option<nat>, newStart: nat, newCount: Option<nat>,
                            tail: string): string
  {
    "@@ -" + RenderRange(oldStart, oldCount) + " +" + RenderRange(newStart, newCount) + " @@" + tail
  }

  function RenderBody(body: seq<BodyLine>): seq<string> {
    if body == [] then [] else [RenderLine(body[0])] + RenderBody(body[1..])
  }

  function RenderHunks(hunks: seq<Hunk>): seq<string> {
    if hunks == [] then []
    else [hunks[0].header] + RenderBody(hunks[0].body) + RenderHunks(hunks[1..])
  }

  function RenderFile(f: FilePatch): seq<string> {
    [f.header] + f.meta + RenderHunks(f.hunks)
  }

  function RenderPatch(files: seq<FilePatch>): seq<string> {
    if files == [] then [] else RenderFile(files[0]) + RenderPatch(files[1..])
  }

  /** The new side of a hunk, and the old side. */
  function NewSide(body: seq<BodyLine>): seq<string> {
    if body == [] then []
    else
      (match body[0]
       case Context(t) => [t]
       case Added(t) => [t]
       case Blank => [""]
       case _ => []) + NewSide(body[1..])
  }

  function OldSide(body: seq<BodyLine>): seq<string> {
    if body == [] then []
    else
      (match body[0]
       case Context(t) => [t]
       case Removed(t) => [t]
       case Blank => [""]
       case _ => []) + OldSide(body[1..])
  }

  /** An added line whose text begins with "++" renders like a file marker. */
  predicate Masked(b: BodyLine) {
    b.Added? && StartsWith(b.text, "++")
  }

  function MaskedCount(body: seq<BodyLine>): nat {
    if body == [] then 0 else (if Masked(body[0]) then 1 else 0) + MaskedCount(body[1..])
  }

  /** `len` consecutive lines of a file. */
  function Run(path: string, from: nat, len: nat): (s: set<Spot>)
    ensures forall x :: x in s <==> x.path == path && from <= x.line < from + len
    decreases len
  {
    if len == 0 then {} else {Spot(path, from)} + Run(path, from + 1, len - 1)
  }

  lemma NumberReads(n: nat, rest: string, s: string)
    requires s == Decimal(n) + rest && (rest == [] || !IsDigit(rest[0]))
    ensures Digits(s) == |Decimal(n)| && s[..Digits(s)] == Decimal(n) && s[Digits(s)..] == rest
  {
    DigitsOf(Decimal(n), rest);
  }

  lemma CountReads(number: string, rest: string, s: string)
    requires number != [] && AllDigits(number)
    requires rest == [] || !IsDigit(rest[0])
    requires s == "," + (number + rest)
    ensures AfterCount(s) == rest
  {
    DigitsOf(number, rest);
    assert s[1..] == number + rest && s[..1] == ",";
    assert s[1 + |number|..] == rest;
  }

  lemma AfterRangeReads(start: nat, count: Option<nat>, rest: string, s: string)
    requires s == RenderRange(start, count) + rest
    requires rest != [] && !IsDigit(rest[0]) && rest[0] != ','
    ensures AfterRange(s) == Some(rest)
    ensures Digits(s) == |Decimal(start)| && s[..Digits(s)] == Decimal(start)
  {
    if count.None? {
      assert s == Decimal(start) + rest;
      NumberReads(start, rest, s);
      FirstCharDiffers(rest, ",");
    } else {
      var number := Decimal(count.value);
      var counted := "," + (number + rest);
      assert s == Decimal(start) + counted;
      NumberReads(start, counted, s);
      CountReads(number, rest, counted);
    }
  }

  /** Hunk headers round-trip: the new-side start is read back. */
  lemma HunkHeaderRoundTrip(oldStart: nat, oldCount: Option<nat>, newStart: nat, newCount: Option<nat>,
                            tail: string)
    ensures var line := FormatHunkHeader(oldStart, oldCount, newStart, newCount, tail);
            HunkStart(line) == Some(newStart) && StartsWith(line, "@@") && !StartsWith(line, FILE_HEADER)
  {
    var line := FormatHunkHeader(oldStart, oldCount, newStart, newCount, tail);
    var afterNew := " @@" + tail;
    var newRange := RenderRange(newStart, newCount) + afterNew;
    var afterOld := " +" + newRange;
    var ranges := RenderRange(oldStart, oldCount) + afterOld;
    AfterRangeReads(newStart, newCount, afterNew, newRange);
    AfterRangeReads(oldStart, oldCount, afterOld, ranges);
    DecimalRoundTrip(newStart);
    HeaderShape(RenderRange(oldStart, oldCount), RenderRange(newStart, newCount), tail);
    HeaderReads(line, ranges, afterOld, newRange, afterNew);
  }

  lemma HeaderShape(o: string, n: string, tail: string)
    ensures "@@ -" + o + " +" + n + " @@" + tail == "@@ -" + (o + (" +" + (n + (" @@" + tail))))
  {
  }

  lemma HeaderReads(line: string, ranges: string, afterOld: string, newRange: string, tail: string)
    requires line == "@@ -" + ranges && AfterRange(ranges) == Some(afterOld)
    requires afterOld == " +" + newRange && AfterRange(newRange) == Some(tail) && StartsWith(tail, " @@")
    ensures HunkStart(line) == Some(ValueOf(newRange[..Digits(newRange)]))
    ensures StartsWith(line, "@@") && !StartsWith(line, FILE_HEADER)
  {
    assert line[4..] == ranges && line[..4] == "@@ -" && line[..2] == "@@";
    assert afterOld[2..] == newRange && afterOld[..2] == " +";
    FirstCharDiffers(line, FILE_HEADER);
  }

  predicate NewSideLine(b: BodyLine) {
    b.Context? || b.Added? || b.Blank?
  }

  /** How the scanner reads a line of a hunk body. */
  function BodyToken(b: BodyLine): Token {
    if NewSideLine(b) && !Masked(b) then NewText else Ignored
  }

  function BodyTokens(body: seq<BodyLine>): seq<Token> {
    if body == [] then [] else [BodyToken(body[0])] + BodyTokens(body[1..])
  }

  /** The line opens neither a section nor a hunk. */
  predicate OpensNothing(line: string) {
    !StartsWith(line, FILE_HEADER) && !StartsWith(line, "@@")
  }

  lemma BodyLineReads(b: BodyLine)
    ensures Tokenize(RenderLine(b)) == BodyToken(b) && OpensNothing(RenderLine(b))
  {
    var line := RenderLine(b);
    FirstCharDiffers(line, FILE_HEADER);
    FirstCharDiffers(line, "@@");
    if line == [] || line[0] != '+' {
      FirstCharDiffers(line, "+++");
      FirstCharDiffers(line, "+");
    }
    if line == [] || line[0] != '-' {
      FirstCharDiffers(line, "---");
      FirstCharDiffers(line, "-");
    }
    if line == [] || line[0] != '\\' {
      FirstCharDiffers(line, "\\");
    }
    if line != [] {
      assert line[..1] == [line[0]];
    }
    if b.Added? {
      AddedReads(b.text, line);
    }
  }

  lemma AddedReads(text: string, line: string)
    requires line == "+" + text
    ensures StartsWith(line, "+++") <==> StartsWith(text, "++")
  {
    if |text| >= 2 {
      assert line[..3] == "+" + text[..2];
      assert "+++" == "+" + "++";
      assert line[..3][1..] == text[..2] && "+++"[1..] == "++";
    }
  }

  lemma {:induction false} BodyReads(body: seq<BodyLine>)
    ensures Tokens(RenderBody(body)) == BodyTokens(body)
  {
    if body != [] {
      BodyLineReads(body[0]);
      BodyReads(body[1..]);
      assert RenderBody(body)[1..] == RenderBody(body[1..]);
    }
  }

  /** A hunk body makes consecutive lines commentable, as many as it has new-side lines
      that are not masked. */
  lemma {:induction false} BodyFound(path: string, n: nat, body: seq<BodyLine>)
    ensures MaskedCount(body) <= |NewSide(body)|
    ensures Found(Inside(path, n), BodyTokens(body)) == Run(path, n, |NewSide(body)| - MaskedCount(body))
    ensures Scan(Inside(path, n), BodyTokens(body)) == Inside(path, n + |NewSide(body)| - MaskedCount(body))
    decreases |body|
  {
    if body != [] {
      BodyFound(path, if BodyToken(body[0]) == NewText then n + 1 else n, body[1..]);
      assert BodyTokens(body)[1..] == BodyTokens(body[1..]);
    }
  }

  /** The new-side lines the hunks cover, and those the scanner records. */
  function Covered(path: string, hunks: seq<Hunk>): set<Spot> {
    if hunks == [] then {} else Run(path, hunks[0].newStart, |NewSide(hunks[0].body)|) + Covered(path, hunks[1..])
  }

  function Recorded(path: string, hunks: seq<Hunk>): set<Spot> {
    if hunks == [] then {}
    else
      BodyFound(path, hunks[0].newStart, hunks[0].body);
      Run(path, hunks[0].newStart, |NewSide(hunks[0].body)| - MaskedCount(hunks[0].body)) + Recorded(path, hunks[1..])
  }

  /** The header states the start numbers. */
  ghost predicate HeaderStates(h: Hunk) {
    exists oldCount, newCount, tail :: h.header == FormatHunkHeader(h.oldStart, oldCount, h.newStart, newCount, tail)
  }

  lemma StatedHeadersReadBack(h: Hunk)
    requires HeaderStates(h)
    ensures Tokenize(h.header) == HunkHeader(Some(h.newStart))
  {
    var oldCount, newCount, tail :| h.header == FormatHunkHeader(h.oldStart, oldCount, h.newStart, newCount, tail);
    HunkHeaderRoundTrip(h.oldStart, oldCount, h.newStart, newCount, tail);
  }

  function HunkTokens(hunks: seq<Hunk>): seq<Token> {
    if hunks == [] then []
    else [HunkHeader(Some(hunks[0].newStart))] + BodyTokens(hunks[0].body) + HunkTokens(hunks[1..])
  }

  lemma {:induction false} HunksRead(hunks: seq<Hunk>)
    requires forall h :: h in hunks ==> HeaderStates(h)
    ensures Tokens(RenderHunks(hunks)) == HunkTokens(hunks)
  {
    if hunks != [] {
      var h := hunks[0];
      assert HeaderStates(h);
      StatedHeadersReadBack(h);
      BodyReads(h.body);
      HunksRead(hunks[1..]);
      TokensConcat([h.header], RenderBody(h.body));
      TokensConcat([h.header] + RenderBody(h.body), RenderHunks(hunks[1..]));
    }
  }

  lemma {:induction false} HunksFound(p: Pos, path: string, hunks: seq<Hunk>)
    requires FileAt(p) == Some(path)
    ensures Found(p, HunkTokens(hunks)) == Recorded(path, hunks)
    decreases |hunks|
  {
    if hunks != [] {
      var h := hunks[0];
      var t := HunkHeader(Some(h.newStart));
      OneToken(p, t);
      BodyFound(path, h.newStart, h.body);
      ScanConcat(p, [t], BodyTokens(h.body));
      ScanConcat(p, [t] + BodyTokens(h.body), HunkTokens(hunks[1..]));
      HunksFound(Scan(p, [t] + BodyTokens(h.body)), path, hunks[1..]);
    }
  }

  /** A section whose header names `path`, whose lines before the hunks are neither headers
      nor hunk headers, and whose hunk headers state where the hunks start. */
  ghost predicate WellFormed(f: FilePatch, path: string) {
    && StartsWith(f.header, FILE_HEADER) && TargetPath(f.header) == Some(path)
    && (forall m :: m in f.meta ==> OpensNothing(m))
    && (forall h :: h in f.hunks ==> HeaderStates(h))
  }

  predicate Silent(tokens: seq<Token>) {
    forall t :: t in tokens ==> t == NewText || t == Ignored
  }

  lemma {:induction false} MetaIsSilent(file: Option<string>, tokens: seq<Token>)
    requires Silent(tokens)
    ensures Found(Outside(file), tokens) == {} && Scan(Outside(file), tokens) == Outside(file)
  {
    if tokens != [] {
      assert tokens[0] in tokens;
      assert forall t :: t in tokens[1..] ==> t in tokens;
      MetaIsSilent(file, tokens[1..]);
    }
  }

  lemma {:induction false} TokensAre(lines: seq<string>)
    requires forall m :: m in lines ==> OpensNothing(m)
    ensures Silent(Tokens(lines))
  {
    if lines != [] {
      assert lines[0] in lines;
      TokensAre(lines[1..]);
    }
  }

  /** Whatever came before it, a section records its own lines and no others. */
  lemma FileFound(p: Pos, f: FilePatch, path: string)
    requires WellFormed(f, path)
    ensures Found(p, Tokens(RenderFile(f))) == Recorded(path, f.hunks)
  {
    TokensConcat([f.header], f.meta);
    TokensConcat([f.header] + f.meta, RenderHunks(f.hunks));
    TokensAre(f.meta);
    HunksRead(f.hunks);
    assert Tokens([f.header]) == [FileHeader(Some(path))];
    SectionFound(p, path, Tokens(f.meta), f.hunks);
  }

  lemma SectionFound(p: Pos, path: string, meta: seq<Token>, hunks: seq<Hunk>)
    requires Silent(meta)
    ensures Found(p, [FileHeader(Some(path))] + meta + HunkTokens(hunks)) == Recorded(path, hunks)
  {
    var t := FileHeader(Some(path));
    OneToken(p, t);
    MetaIsSilent(Some(path), meta);
    ScanConcat(p, [t], meta);
    ScanConcat(p, [t] + meta, HunkTokens(hunks));
    HunksFound(Outside(Some(path)), path, hunks);
  }

  // ---- Hunks that turn one file into another --------------------------------------

  /** The 0-based index at which a side of a hunk begins. A side without lines is numbered by
      the line before it. */
  function Begin(start: nat, side: seq<string>): int {
    if side == [] then start else start - 1
  }

  /** The hunks turn the lines of `before` from index `i` on into those of `after` from `j` on:
      what lies between hunks is unchanged, and each hunk replaces its old side by its new. */
  predicate Turns(before: seq<string>, after: seq<string>, hunks: seq<Hunk>, i: nat, j: nat)
    decreases |hunks|
  {
    && i <= |before| && j <= |after|
    && if hunks == [] then before[i..] == after[j..]
       else
         var h := hunks[0];
         var gone, come := OldSide(h.body), NewSide(h.body);
         var oi, nj := Begin(h.oldStart, gone), Begin(h.newStart, come);
         && i <= oi && j <= nj && oi - i == nj - j
         && oi + |gone| <= |before| && nj + |come| <= |after|
         && before[i..oi] == after[j..nj]
         && before[oi..oi + |gone|] == gone && after[nj..nj + |come|] == come
         && Turns(before, after, hunks[1..], oi + |gone|, nj + |come|)
  }

  /** The text the hunks give for a line of the new file. */
  predicate Says(hunks: seq<Hunk>, n: nat, text: string) {
    exists h :: h in hunks && h.newStart <= n < h.newStart + |NewSide(h.body)| &&
        NewSide(h.body)[n - h.newStart] == text
  }

  /** Covered lines lie past the cursor, inside the new file, and carry its text. */
  lemma {:induction false} CoveredText(before: seq<string>, after: seq<string>, hunks: seq<Hunk>,
                                       i: nat, j: nat, path: string, s: Spot)
    requires Turns(before, after, hunks, i, j) && s in Covered(path, hunks)
    ensures s.path == path && j < s.line <= |after| && Says(hunks, s.line, after[s.line - 1])
    decreases |hunks|
  {
    var h := hunks[0];
    var come := NewSide(h.body);
    var nj := Begin(h.newStart, come);
    if s in Run(path, h.newStart, |come|) {
      var m := s.line - h.newStart;
      assert after[nj..nj + |come|][m] == after[nj + m];
      assert h in hunks;
    } else {
      CoveredText(before, after, hunks[1..], Begin(h.oldStart, OldSide(h.body)) + |OldSide(h.body)|,
                  nj + |come|, path, s);
      var g :| g in hunks[1..] && g.newStart <= s.line < g.newStart + |NewSide(g.body)|
               && NewSide(g.body)[s.line - g.newStart] == after[s.line - 1];
      assert g in hunks;
    }
  }

  predicate AnyMasked(hunks: seq<Hunk>) {
    exists h :: h in hunks && MaskedCount(h.body) > 0
  }

  lemma {:induction false} RecordedIsCovered(path: string, hunks: seq<Hunk>)
    ensures Recorded(path, hunks) <= Covered(path, hunks)
    ensures !AnyMasked(hunks) ==> Recorded(path, hunks) == Covered(path, hunks)
  {
    if hunks != [] {
      RecordedIsCovered(path, hunks[1..]);
      assert !AnyMasked(hunks) ==> MaskedCount(hunks[0].body) == 0 && !AnyMasked(hunks[1..]);
    }
  }

  /** Spots of later hunks lie past this one. */
  lemma LaterHunksLieBeyond(before: seq<string>, after: seq<string>, hunks: seq<Hunk>, i: nat, j: nat,
                            path: string, s: Spot)
    requires Turns(before, after, hunks, i, j) && hunks != [] && s in Covered(path, hunks[1..])
    ensures s !in Run(path, hunks[0].newStart, |NewSide(hunks[0].body)|)
  {
    var come, gone := NewSide(hunks[0].body), OldSide(hunks[0].body);
    CoveredText(before, after, hunks[1..], Begin(hunks[0].oldStart, gone) + |gone|,
                Begin(hunks[0].newStart, come) + |come|, path, s);
  }

  /** A masked line always costs its hunk a line number that no other hunk supplies. */
  lemma {:induction false} MaskedLineIsMissed(before: seq<string>, after: seq<string>, hunks: seq<Hunk>,
                                              i: nat, j: nat, path: string)
    returns (missed: Spot)
    requires Turns(before, after, hunks, i, j) && AnyMasked(hunks)
    ensures missed.path == path && missed in Covered(path, hunks) && missed !in Recorded(path, hunks)
    decreases |hunks|
  {
    var h, rest := hunks[0], hunks[1..];
    var come, gone := NewSide(h.body), OldSide(h.body);
    BodyFound(path, h.newStart, h.body);
    RecordedIsCovered(path, rest);
    if MaskedCount(h.body) > 0 {
      missed := Spot(path, h.newStart + |come| - 1);
    } else {
      var g :| g in hunks && MaskedCount(g.body) > 0;
      assert g in rest;
      missed := MaskedLineIsMissed(before, after, rest, Begin(h.oldStart, gone) + |gone|,
                                   Begin(h.newStart, come) + |come|, path);
    }
    if missed in Covered(path, rest) {
      LaterHunksLieBeyond(before, after, hunks, i, j, path, missed);
    }
  }

  // ---- Whole diffs ----------------------------------------------------------------

  /** What the scanner records for one section. */
  function OwnSpots(f: FilePatch): set<Spot> {
    if TargetPath(f.header).Some? then Recorded(TargetPath(f.header).value, f.hunks) else {}
  }

  function RecordedAll(files: seq<FilePatch>): set<Spot> {
    if files == [] then {} else OwnSpots(files[0]) + RecordedAll(files[1..])
  }

  lemma {:induction false} PatchFound(p: Pos, files: seq<FilePatch>)
    requires forall f :: f in files ==> TargetPath(f.header).Some? && WellFormed(f, TargetPath(f.header).value)
    ensures Found(p, Tokens(RenderPatch(files))) == RecordedAll(files)
    decreases |files|
  {
    if files != [] {
      FileFound(p, files[0], TargetPath(files[0].header).value);
      var first, others := Tokens(RenderFile(files[0])), Tokens(RenderPatch(files[1..]));
      TokensConcat(RenderFile(files[0]), RenderPatch(files[1..]));
      ScanConcat(p, first, others);
      PatchFound(Scan(p, first), files[1..]);
    }
  }

  lemma {:induction false} RecordedSomewhere(files: seq<FilePatch>, s: Spot) returns (f: FilePatch)
    requires s in RecordedAll(files)
    ensures f in files && s in OwnSpots(f)
    decreases |files|
  {
    f := files[0];
    if s !in OwnSpots(f) {
      f := RecordedSomewhere(files[1..], s);
    }
  }

  lemma {:induction false} RecordedFor(files: seq<FilePatch>, f: FilePatch)
    requires f in files
    ensures OwnSpots(f) <= RecordedAll(files)
    decreases |files|
  {
    if f != files[0] {
      RecordedFor(files[1..], f);
    }
  }

  lemma {:induction false} RecordedHasPath(path: string, hunks: seq<Hunk>, s: Spot)
    requires s in Recorded(path, hunks)
    ensures s.path == path
  {
    BodyFound(path, hunks[0].newStart, hunks[0].body);
    if s !in Run(path, hunks[0].newStart, |NewSide(hunks[0].body)| - MaskedCount(hunks[0].body)) {
      RecordedHasPath(path, hunks[1..], s);
    }
  }

  /** One section per file: no two sections name the same path. */
  predicate DistinctPaths(files: seq<FilePatch>) {
    forall f, g :: f in files && g in files && TargetPath(f.header) == TargetPath(g.header) ==> f == g
  }

  /** A written-out diff: well-formed sections of distinct files, and no line of it contains
      a line break of its own, other than the carriage return that ends a line of a file with
      CRLF line ends. */
  ghost predicate WellFormedDiff(files: seq<FilePatch>) {
    && (forall f :: f in files ==>
          TargetPath(f.header).Some? && WellFormed(f, TargetPath(f.header).value) && BreakFree(f.header))
    && DistinctPaths(files)
    && AllUnbroken(RenderPatch(files))
  }

  // ---- Carriage returns at line ends ----------------------------------------------

  /** The scanner reads the line the same with and without its final carriage return. */
  predicate Steady(line: string) {
    Tokenize(Chop(line)) == Tokenize(line)
  }

  predicate AllSteady(lines: seq<string>) {
    forall i :: 0 <= i < |lines| ==> Steady(lines[i])
  }

  lemma ChopKeepsStart(line: string, word: string)
    requires '\r' !in word
    ensures StartsWith(Chop(line), word) <==> StartsWith(line, word)
  {
    if StartsWith(line, word) && |word| == |line| && line != [] {
      assert line[|line| - 1] == word[|word| - 1];
    }
    if Chop(line) != line && |word| <= |line| - 1 {
      assert Chop(line)[..|word|] == line[..|word|];
    }
  }

  lemma PlainLineIsSteady(line: string)
    requires OpensNothing(line)
    ensures Steady(line)
  {
    ChopKeepsStart(line, FILE_HEADER);
    ChopKeepsStart(line, "@@");
    ChopKeepsStart(line, "+++");
    ChopKeepsStart(line, "---");
    ChopKeepsStart(line, "+");
    ChopKeepsStart(line, "-");
    ChopKeepsStart(line, "\\");
  }

  lemma ChopTail(front: string, tail: string)
    requires front != [] && front[|front| - 1] != '\r'
    ensures Chop(front + tail) == front + Chop(tail)
  {
    if tail == [] {
      assert front + tail == front;
    } else {
      assert (front + tail)[..|front + tail| - 1] == front + tail[..|tail| - 1];
    }
  }

  lemma StatedHeadersAreSteady(h: Hunk)
    requires HeaderStates(h)
    ensures Steady(h.header)
  {
    var oldCount, newCount, tail :| h.header == FormatHunkHeader(h.oldStart, oldCount, h.newStart, newCount, tail);
    var front := "@@ -" + RenderRange(h.oldStart, oldCount) + " +" + RenderRange(h.newStart, newCount) + " @@";
    ChopTail(front, tail);
    HunkHeaderRoundTrip(h.oldStart, oldCount, h.newStart, newCount, tail);
    HunkHeaderRoundTrip(h.oldStart, oldCount, h.newStart, newCount, Chop(tail));
  }

  lemma {:induction false} BodyIsSteady(body: seq<BodyLine>)
    ensures AllSteady(RenderBody(body))
  {
    if body != [] {
      BodyLineReads(body[0]);
      PlainLineIsSteady(RenderLine(body[0]));
      BodyIsSteady(body[1..]);
    }
  }

  lemma {:induction false} HunksAreSteady(hunks: seq<Hunk>)
    requires forall h :: h in hunks ==> HeaderStates(h)
    ensures AllSteady(RenderHunks(hunks))
  {
    if hunks != [] {
      assert HeaderStates(hunks[0]);
      StatedHeadersAreSteady(hunks[0]);
      BodyIsSteady(hunks[0].body);
      HunksAreSteady(hunks[1..]);
    }
  }

  lemma FileIsSteady(f: FilePatch, path: string)
    requires WellFormed(f, path) && BreakFree(f.header)
    ensures AllSteady(RenderFile(f))
  {
    FreeIsUnbroken(f.header);
    forall i | 0 <= i < |f.meta|
      ensures Steady(f.meta[i])
    {
      assert f.meta[i] in f.meta;
      PlainLineIsSteady(f.meta[i]);
    }
    HunksAreSteady(f.hunks);
  }

  lemma {:induction false} PatchIsSteady(files: seq<FilePatch>)
    requires forall f :: f in files ==>
               TargetPath(f.header).Some? && WellFormed(f, TargetPath(f.header).value) && BreakFree(f.header)
    ensures AllSteady(RenderPatch(files))
  {
    if files != [] {
      FileIsSteady(files[0], TargetPath(files[0].header).value);
      PatchIsSteady(files[1..]);
    }
  }

  lemma {:induction false} SteadyTokens(lines: seq<string>)
    requires AllSteady(lines)
    ensures Tokens(Chopped(lines)) == Tokens(lines)
  {
    if lines != [] {
      SteadyTokens(lines[1..]);
      assert Steady(lines[0]);
      assert Chopped(lines)[1..] == Chopped(lines[1..]);
    }
  }

  /** The text of a diff: its lines, each ended by a newline. */
  function DiffText(files: seq<FilePatch>): string {
    JoinLines(RenderPatch(files)) + "\n"
  }

  lemma SpotsOfText(files: seq<FilePatch>)
    requires WellFormedDiff(files) && files != []
    ensures DiffSpots(DiffText(files)) == RecordedAll(files)
  {
    LinesRoundTrip(RenderPatch(files));
    PatchIsSteady(files);
    SteadyTokens(RenderPatch(files));
    assert RenderPatch(files) == RenderFile(files[0]) + RenderPatch(files[1..]);
    assert |RenderFile(files[0])| > 0;
    PatchFound(START, files);
  }

  /** The spots of one file in the set extracted from the whole text. */
  lemma SpotsOfFile(files: seq<FilePatch>, f: FilePatch, s: Spot)
    requires WellFormedDiff(files) && f in files && s.path == TargetPath(f.header).value
    ensures s in DiffSpots(DiffText(files)) <==> s in Recorded(s.path, f.hunks)
  {
    SpotsOfText(files);
    RecordedFor(files, f);
    if s in RecordedAll(files) {
      var g := RecordedSomewhere(files, s);
      RecordedHasPath(TargetPath(g.header).value, g.hunks, s);
      assert f == g;
    }
  }

  ghost predicate SpotsAreTheCoveredLines(spots: set<Spot>, path: string, hunks: seq<Hunk>) {
    forall s: Spot :: s.path == path ==> (s in spots <==> s in Covered(path, hunks))
  }

  /** Line numbers mean what they say. When the hunks of a file turn one text into another,
      the numbers extracted for its path are exactly the new-side lines the hunks cover if
      and only if no added line begins with "++"; and each covered number names the line of
      the new file whose text the hunk shows. */
  lemma LineNumbersMeanWhatTheySay(files: seq<FilePatch>, f: FilePatch, before: seq<string>,
                                   after: seq<string>)
    requires WellFormedDiff(files) && f in files && Turns(before, after, f.hunks, 0, 0)
    ensures var path := TargetPath(f.header).value;
            && (SpotsAreTheCoveredLines(DiffSpots(DiffText(files)), path, f.hunks) <==> !AnyMasked(f.hunks))
            && (forall s :: s in Covered(path, f.hunks) ==>
                  s.path == path && 1 <= s.line <= |after| && Says(f.hunks, s.line, after[s.line - 1]))
  {
    var path, spots := TargetPath(f.header).value, DiffSpots(DiffText(files));
    forall s | s in Covered(path, f.hunks)
      ensures s.path == path && 1 <= s.line <= |after| && Says(f.hunks, s.line, after[s.line - 1])
    {
      CoveredText(before, after, f.hunks, 0, 0, path, s);
    }
    forall s: Spot | s.path == path
      ensures s in spots <==> s in Recorded(path, f.hunks)
    {
      SpotsOfFile(files, f, s);
    }
    RecordedIsCovered(path, f.hunks);
    if AnyMasked(f.hunks) {
      var missed := MaskedLineIsMissed(before, after, f.hunks, 0, 0, path);
      assert missed.path == path;
    }
  }

  lemma RecordedText(before: seq<string>, after: seq<string>, hunks: seq<Hunk>, path: string, s: Spot)
    requires Turns(before, after, hunks, 0, 0) && s in Recorded(path, hunks)
    ensures 1 <= s.line <= |after|
    ensures s in Covered(path, hunks) && Says(hunks, s.line, after[s.line - 1])
  {
    RecordedIsCovered(path, hunks);
    CoveredText(before, after, hunks, 0, 0, path, s);
  }

  /** So a comment that `PartitionFindings` places inline always sits on a line of the new
      file that a hunk of that file covers, masked lines or not. */
  lemma InlineCommentsSitInHunks(files: seq<FilePatch>, f: FilePatch, before: seq<string>,
                                 after: seq<string>, c: InlineComment)
    requires WellFormedDiff(files) && f in files && Turns(before, after, f.hunks, 0, 0)
    requires c.path == TargetPath(f.header).value && c.line >= 0 && Spot(c.path, c.line) in DiffSpots(DiffText(files))
    ensures 1 <= c.line <= |after| && Spot(c.path, c.line) in Covered(c.path, f.hunks)
  {
    SpotsOfFile(files, f, Spot(c.path, c.line));
    RecordedText(before, after, f.hunks, c.path, Spot(c.path, c.line));
  }

  /** A path that the header of an unrenamed file gives back. */
  ghost predicate CleanPath(path: string) {
    !NeedsQuote(path) && Strip(path) == path && Free(path)
  }

  function OwnHeader(path: string): string {
    GitHeader(path, path)
  }

  /** One line put in front of an empty one. */
  function InsertedLine(path: string, text: string): FilePatch {
    FilePatch(OwnHeader(path), [], [Hunk(INSERTED_HEADER, 1, 1, [Added(text), Blank])])
  }

  lemma OwnHeaderReads(path: string)
    requires CleanPath(path)
    ensures TargetPath(OwnHeader(path)) == Some(path) && StartsWith(OwnHeader(path), FILE_HEADER) &&
              BreakFree(OwnHeader(path))
  {
    GitHeaderExactly(path, path);
    GitHeaderShape(path, path);
  }

  lemma {:induction false} DecimalIsBreakFree(n: nat)
    ensures BreakFree(Decimal(n))
  {
    if n >= 10 {
      DecimalIsBreakFree(n / 10);
    }
  }

  const INSERTED_HEADER := FormatHunkHeader(1, Some(1), 1, Some(2), "")

  lemma InsertedHeaderReads()
    ensures HunkStart(INSERTED_HEADER) == Some(1) && StartsWith(INSERTED_HEADER, "@@")
    ensures !StartsWith(INSERTED_HEADER, FILE_HEADER) && BreakFree(INSERTED_HEADER)
  {
    HunkHeaderRoundTrip(1, Some(1), 1, Some(2), "");
    HunkHeaderIsBreakFree(1, 1, 1, 2, "");
  }

  lemma HunkHeaderIsBreakFree(oldStart: nat, oldCount: nat, newStart: nat, newCount: nat, tail: string)
    requires BreakFree(tail)
    ensures BreakFree(FormatHunkHeader(oldStart, Some(oldCount), newStart, Some(newCount), tail))
  {
    RangeIsBreakFree(oldStart, oldCount);
    RangeIsBreakFree(newStart, newCount);
    SixJoined("@@ -", RenderRange(oldStart, Some(oldCount)), " +", RenderRange(newStart, Some(newCount)), " @@", tail);
  }

  lemma SixJoined(a: string, b: string, c: string, d: string, e: string, f: string)
    requires BreakFree(a) && BreakFree(b) && BreakFree(c) && BreakFree(d) && BreakFree(e) && BreakFree(f)
    ensures BreakFree(a + b + c + d + e + f)
  {
    BreakFreeJoins(a, b);
    BreakFreeJoins(a + b, c);
    BreakFreeJoins(a + b + c, d);
    BreakFreeJoins(a + b + c + d, e);
    BreakFreeJoins(a + b + c + d + e, f);
  }

  lemma RangeIsBreakFree(start: nat, count: nat)
    ensures BreakFree(RenderRange(start, Some(count)))
  {
    DecimalIsBreakFree(start);
    DecimalIsBreakFree(count);
    BreakFreeJoins(",", Decimal(count));
    BreakFreeJoins(Decimal(start), "," + Decimal(count));
  }

  lemma InsertedLines(path: string, text: string)
    ensures RenderPatch([InsertedLine(path, text)]) == [OwnHeader(path), INSERTED_HEADER, "+" + text, ""]
  {
    var f := InsertedLine(path, text);
    var h := f.hunks[0];
    InsertedBody(text);
    assert f.hunks[1..] == [] && [f][1..] == [];
    assert RenderHunks(f.hunks) == [h.header] + ["+" + text, ""] + [];
    assert RenderPatch([f]) == RenderFile(f) + [];
  }

  lemma SingleFile(f: FilePatch, path: string, a: string, b: string, c: string, d: string)
    requires WellFormed(f, path) && RenderPatch([f]) == [a, b, c, d] && f.header == a
    requires BreakFree(a) && Unbroken(b) && Unbroken(c) && Unbroken(d)
    ensures WellFormedDiff([f])
  {
  }

  lemma InsertedSection(path: string, text: string)
    requires CleanPath(path)
    ensures WellFormed(InsertedLine(path, text), path) && BreakFree(OwnHeader(path))
  {
    OwnHeaderReads(path);
    assert HeaderStates(InsertedLine(path, text).hunks[0]);
  }

  /** Such a patch meets the premises of the theorems above, whatever the path and the text. */
  lemma InsertedLineIsWellFormed(path: string, text: string)
    requires CleanPath(path) && Unbroken(text)
    ensures WellFormedDiff([InsertedLine(path, text)])
    ensures Turns([""], [text, ""], InsertedLine(path, text).hunks, 0, 0)
  {
    InsertedSection(path, text);
    InsertedHeaderReads();
    InsertedLines(path, text);
    ChopTail("+", text);
    BreakFreeJoins("+", Chop(text));
    FreeIsUnbroken(INSERTED_HEADER);
    SingleFile(InsertedLine(path, text), path, OwnHeader(path), INSERTED_HEADER, "+" + text, "");
    InsertedTurns(path, text);
  }

  lemma InsertedTurns(path: string, text: string)
    ensures Turns([""], [text, ""], InsertedLine(path, text).hunks, 0, 0)
  {
    InsertedBody(text);
  }

  lemma InsertedBody(text: string)
    ensures RenderBody([Added(text), Blank]) == ["+" + text, ""]
    ensures OldSide([Added(text), Blank]) == [""] && NewSide([Added(text), Blank]) == [text, ""]
  {
    assert [Added(text), Blank][1..] == [Blank];
    assert RenderBody([Blank]) == [""] && OldSide([Blank]) == [""] && NewSide([Blank]) == [""];
  }
}
