/** Which lines of a diff can be commented on, told without the scanner: by the last file
    header and the last hunk header in front of a line. The scanner (`UnifiedDiffs`) finds
    exactly these, on every text. */
module DiffScans {
  import opened Prelude
  import opened Text
  import opened FileHeaders
  import opened UnifiedDiffs

  predicate IsFileLine(line: string) {
    StartsWith(line, "diff --git ")
  }

  predicate IsHunkLine(line: string) {
    StartsWith(line, "@@")
  }

  /** The line is text of the new file, if it stands in a hunk: it is no header, no removal,
      no marker, and does not begin with "+++". */
  predicate IsText(line: string) {
    && !IsFileLine(line) && !IsHunkLine(line) && !StartsWith(line, "+++")
    && (line == "" || (line[0] != '-' && line[0] != '\\'))
  }

  /** How many of the lines from `a` up to `b` are such text. */
  function Texts(lines: seq<string>, a: nat, b: nat): nat
    requires b <= |lines|
  {
    if b <= a then 0 else Texts(lines, a, b - 1) + (if IsText(lines[b - 1]) then 1 else 0)
  }

  /** The last file header before line `i`. */
  function FileBefore(lines: seq<string>, i: nat): Option<nat>
    requires i <= |lines|
  {
    if i == 0 then None else if IsFileLine(lines[i - 1]) then Some(i - 1) else FileBefore(lines, i - 1)
  }

  /** The last hunk header before line `i` in its section. */
  function HunkBefore(lines: seq<string>, i: nat): Option<nat>
    requires i <= |lines|
  {
    if i == 0 || IsFileLine(lines[i - 1]) then None
    else if IsHunkLine(lines[i - 1]) then Some(i - 1)
    else HunkBefore(lines, i - 1)
  }

  ghost predicate FileSince(lines: seq<string>, j: nat, i: nat)
    requires i <= |lines|
  {
    exists f: nat :: j <= f < i && IsFileLine(lines[f])
  }

  lemma {:induction false} FileBeforeIs(lines: seq<string>, i: nat)
    requires i <= |lines|
    ensures var r := FileBefore(lines, i);
            && (r.Some? ==> r.value < i && IsFileLine(lines[r.value]))
            && (forall j :: 0 <= j < i && IsFileLine(lines[j]) ==> r.Some? && j <= r.value)
  {
    if i > 0 {
      FileBeforeIs(lines, i - 1);
    }
  }

  lemma {:induction false} HunkBeforeIs(lines: seq<string>, i: nat)
    requires i <= |lines|
    ensures var r := HunkBefore(lines, i);
            && (r.Some? ==> r.value < i && IsHunkLine(lines[r.value]) && !IsFileLine(lines[r.value]))
            && (forall j :: 0 <= j < i && r.Some? && j > r.value ==> !IsFileLine(lines[j]) && !IsHunkLine(lines[j]))
            && (r.None? ==> forall j :: 0 <= j < i && IsHunkLine(lines[j]) ==> FileSince(lines, j, i))
  {
    if i > 0 {
      HunkBeforeIs(lines, i - 1);
    }
  }

  function PathBefore(lines: seq<string>, i: nat): Option<string>
    requires i <= |lines|
  {
    FileBeforeIs(lines, i);
    if FileBefore(lines, i).None? then None else TargetPath(lines[FileBefore(lines, i).value])
  }

  /** The start that the last hunk header before line `i` states. */
  function StartBefore(lines: seq<string>, i: nat): Option<nat>
    requires i <= |lines|
  {
    HunkBeforeIs(lines, i);
    if HunkBefore(lines, i).None? then None else HunkStart(lines[HunkBefore(lines, i).value])
  }

  /** How many lines of text have come since. */
  function TextsBefore(lines: seq<string>, i: nat): nat
    requires i <= |lines|
  {
    if HunkBefore(lines, i).None? then 0 else Texts(lines, HunkBefore(lines, i).value + 1, i)
  }

  function PosOf(path: Option<string>, start: Option<nat>, texts: nat): Pos {
    if path.Some? && start.Some? then Inside(path.value, start.value + texts) else Outside(path)
  }

  /** Where the scanner is before line `i`. */
  function PosBefore(lines: seq<string>, i: nat): Pos
    requires i <= |lines|
  {
    PosOf(PathBefore(lines, i), StartBefore(lines, i), TextsBefore(lines, i))
  }

  lemma TokenTold(line: string)
    ensures IsFileLine(line) ==> Tokenize(line) == FileHeader(TargetPath(line)) && !IsHunkLine(line)
    ensures IsHunkLine(line) ==> Tokenize(line) == HunkHeader(HunkStart(line))
    ensures !IsFileLine(line) && !IsHunkLine(line) ==> Tokenize(line) == if IsText(line) then NewText else Ignored
  {
    if line != "" {
      assert StartsWith(line, "-") <==> line[0] == '-' by { assert line[..1] == [line[0]]; }
      assert StartsWith(line, "\\") <==> line[0] == '\\' by { assert line[..1] == [line[0]]; }
      if IsFileLine(line) {
        assert line[0] == 'd';
        FirstCharDiffers(line, "@@");
      }
      if line[0] != '-' {
        FirstCharDiffers(line, "---");
      }
    }
  }

  /** A file header closes whatever was open, */
  lemma AfterFile(lines: seq<string>, i: nat)
    requires i < |lines| && IsFileLine(lines[i])
    ensures PosBefore(lines, i + 1) == StepPos(PosBefore(lines, i), Tokenize(lines[i]))
  {
    TokenTold(lines[i]);
  }

  lemma NewHunk(lines: seq<string>, i: nat)
    requires i < |lines| && IsHunkLine(lines[i]) && !IsFileLine(lines[i])
    ensures PathBefore(lines, i + 1) == PathBefore(lines, i) && StartBefore(lines, i + 1) == HunkStart(lines[i])
    ensures TextsBefore(lines, i + 1) == 0
  {
    assert HunkBefore(lines, i + 1) == Some(i) && FileBefore(lines, i + 1) == FileBefore(lines, i);
  }

  lemma HunkMoves(path: Option<string>, start: Option<nat>, texts: nat, start': Option<nat>)
    ensures PosOf(path, start', 0) == StepPos(PosOf(path, start, texts), HunkHeader(start'))
  {
  }

  /** a hunk header opens its hunk, if it can be read and the file is known, and closes the
      one before in any case, */
  lemma AfterHunk(lines: seq<string>, i: nat)
    requires i < |lines| && IsHunkLine(lines[i]) && !IsFileLine(lines[i])
    ensures PosBefore(lines, i + 1) == StepPos(PosBefore(lines, i), Tokenize(lines[i]))
  {
    TokenTold(lines[i]);
    NewHunk(lines, i);
    HunkMoves(PathBefore(lines, i), StartBefore(lines, i), TextsBefore(lines, i), HunkStart(lines[i]));
  }

  lemma SameHeaders(lines: seq<string>, i: nat)
    requires i < |lines| && !IsFileLine(lines[i]) && !IsHunkLine(lines[i])
    ensures PathBefore(lines, i + 1) == PathBefore(lines, i) && StartBefore(lines, i + 1) == StartBefore(lines, i)
    ensures StartBefore(lines, i).Some? ==>
              TextsBefore(lines, i + 1) == TextsBefore(lines, i) + (if IsText(lines[i]) then 1 else 0)
  {
    HunkBeforeIs(lines, i);
    assert FileBefore(lines, i + 1) == FileBefore(lines, i) && HunkBefore(lines, i + 1) == HunkBefore(lines, i);
  }

  /** and any other line is counted if it is text. */
  lemma AfterText(lines: seq<string>, i: nat)
    requires i < |lines| && !IsFileLine(lines[i]) && !IsHunkLine(lines[i])
    ensures PosBefore(lines, i + 1) == StepPos(PosBefore(lines, i), Tokenize(lines[i]))
  {
    TokenTold(lines[i]);
    SameHeaders(lines, i);
    TextMoves(PathBefore(lines, i), StartBefore(lines, i), TextsBefore(lines, i), TextsBefore(lines, i + 1),
              Tokenize(lines[i]));
  }

  lemma TextMoves(path: Option<string>, start: Option<nat>, texts: nat, texts': nat, t: Token)
    requires t == NewText || t == Ignored
    requires start.Some? ==> texts' == texts + (if t == NewText then 1 else 0)
    ensures PosOf(path, start, texts') == StepPos(PosOf(path, start, texts), t)
  {
  }

  lemma PosMoves(lines: seq<string>, i: nat)
    requires i < |lines|
    ensures PosBefore(lines, i + 1) == StepPos(PosBefore(lines, i), Tokenize(lines[i]))
  {
    if IsFileLine(lines[i]) {
      AfterFile(lines, i);
    } else if IsHunkLine(lines[i]) {
      AfterHunk(lines, i);
    } else {
      AfterText(lines, i);
    }
  }

  lemma {:induction false} PositionTold(lines: seq<string>, i: nat)
    requires i <= |lines|
    ensures Scan(START, Tokens(lines[..i])) == PosBefore(lines, i)
  {
    if i == 0 {
      assert lines[..0] == [];
    } else {
      PositionTold(lines, i - 1);
      ReadOneMore(lines, i - 1);
      PosMoves(lines, i - 1);
    }
  }

  lemma {:induction false} PrefixTold(lines: seq<string>, n: nat, s: Spot)
    requires n <= |lines|
    ensures s in Found(START, Tokens(lines[..n])) <==>
              exists i: nat :: i < n && IsText(lines[i]) && PosBefore(lines, i) == Inside(s.path, s.line)
  {
    if n > 0 {
      PrefixTold(lines, n - 1, s);
      ReadOneMore(lines, n - 1);
      TokenTold(lines[n - 1]);
      PositionTold(lines, n - 1);
    } else {
      assert lines[..0] == [];
    }
  }

  /** Line `k` is the last hunk header before line `i`, and line `h` the last file header,
      which comes before it. */
  ghost predicate Heads(lines: seq<string>, h: nat, k: nat, i: nat) {
    && h < k < i <= |lines| && IsFileLine(lines[h]) && IsHunkLine(lines[k])
    && (forall j :: h < j < i ==> !IsFileLine(lines[j])) && (forall j :: k < j < i ==> !IsHunkLine(lines[j]))
  }

  /** Line `i` is text in the hunk of line `k`, in the section of line `h`. It is line `s.line`
      of the file that the section names, counted from the start that the hunk states. */
  ghost predicate StandsIn(lines: seq<string>, h: nat, k: nat, i: nat, s: Spot) {
    && i < |lines| && IsText(lines[i]) && Heads(lines, h, k, i)
    && TargetPath(lines[h]) == Some(s.path)
    && HunkStart(lines[k]).Some? && s.line == HunkStart(lines[k]).value + Texts(lines, k + 1, i)
  }

  lemma HeadsExactly(lines: seq<string>, h: nat, k: nat, i: nat)
    requires i <= |lines|
    ensures Heads(lines, h, k, i) <==> FileBefore(lines, i) == Some(h) && HunkBefore(lines, i) == Some(k)
  {
    FileBeforeIs(lines, i);
    HunkBeforeIs(lines, i);
    var file, hunk := FileBefore(lines, i), HunkBefore(lines, i);
    HeadsOnce(lines, h, k, i, file, hunk);
  }

  lemma HeadsOnce(lines: seq<string>, h: nat, k: nat, i: nat, file: Option<nat>, hunk: Option<nat>)
    requires i <= |lines|
    requires file.Some? ==> file.value < i && IsFileLine(lines[file.value])
    requires forall j :: 0 <= j < i && IsFileLine(lines[j]) ==> file.Some? && j <= file.value
    requires hunk.Some? ==> hunk.value < i && IsHunkLine(lines[hunk.value]) && !IsFileLine(lines[hunk.value])
    requires forall j :: 0 <= j < i && hunk.Some? && j > hunk.value ==> !IsFileLine(lines[j]) && !IsHunkLine(lines[j])
    requires hunk.None? ==> forall j :: 0 <= j < i && IsHunkLine(lines[j]) ==> FileSince(lines, j, i)
    ensures Heads(lines, h, k, i) <==> file == Some(h) && hunk == Some(k)
  {
    if Heads(lines, h, k, i) {
      TokenTold(lines[k]);
      assert !FileSince(lines, k, i);
    }
  }

  /** What is before a line, by the headers in front of it. */
  lemma PosOfHeads(lines: seq<string>, i: nat, s: Spot)
    requires i <= |lines|
    ensures PosBefore(lines, i) == Inside(s.path, s.line) <==>
              && FileBefore(lines, i).Some? && HunkBefore(lines, i).Some?
              && PathBefore(lines, i) == Some(s.path) && StartBefore(lines, i).Some?
              && s.line == StartBefore(lines, i).value + TextsBefore(lines, i)
  {
  }

  lemma StandsExactly(lines: seq<string>, h: nat, k: nat, i: nat, s: Spot)
    requires i < |lines| && FileBefore(lines, i) == Some(h) && HunkBefore(lines, i) == Some(k)
    ensures StandsIn(lines, h, k, i, s) <==> IsText(lines[i]) && PosBefore(lines, i) == Inside(s.path, s.line)
  {
    HeadsExactly(lines, h, k, i);
    PosOfHeads(lines, i, s);
    FileBeforeIs(lines, i);
    HunkBeforeIs(lines, i);
    assert PathBefore(lines, i) == TargetPath(lines[h]) && StartBefore(lines, i) == HunkStart(lines[k]);
  }

  /** The spots of any text are exactly the lines that stand as text in a hunk that can be
      read, in a section that names its file, numbered from the start the hunk states. */
  lemma SpotsExactly(diff: string, s: Spot)
    ensures s in DiffSpots(diff) <==> exists h: nat, k: nat, i: nat :: StandsIn(SplitLines(diff), h, k, i, s)
  {
    var lines := SplitLines(diff);
    assert lines[..|lines|] == lines;
    PrefixTold(lines, |lines|, s);
    if h: nat, k: nat, i: nat :| StandsIn(lines, h, k, i, s) {
      HeadsExactly(lines, h, k, i);
      StandsExactly(lines, h, k, i, s);
    }
    if i: nat :| i < |lines| && IsText(lines[i]) && PosBefore(lines, i) == Inside(s.path, s.line) {
      PosOfHeads(lines, i, s);
      StandsExactly(lines, FileBefore(lines, i).value, HunkBefore(lines, i).value, i, s);
    }
  }
}
