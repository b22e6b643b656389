/** Which lines are hunk headers (`_HUNK_RE`): the scanner accepts exactly the lines of the
    form "@@ -a[,b] +c[,d] @@" with anything after it, and reads c. */
module HunkHeaders {
  import opened Prelude
  import opened Text
  import opened UnifiedDiffs

  predicate IsNumber(s: string) {
    s != [] && AllDigits(s)
  }

  /** A start, and a count if there is one, as they are written. */
  datatype Range = Range(start: string, count: Option<string>)

  predicate IsRange(r: Range) {
    IsNumber(r.start) && (r.count.Some? ==> IsNumber(r.count.value))
  }

  function Shown(r: Range): string {
    r.start + (if r.count.Some? then "," + r.count.value else "")
  }

  lemma RangeReads(r: Range, rest: string, s: string)
    requires IsRange(r) && s == Shown(r) + rest && rest != [] && !IsDigit(rest[0]) && rest[0] != ','
    ensures AfterRange(s) == Some(rest) && Digits(s) == |r.start| && s[..|r.start|] == r.start
  {
    if r.count.None? {
      assert s == r.start + rest;
      DigitsOf(r.start, rest);
      FirstCharDiffers(rest, ",");
    } else {
      var counted := "," + (r.count.value + rest);
      assert s == r.start + counted;
      DigitsOf(r.start, counted);
      CountReads(r.count.value, rest, counted);
    }
  }

  lemma {:induction false} DigitsAreDigits(s: string)
    ensures AllDigits(s[..Digits(s)])
  {
    if s != [] && IsDigit(s[0]) {
      DigitsAreDigits(s[1..]);
      assert s[..Digits(s)] == [s[0]] + s[1..][..Digits(s[1..])];
    }
  }

  lemma RangeFound(s: string) returns (r: Range)
    requires AfterRange(s).Some?
    ensures IsRange(r) && s == Shown(r) + AfterRange(s).value && r.start == s[..Digits(s)]
  {
    var n := Digits(s);
    DigitsAreDigits(s);
    var rest := s[n..];
    if StartsWith(rest, ",") && Digits(rest[1..]) > 0 {
      var m := Digits(rest[1..]);
      DigitsAreDigits(rest[1..]);
      r := Range(s[..n], Some(rest[1..][..m]));
      assert rest == "," + rest[1..][..m] + rest[1 + m..];
      assert s == s[..n] + rest;
    } else {
      r := Range(s[..n], None);
      assert s == s[..n] + rest;
    }
  }

  /** The line is a hunk header with these two ranges. */
  predicate IsHunkHeader(line: string, gone: Range, come: Range, tail: string) {
    IsRange(gone) && IsRange(come) && line == "@@ -" + Shown(gone) + " +" + Shown(come) + " @@" + tail
  }

  lemma HeaderIsRead(line: string, gone: Range, come: Range, tail: string)
    requires IsHunkHeader(line, gone, come, tail)
    ensures HunkStart(line) == Some(ValueOf(come.start))
  {
    var afterNew := " @@" + tail;
    var newRange := Shown(come) + afterNew;
    var afterOld := " +" + newRange;
    var ranges := Shown(gone) + afterOld;
    RangeReads(come, afterNew, newRange);
    RangeReads(gone, afterOld, ranges);
    HeaderShape(Shown(gone), Shown(come), tail);
    HeaderReads(line, ranges, afterOld, newRange, afterNew);
  }

  lemma CutFront(s: string, word: string)
    requires StartsWith(s, word)
    ensures s == word + s[|word|..]
  {
  }

  lemma HeaderIsFound(line: string) returns (gone: Range, come: Range, tail: string)
    requires HunkStart(line).Some?
    ensures IsHunkHeader(line, gone, come, tail)
  {
    var ranges := line[4..];
    CutFront(line, "@@ -");
    gone := RangeFound(ranges);
    var afterOld := AfterRange(ranges).value;
    CutFront(afterOld, " +");
    var newRange := afterOld[2..];
    come := RangeFound(newRange);
    var afterNew := AfterRange(newRange).value;
    CutFront(afterNew, " @@");
    tail := afterNew[3..];
    HeaderShape(Shown(gone), Shown(come), tail);
  }

  /** A line is read as a hunk header exactly when it is one, and then its new-side start is
      read, leading zeros or not. */
  lemma HunkStartExactly(line: string)
    ensures HunkStart(line).Some? <==> exists gone, come, tail :: IsHunkHeader(line, gone, come, tail)
    ensures forall gone, come, tail :: IsHunkHeader(line, gone, come, tail) ==>
              HunkStart(line) == Some(ValueOf(come.start))
  {
    forall gone, come, tail | IsHunkHeader(line, gone, come, tail)
      ensures HunkStart(line) == Some(ValueOf(come.start))
    {
      HeaderIsRead(line, gone, come, tail);
    }
    if HunkStart(line).Some? {
      var gone, come, tail := HeaderIsFound(line);
    }
  }
}
