/** The string operations the diff code leans on: Python's `splitlines`, `str.find`,
    `str.split` with a separator, and decimal numbers. */
module Text {
  import opened Prelude

  predicate StartsWith(s: string, prefix: string) {
    |prefix| <= |s| && s[..|prefix|] == prefix
  }

  lemma FirstCharDiffers(s: string, prefix: string)
    requires prefix != [] && (s == [] || s[0] != prefix[0])
    ensures !StartsWith(s, prefix)
  {
    assert |prefix| <= |s| ==> s[..|prefix|][0] == s[0];
  }

  // ---- Lines ----------------------------------------------------------------------

  /** The characters at which `splitlines` ends a line. */
  predicate IsLineBreak(c: char) {
    '\n' <= c <= '\r' || '\U{1C}' <= c <= '\U{1E}' || c == '\U{85}' || c == '\U{2028}' || c == '\U{2029}'
  }

  /** They are ten, by code point. */
  lemma LineBreaksListed(c: char)
    ensures IsLineBreak(c) <==> c as int in {10, 11, 12, 13, 28, 29, 30, 133, 8232, 8233}
  {
  }

  /** How many characters the line break at the front of `s` takes: a carriage return and a
      newline together end one line. */
  function BreakLength(s: string): nat
    requires s != []
  {
    if s[0] == '\r' && |s| > 1 && s[1] == '\n' then 2 else 1
  }

  /** The lines of `s`, the first of which has `prefix` before it. */
  function LinesFrom(prefix: string, s: string): seq<string>
    decreases |s|
  {
    if s == [] then if prefix == [] then [] else [prefix]
    else if IsLineBreak(s[0]) then [prefix] + LinesFrom([], s[BreakLength(s)..])
    else LinesFrom(prefix + [s[0]], s[1..])
  }

  /** Python's `str.splitlines`: a final line break opens no further line. */
  function SplitLines(s: string): seq<string> {
    LinesFrom([], s)
  }

  predicate EndsInNewline(s: string) {
    s != [] && s[|s| - 1] == '\n'
  }

  lemma {:induction false} LinesAfterNewline(prefix: string, x: string, y: string)
    requires EndsInNewline(x)
    ensures LinesFrom(prefix, x + y) == LinesFrom(prefix, x) + LinesFrom([], y)
    decreases |x|
  {
    var n := if IsLineBreak(x[0]) then BreakLength(x) else 1;
    assert (x + y)[0] == x[0] && (x + y)[n..] == x[n..] + y;
    assert |x| > 1 ==> (x + y)[1] == x[1];
    if n < |x| {
      LinesAfterNewline(if IsLineBreak(x[0]) then [] else prefix + [x[0]], x[n..], y);
    } else {
      assert x[n..] + y == y;
    }
  }

  /** Text that ends in a newline splits independently of what follows it. */
  lemma SplitAfterNewline(x: string, y: string)
    requires EndsInNewline(x)
    ensures SplitLines(x + y) == SplitLines(x) + SplitLines(y)
  {
    LinesAfterNewline([], x, y);
  }

  /** Whether appending a newline opens one more, empty, line. */
  predicate EndsLine(s: string) {
    s != [] && IsLineBreak(s[|s| - 1]) && s[|s| - 1] != '\r'
  }

  lemma {:induction false} LinesWithNewline(prefix: string, s: string)
    requires s != [] || prefix != []
    ensures LinesFrom(prefix, s + "\n") == LinesFrom(prefix, s) + (if EndsLine(s) then [""] else [])
    decreases |s|
  {
    if s == [] {
      assert s + "\n" == "\n" && "\n"[1..] == [];
    } else {
      var n := if IsLineBreak(s[0]) then BreakLength(s) else 1;
      assert (s + "\n")[0] == s[0];
      assert |s| > 1 ==> (s + "\n")[1] == s[1];
      if n < |s| {
        assert (s + "\n")[n..] == s[n..] + "\n";
        LinesWithNewline(if IsLineBreak(s[0]) then [] else prefix + [s[0]], s[n..]);
      } else if IsLineBreak(s[0]) {
        LastBreakWithNewline(prefix, s);
      } else {
        assert (s + "\n")[1..] == [] + "\n" && s[1..] == [];
        LinesWithNewline(prefix + [s[0]], []);
      }
    }
  }

  lemma LastBreakWithNewline(prefix: string, s: string)
    requires s != [] && IsLineBreak(s[0]) && BreakLength(s) == |s|
    ensures LinesFrom(prefix, s + "\n") == LinesFrom(prefix, s) + (if EndsLine(s) then [""] else [])
  {
    assert s[|s|..] == [];
    if |s| == 1 && s[0] == '\r' {
      assert (s + "\n")[2..] == [];
    } else {
      assert (s + "\n")[|s|..] == "\n" && "\n"[1..] == [];
      assert LinesFrom([], "\n") == [""];
    }
  }

  /** A newline appended to a text only closes its last line, unless that is closed already. */
  lemma SplitWithNewline(s: string)
    requires s != []
    ensures SplitLines(s + "\n") == SplitLines(s) + (if EndsLine(s) then [""] else [])
  {
    LinesWithNewline([], s);
  }

  /** Python's `"\n".join`. */
  function JoinLines(lines: seq<string>): string {
    if lines == [] then []
    else if |lines| == 1 then lines[0]
    else lines[0] + "\n" + JoinLines(lines[1..])
  }

  predicate BreakFree(s: string) {
    forall i :: 0 <= i < |s| ==> !IsLineBreak(s[i])
  }

  lemma BreakFreeJoins(a: string, b: string)
    requires BreakFree(a) && BreakFree(b)
    ensures BreakFree(a + b)
  {
  }

  /** A line end other than a carriage return that a newline follows ends the line alone. */
  lemma {:induction false} LineUpToBreak(prefix: string, line: string, c: char, rest: string)
    requires BreakFree(line) && IsLineBreak(c) && (c == '\r' ==> rest != [] && rest[0] != '\n')
    ensures LinesFrom(prefix, line + [c] + rest) == [prefix + line] + LinesFrom([], rest)
    decreases |line|
  {
    var s := line + [c] + rest;
    if line == [] {
      assert s[0] == c && s[1..] == rest && prefix + line == prefix;
    } else {
      assert s[0] == line[0] && s[1..] == line[1..] + [c] + rest;
      LineUpToBreak(prefix + [line[0]], line[1..], c, rest);
      assert prefix + [line[0]] + line[1..] == prefix + line;
    }
  }

  /** A carriage return and a newline end the line together. */
  lemma LineUpToReturn(line: string, rest: string)
    requires BreakFree(line)
    ensures LinesFrom([], line + "\r\n" + rest) == [line] + LinesFrom([], rest)
  {
    var s := "\r\n" + rest;
    BreakFreeGrows([], line, s);
    assert line + "\r\n" + rest == line + s && [] + line == line;
    assert s[0] == '\r' && s[1] == '\n' && s[2..] == rest;
  }

  lemma {:induction false} BreakFreeGrows(prefix: string, word: string, rest: string)
    requires BreakFree(word)
    ensures LinesFrom(prefix, word + rest) == LinesFrom(prefix + word, rest)
    decreases |word|
  {
    if word == [] {
      assert word + rest == rest && prefix + word == prefix;
    } else {
      assert (word + rest)[0] == word[0] && (word + rest)[1..] == word[1..] + rest;
      BreakFreeGrows(prefix + [word[0]], word[1..], rest);
      assert prefix + [word[0]] + word[1..] == prefix + word;
    }
  }

  lemma {:induction false} FirstLineGrows(prefix: string, s: string)
    requires prefix != []
    ensures LinesFrom(prefix, s) != [] && StartsWith(LinesFrom(prefix, s)[0], prefix)
    decreases |s|
  {
    if s != [] && !IsLineBreak(s[0]) {
      FirstLineGrows(prefix + [s[0]], s[1..]);
      var line := LinesFrom(prefix + [s[0]], s[1..])[0];
      assert line[..|prefix|] == line[..|prefix| + 1][..|prefix|] == prefix;
    }
  }

  lemma {:induction false} LastOpenLine(prefix: string, line: string)
    requires BreakFree(line) && prefix + line != []
    ensures LinesFrom(prefix, line) == [prefix + line]
    decreases |line|
  {
    if line == [] {
      assert prefix + line == prefix;
    } else {
      LastOpenLine(prefix + [line[0]], line[1..]);
      assert prefix + [line[0]] + line[1..] == prefix + line;
    }
  }

  /** A line without the carriage return it may end in. */
  function Chop(line: string): string {
    if line != [] && line[|line| - 1] == '\r' then line[..|line| - 1] else line
  }

  function Chopped(lines: seq<string>): (r: seq<string>)
    ensures |r| == |lines| && forall i :: 0 <= i < |r| ==> r[i] == Chop(lines[i])
  {
    seq(|lines|, i requires 0 <= i < |lines| => Chop(lines[i]))
  }

  /** The line holds no break, or just the carriage return of a CRLF line end. */
  predicate Unbroken(line: string) {
    BreakFree(Chop(line))
  }

  predicate AllUnbroken(lines: seq<string>) {
    forall i :: 0 <= i < |lines| ==> Unbroken(lines[i])
  }

  lemma PartsAreUnbroken(a: seq<string>, b: seq<string>)
    requires AllUnbroken(a + b)
    ensures AllUnbroken(a) && AllUnbroken(b)
  {
    forall i | 0 <= i < |a|
      ensures Unbroken(a[i])
    {
      assert (a + b)[i] == a[i];
    }
    forall i | 0 <= i < |b|
      ensures Unbroken(b[i])
    {
      assert (a + b)[|a| + i] == b[i];
    }
  }

  lemma FreeIsUnbroken(line: string)
    requires BreakFree(line)
    ensures Chop(line) == line && Unbroken(line)
  {
  }

  lemma FirstOfLines(line: string, rest: string)
    requires Unbroken(line)
    ensures SplitLines(line + "\n" + rest) == [Chop(line)] + SplitLines(rest)
  {
    if Chop(line) == line {
      LineUpToBreak([], line, '\n', rest);
      assert [] + line == line;
    } else {
      LineUpToReturn(Chop(line), rest);
      assert line + "\n" + rest == Chop(line) + "\r\n" + rest;
    }
  }

  lemma JoinClosed(lines: seq<string>)
    requires lines != []
    ensures JoinLines(lines) + "\n"
         == lines[0] + "\n" + (if |lines| == 1 then "" else JoinLines(lines[1..]) + "\n")
  {
  }

  lemma ChoppedCons(lines: seq<string>)
    requires lines != []
    ensures Chopped(lines) == [Chop(lines[0])] + Chopped(lines[1..])
  {
  }

  /** Lines without breaks in them survive being written out, one newline after each, but for
      a carriage return at the end of a line. */
  lemma {:induction false} LinesRoundTrip(lines: seq<string>)
    requires AllUnbroken(lines)
    ensures lines != [] ==> SplitLines(JoinLines(lines) + "\n") == Chopped(lines)
  {
    if lines != [] {
      var rest := if |lines| == 1 then "" else JoinLines(lines[1..]) + "\n";
      assert AllUnbroken(lines[1..]);
      LinesRoundTrip(lines[1..]);
      JoinClosed(lines);
      FirstOfLines(lines[0], rest);
      ChoppedCons(lines);
    }
  }

  // ---- Searching ------------------------------------------------------------------

  predicate OccursAt(s: string, word: string, i: nat) {
    i + |word| <= |s| && s[i..i + |word|] == word
  }

  lemma OccursChar(s: string, word: string, i: nat, j: nat)
    requires j < |word|
    ensures OccursAt(s, word, i) ==> i + |word| <= |s| && s[i + j] == word[j]
  {
    if OccursAt(s, word, i) {
      assert s[i..i + |word|][j] == word[j];
    }
  }

  /** Python's `str.find`. */
  function Find(s: string, word: string): (r: Option<nat>)
    ensures r.Some? ==> OccursAt(s, word, r.value) && forall i :: 0 <= i < r.value ==> !OccursAt(s, word, i)
    ensures r.None? ==> forall i: nat :: !OccursAt(s, word, i)
  {
    FindFrom(s, word, 0)
  }

  function FindFrom(s: string, word: string, from: nat): (r: Option<nat>)
    requires forall i :: 0 <= i < from ==> !OccursAt(s, word, i)
    ensures r.Some? ==> OccursAt(s, word, r.value) && forall i :: 0 <= i < r.value ==> !OccursAt(s, word, i)
    ensures r.None? ==> forall i: nat :: !OccursAt(s, word, i)
    decreases |s| + 1 - from
  {
    if from + |word| > |s| then None
    else if OccursAt(s, word, from) then Some(from)
    else FindFrom(s, word, from + 1)
  }

  /** Python's `str.split(sep)`. */
  function SplitOn(s: string, sep: string): (pieces: seq<string>)
    requires sep != []
    ensures pieces != []
    decreases |s|
  {
    var i := Find(s, sep);
    if i.None? then [s] else [s[..i.value]] + SplitOn(s[i.value + |sep|..], sep)
  }

  /** Python's `sep.join`. */
  function Join(pieces: seq<string>, sep: string): string {
    if pieces == [] then []
    else if |pieces| == 1 then pieces[0]
    else pieces[0] + sep + Join(pieces[1..], sep)
  }

  lemma {:induction false} SplitOnRoundTrip(s: string, sep: string)
    requires sep != []
    ensures Join(SplitOn(s, sep), sep) == s
    ensures forall k, i: nat :: 0 <= k < |SplitOn(s, sep)| ==> !OccursAt(SplitOn(s, sep)[k], sep, i)
    decreases |s|
  {
    var i := Find(s, sep);
    if i.Some? {
      var head, tail := s[..i.value], s[i.value + |sep|..];
      SplitOnRoundTrip(tail, sep);
      assert s == head + sep + tail;
      forall j: nat
        ensures !OccursAt(head, sep, j)
      {
        if OccursAt(head, sep, j) {
          assert head[j..j + |sep|] == s[j..j + |sep|];
          assert OccursAt(s, sep, j);
        }
      }
      var rest := SplitOn(tail, sep);
      assert SplitOn(s, sep) == [head] + rest;
      assert ([head] + rest)[1..] == rest;
    }
  }

  // ---- Decimal numbers ------------------------------------------------------------

  predicate IsDigit(c: char) {
    '0' <= c <= '9'
  }

  /** How many digits `s` starts with. */
  function Digits(s: string): (n: nat)
    ensures n <= |s|
  {
    if s == [] || !IsDigit(s[0]) then 0 else 1 + Digits(s[1..])
  }

  function DigitValue(c: char): nat {
    if IsDigit(c) then c as nat - '0' as nat else 0
  }

  /** The number a string of digits denotes. */
  function ValueOf(s: string): nat {
    if s == [] then 0 else 10 * ValueOf(s[..|s| - 1]) + DigitValue(s[|s| - 1])
  }

  predicate AllDigits(s: string) {
    forall i :: 0 <= i < |s| ==> IsDigit(s[i])
  }

  function Decimal(n: nat): (s: string)
    ensures s != [] && AllDigits(s)
  {
    (if n < 10 then [] else Decimal(n / 10)) + ['0' + (n % 10) as char]
  }

  lemma {:induction false} DecimalRoundTrip(n: nat)
    ensures ValueOf(Decimal(n)) == n
  {
    var s := Decimal(n);
    if n < 10 {
      assert s == ['0' + n as char];
      assert s[..|s| - 1] == [];
    } else {
      DecimalRoundTrip(n / 10);
      assert s[..|s| - 1] == Decimal(n / 10);
    }
  }

  lemma {:induction false} DigitsOf(number: string, rest: string)
    requires AllDigits(number)
    requires rest == [] || !IsDigit(rest[0])
    ensures Digits(number + rest) == |number|
  {
    if number == [] {
      assert number + rest == rest;
    } else {
      assert (number + rest)[1..] == number[1..] + rest;
      DigitsOf(number[1..], rest);
    }
  }
}
