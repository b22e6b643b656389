/** The header lines of a git diff (`_extract_target_path`): how git writes the two paths of a
    file into a header, with its default quoting of unusual characters, and for which paths
    the header gives the new path back. */
module FileHeaders {
  import opened Prelude
  import opened Text
  import opened Reviews

  const FILE_HEADER := "diff --git "

  /** `_extract_target_path`: what follows the first " b/". */
  function TargetPath(line: string): Option<string> {
    var i := Find(line, " b/");
    if i.None? then None else Some(Strip(line[i.value + 3..]))
  }

  // ---- What git writes ------------------------------------------------------------

  /** Characters that make git quote a path: controls, quotes, backslashes, and all that take
      more than one byte. */
  predicate Quotable(c: char) {
    c < ' ' || c == '"' || c == '\\' || c >= '\U{7F}'
  }

  predicate NeedsQuote(path: string) {
    exists i :: 0 <= i < |path| && Quotable(path[i])
  }

  /** The bytes of a character in UTF-8, section 3 of RFC 3629. */
  function Utf8(c: char): seq<nat> {
    var n := c as int;
    if n < 0x80 then [n]
    else if n < 0x800 then [0xC0 + n / 0x40, 0x80 + n % 0x40]
    else if n < 0x1_0000 then [0xE0 + n / 0x1000, 0x80 + n / 0x40 % 0x40, 0x80 + n % 0x40]
    else [0xF0 + n / 0x4_0000, 0x80 + n / 0x1000 % 0x40, 0x80 + n / 0x40 % 0x40, 0x80 + n % 0x40]
  }

  function OctalDigit(n: nat): char {
    '0' + (n % 8) as char
  }

  function Octal(bytes: seq<nat>): string {
    if bytes == [] then []
    else ['\\', OctalDigit(bytes[0] / 64), OctalDigit(bytes[0] / 8), OctalDigit(bytes[0])] + Octal(bytes[1..])
  }

  /** One character between the quotes. */
  function QuoteChar(c: char): string {
    match c
    case '\U{07}' => "\\a"
    case '\U{08}' => "\\b"
    case '\t' => "\\t"
    case '\n' => "\\n"
    case '\U{0B}' => "\\v"
    case '\U{0C}' => "\\f"
    case '\r' => "\\r"
    case '"' => "\\\""
    case '\\' => "\\\\"
    case _ => if Quotable(c) then Octal(Utf8(c)) else [c]
  }

  function Escaped(path: string): string {
    if path == [] then [] else QuoteChar(path[0]) + Escaped(path[1..])
  }

  function Quoted(path: string): string {
    if NeedsQuote(path) then "\"" + Escaped(path) + "\"" else path
  }

  /** The header of a file that was `from` and is `path`; the two differ for a renamed file. */
  function GitHeader(from: string, path: string): string {
    FILE_HEADER + Quoted("a/" + from) + " " + Quoted("b/" + path)
  }

  // ---- Texts without a target -----------------------------------------------------

  /** The text has no " b/" in it. */
  ghost predicate Free(s: string) {
    forall i: nat :: !OccursAt(s, " b/", i)
  }

  /** Two texts without a target make no target where they meet. */
  lemma FreeJoin(a: string, b: string)
    requires Free(a) && Free(b)
    requires b == "" || (b[0] != 'b' && b[0] != '/') || a == "" || (a[|a| - 1] != ' ' && a[|a| - 1] != 'b')
    ensures Free(a + b)
  {
    var s, word := a + b, " b/";
    forall i: nat
      ensures !OccursAt(s, word, i)
    {
      if i + 3 <= |a| {
        assert s[i..i + 3] == a[i..i + 3];
        assert !OccursAt(a, word, i);
      } else if i >= |a| {
        assert i + 3 <= |s| ==> s[i..i + 3] == b[i - |a|..i - |a| + 3];
        assert !OccursAt(b, word, i - |a|);
      } else {
        OccursChar(s, word, i, |a| - i);
        OccursChar(s, word, i, |a| - i - 1);
      }
    }
  }

  lemma FreePieces()
    ensures Free(FILE_HEADER + "a/") && Free(FILE_HEADER + "\"a/") && Free("\"") && Free("b/") && Free(" \"b/")
  {
    forall i: nat, s: string | s in [FILE_HEADER + "a/", FILE_HEADER + "\"a/", "\"", "b/", " \"b/"]
      ensures !OccursAt(s, " b/", i)
    {
      OccursChar(s, " b/", i, 0);
      OccursChar(s, " b/", i, 1);
    }
  }

  /** The first target starts where the free part ends. */
  lemma FirstTarget(left: string, rest: string)
    requires Free(left)
    ensures Find(left + " b/" + rest, " b/") == Some(|left|)
  {
    var s := left + " b/" + rest;
    forall i | 0 <= i < |left|
      ensures !OccursAt(s, " b/", i)
    {
      if i + 3 <= |left| {
        assert s[i..i + 3] == left[i..i + 3];
        assert !OccursAt(left, " b/", i);
      } else {
        OccursChar(s, " b/", i, |left| - i);
      }
    }
    assert s[|left|..|left| + 3] == " b/";
    assert OccursAt(s, " b/", |left|);
  }

  // ---- What quoting does to a path ------------------------------------------------

  lemma QuotedChar(c: char)
    ensures var q := QuoteChar(c);
            && (if Quotable(c) then |q| >= 2 && q[0] == '\\' else q == [c])
            && forall i :: 0 <= i < |q| ==> ' ' <= q[i] <= '~' && (Quotable(c) ==> q[i] != ' ')
  {
    if Quotable(c) {
      OctalIsPlain(Utf8(c));
    }
  }

  lemma {:induction false} OctalIsPlain(bytes: seq<nat>)
    ensures |Octal(bytes)| == 4 * |bytes| && (bytes != [] ==> Octal(bytes)[0] == '\\')
    ensures forall i :: 0 <= i < |Octal(bytes)| ==> ' ' < Octal(bytes)[i] <= '~'
  {
    if bytes != [] {
      OctalIsPlain(bytes[1..]);
    }
  }

  lemma {:induction false} EscapedShape(path: string)
    ensures |Escaped(path)| >= |path| + (if NeedsQuote(path) then 1 else 0)
    ensures forall i :: 0 <= i < |Escaped(path)| ==> ' ' <= Escaped(path)[i] <= '~'
    ensures !NeedsQuote(path) ==> Escaped(path) == path
  {
    if path != [] {
      QuotedChar(path[0]);
      EscapedShape(path[1..]);
      assert !NeedsQuote(path) ==> !Quotable(path[0]) && !NeedsQuote(path[1..]);
      assert NeedsQuote(path) ==> Quotable(path[0]) || NeedsQuote(path[1..]);
    }
  }

  lemma {:induction false} EscapedConcat(a: string, b: string)
    ensures Escaped(a + b) == Escaped(a) + Escaped(b)
  {
    if a == [] {
      assert a + b == b;
    } else {
      assert (a + b)[0] == a[0] && (a + b)[1..] == a[1..] + b;
      EscapedConcat(a[1..], b);
    }
  }

  lemma EscapedStart(path: string, c: char)
    requires Escaped(path) != [] && Escaped(path)[0] == c && c != '\\'
    ensures path != [] && path[0] == c && Escaped(path) == [c] + Escaped(path[1..])
  {
    QuotedChar(path[0]);
  }

  lemma {:induction false} EscapedTarget(path: string, i: nat) returns (j: nat)
    requires OccursAt(Escaped(path), " b/", i)
    ensures OccursAt(path, " b/", j)
  {
    var q, rest, e := QuoteChar(path[0]), Escaped(path[1..]), Escaped(path);
    QuotedChar(path[0]);
    OccursChar(e, " b/", i, 0);
    OccursChar(e, " b/", i, 1);
    OccursChar(e, " b/", i, 2);
    if i >= |q| {
      assert e[i..i + 3] == rest[i - |q|..i - |q| + 3];
      j := EscapedTarget(path[1..], i - |q|);
      assert path[1..][j..j + 3] == path[1 + j..1 + j + 3];
      j := 1 + j;
    } else {
      assert i == 0 && path[0] == ' ' && e == [' '] + rest && rest[0] == 'b' && rest[1] == '/';
      TargetInFront(path);
      j := 0;
    }
  }

  lemma TargetInFront(path: string)
    requires path != [] && path[0] == ' '
    requires var rest := Escaped(path[1..]); |rest| >= 2 && rest[0] == 'b' && rest[1] == '/'
    ensures OccursAt(path, " b/", 0)
  {
    EscapedStart(path[1..], 'b');
    assert path[1..][1..] == path[2..] && Escaped(path[1..]) == ['b'] + Escaped(path[2..]);
    EscapedStart(path[2..], '/');
    assert path[0..3] == [path[0], path[1], path[2]];
  }

  /** Quoting brings no target into a path. */
  lemma EscapedIsFree(path: string)
    requires Free(path)
    ensures Free(Escaped(path))
  {
    forall i: nat
      ensures !OccursAt(Escaped(path), " b/", i)
    {
      if OccursAt(Escaped(path), " b/", i) {
        var j := EscapedTarget(path, i);
      }
    }
  }

  // ---- Which headers are read back ------------------------------------------------

  lemma QuotedSide(side: char, path: string)
    requires side == 'a' || side == 'b'
    ensures Quoted([side] + "/" + path)
         == if NeedsQuote(path) then "\"" + ([side] + "/" + Escaped(path)) + "\"" else [side] + "/" + path
  {
    var front := [side] + "/";
    EscapedConcat(front, path);
    EscapedShape(front);
    assert front[0] == side && front[1] == '/' && |front| == 2;
    assert !NeedsQuote(front);
    if NeedsQuote(path) {
      var i :| 0 <= i < |path| && Quotable(path[i]);
      assert Quotable((front + path)[2 + i]);
    } else {
      assert forall i :: 0 <= i < |front + path| ==> (front + path)[i] == if i < 2 then front[i] else path[i - 2];
    }
  }

  /** Everything in front of the blank between the two paths. */
  function Left(from: string): string {
    FILE_HEADER + Quoted("a/" + from)
  }

  lemma LeftParts(from: string) returns (front: string, core: string, back: string)
    ensures Left(from) == front + core + back && Free(front) && Free(back)
    ensures front != "" && front[|front| - 1] == '/' && (back == "" || back[0] == '"')
    ensures core == if NeedsQuote(from) then Escaped(from) else from
  {
    FreePieces();
    QuotedSide('a', from);
    assert ['a'] + "/" == "a/";
    if NeedsQuote(from) {
      front, core, back := FILE_HEADER + "\"a/", Escaped(from), "\"";
      Wrapped(FILE_HEADER, "\"", "a/", core);
    } else {
      front, core, back := FILE_HEADER + "a/", from, "";
      Wrapped(FILE_HEADER, "", "a/", core);
    }
  }

  lemma Wrapped(header: string, quote: string, side: string, core: string)
    ensures header + (quote + (side + core) + quote) == (header + (quote + side)) + core + quote
  {
  }

  lemma LeftIsFree(from: string)
    requires Free(from)
    ensures Free(Left(from))
  {
    var front, core, back := LeftParts(from);
    EscapedIsFree(from);
    FreeJoin(front, core);
    FreeJoin(front + core, back);
  }

  lemma TargetAt(s: string, front: string, back: string)
    requires s == front + " b/" + back
    ensures OccursAt(s, " b/", |front|)
  {
    assert s[|front|..|front| + 3] == " b/";
  }

  /** Quoting keeps every target of a path. */
  lemma EscapedSplits(v: string, u: string)
    ensures Escaped(v + " b/" + u) == Escaped(v) + " b/" + Escaped(u)
  {
    EscapedConcat(v + " b/", u);
    EscapedConcat(v, " b/");
    EscapedShape(" b/");
    assert !NeedsQuote(" b/");
  }

  lemma TargetBetween(a: string, b: string, c: string, d: string)
    ensures a + (b + " b/" + c) + d == (a + b) + " b/" + (c + d)
  {
  }

  lemma LeftHasTarget(from: string, i: nat) returns (j: nat)
    requires OccursAt(from, " b/", i)
    ensures OccursAt(Left(from), " b/", j)
  {
    var v, u := from[..i], from[i + 3..];
    assert from == v + " b/" + u;
    var front, core, back := LeftParts(from);
    EscapedSplits(v, u);
    if NeedsQuote(from) {
      v, u := Escaped(v), Escaped(u);
    }
    TargetBetween(front, v, u, back);
    TargetAt(Left(from), front + v, u + back);
    j := |front + v|;
  }

  /** A header with an unquoted new path, read from its first target. */
  lemma UnquotedIsTarget(from: string, path: string)
    requires Free(from) && !NeedsQuote(path)
    ensures TargetPath(GitHeader(from, path)) == Some(Strip(path))
  {
    LeftIsFree(from);
    QuotedSide('b', path);
    assert ['b'] + "/" == "b/";
    assert GitHeader(from, path) == Left(from) + " b/" + path;
    FirstTarget(Left(from), path);
  }

  lemma QuotedRestIsLong(y: string, q: string)
    requires q != "" && q[0] == '"' && q[|q| - 1] == '"'
    ensures |Strip(y + (" " + q))| >= |q|
  {
    var t := y + (" " + q);
    var a := StripShape(t);
    assert t[|y| + 1] == '"' && t[|t| - 1] == '"';
  }

  lemma PlainRestIsLong(y: string, path: string)
    ensures Strip(y + (" " + ("b/" + path))) != path
  {
    var t := y + (" " + ("b/" + path));
    var a := StripShape(t);
    assert t[|y| + 2] == '/';
    assert path != "" ==> t[|t| - 1] == path[|path| - 1];
  }

  /** What is left of the header when the old path has a target in it is too long to strip
      down to the new path. */
  lemma LongRestIsNotPath(y: string, path: string)
    ensures Strip(y + (" " + Quoted("b/" + path))) != path
  {
    QuotedSide('b', path);
    assert ['b'] + "/" == "b/";
    if NeedsQuote(path) {
      EscapedShape(path);
      QuotedRestIsLong(y, Quoted("b/" + path));
    } else {
      PlainRestIsLong(y, path);
    }
  }

  lemma FoundInFront(left: string, right: string, j: nat) returns (k: nat)
    requires OccursAt(left, " b/", j)
    ensures k + 3 <= |left| && Find(left + right, " b/") == Some(k)
    ensures (left + right)[k + 3..] == left[k + 3..] + right
  {
    var s := left + right;
    assert s[j..j + 3] == left[j..j + 3];
    assert OccursAt(s, " b/", j);
    k := Find(s, " b/").value;
  }

  lemma HeaderParts(from: string, path: string)
    ensures GitHeader(from, path) == Left(from) + (" " + Quoted("b/" + path))
  {
  }

  lemma OldTargetComesFirst(from: string, path: string, i: nat)
    requires OccursAt(from, " b/", i)
    ensures TargetPath(GitHeader(from, path)) != Some(path)
  {
    HeaderParts(from, path);
    var j := LeftHasTarget(from, i);
    var k := FoundInFront(Left(from), " " + Quoted("b/" + path), j);
    LongRestIsNotPath(Left(from)[k + 3..], path);
  }

  lemma FreeFour(a: string, b: string, c: string, d: string)
    requires Free(a) && Free(b) && Free(c) && Free(d) && b != "" && d != ""
    requires b[0] != 'b' && b[0] != '/' && b[|b| - 1] == '/' && d[0] == '"'
    ensures Free(a + b + c + d)
  {
    FreeJoin(a, b);
    FreeJoin(a + b, c);
    FreeJoin(a + b + c, d);
  }

  lemma Flatten(left: string, blank: string, quote: string, side: string, e: string)
    ensures left + blank + (quote + (side + e) + quote) == left + (blank + quote + side) + e + quote
  {
  }

  lemma QuotedRight(from: string, path: string)
    requires NeedsQuote(path)
    ensures GitHeader(from, path) == Left(from) + " \"b/" + Escaped(path) + "\""
  {
    QuotedSide('b', path);
    assert ['b'] + "/" == "b/" && " \"b/" == " " + "\"" + "b/";
    Flatten(Left(from), " ", "\"", "b/", Escaped(path));
  }

  /** A header with a quoted new path has no target unless one of the paths holds one. */
  lemma QuotedHeaderNamesNothing(from: string, path: string)
    requires Free(from) && Free(path) && NeedsQuote(path)
    ensures TargetPath(GitHeader(from, path)) == None
  {
    FreePieces();
    LeftIsFree(from);
    EscapedIsFree(path);
    QuotedRight(from, path);
    FreeFour(Left(from), " \"b/", Escaped(path), "\"");
  }

  /** The path up to and from its last target. */
  lemma LastTarget(path: string, i: nat) returns (v: string, u: string)
    requires OccursAt(path, " b/", i)
    ensures path == v + " b/" + u && Free(u)
    decreases |path|
  {
    v, u := path[..i], path[i + 3..];
    if j: nat :| OccursAt(u, " b/", j) {
      var w: string;
      w, u := LastTarget(u, j);
      v := v + " b/" + w;
    }
  }

  /** A text that ends in `long`, and also in a shorter text with a target in front, has that
      target in `long` or right before it. */
  lemma TargetNearEnd(s: string, head: string, long: string, w: string, short: string) returns (k: nat)
    requires s == head + " " + long && s == w + " b/" + short && |short| + 3 <= |long|
    ensures OccursAt(long, " b/", k)
  {
    k := |long| - |short| - 3;
    var n := |head| + 1;
    assert n + k == |w| && s[n + k..n + k + 3] == " b/";
    assert long[k..k + 3] == s[n + k..n + k + 3];
  }

  lemma AfterTarget(a: string, b: string, c: string)
    ensures a + (b + " b/" + c) + "\"" == (a + b) + " " + ("b/" + c + "\"")
  {
    assert " b/" == " " + "b/";
  }

  lemma TargetInside(a: string, b: string, c: string)
    ensures a + (b + " b/" + c) == (a + b) + " b/" + c
  {
  }

  lemma LongIsFree(u: string)
    requires Free(u)
    ensures Free("b/" + Escaped(u) + "\"")
  {
    FreePieces();
    EscapedIsFree(u);
    FreeJoin("b/", Escaped(u));
    FreeJoin("b/" + Escaped(u), "\"");
  }

  /** Stripping a text that ends in a quote cuts nothing off its end. */
  lemma EndsInQuote(s: string, n: nat)
    requires n <= |s| && s != "" && s[|s| - 1] == '"'
    ensures var r := Strip(s[n..]); |r| <= |s| && s[|s| - |r|..] == r
  {
    var t := s[n..];
    var a := StripShape(t);
    if t != "" {
      assert t[|t| - 1] == '"';
      assert a + |Strip(t)| == |t|;
      assert t[a..] == s[n + a..];
    }
  }

  lemma NotItsEnd(s: string, n: nat, head: string, long: string, path: string, v: string, u: string)
    requires n <= |s| && s != "" && s[|s| - 1] == '"' && s == head + " " + long && Free(long)
    requires path == v + " b/" + u && |u| + 3 <= |long|
    ensures Strip(s[n..]) != path
  {
    EndsInQuote(s, n);
    if Strip(s[n..]) == path {
      TargetInside(s[..|s| - |path|], v, u);
      var k := TargetNearEnd(s, head, long, s[..|s| - |path|] + v, u);
    }
  }

  lemma QuotedWithTarget(from: string, path: string, v: string, u: string)
    requires NeedsQuote(path) && path == v + " b/" + u && Free(u)
    ensures TargetPath(GitHeader(from, path)) != Some(path)
  {
    var s := GitHeader(from, path);
    var front, long := Left(from) + " \"b/", "b/" + Escaped(u) + "\"";
    QuotedRight(from, path);
    EscapedSplits(v, u);
    EscapedShape(u);
    AfterTarget(front, Escaped(v), Escaped(u));
    LongIsFree(u);
    var i := Find(s, " b/");
    if i.Some? {
      NotItsEnd(s, i.value + 3, front + Escaped(v), long, path, v, u);
    }
  }

  /** A quoted path is never read back: what the header gives ends in a quote and has too
      much text after its last target. */
  lemma QuotedIsNotTarget(from: string, path: string)
    requires NeedsQuote(path)
    ensures TargetPath(GitHeader(from, path)) != Some(path)
  {
    if i: nat :| OccursAt(from, " b/", i) {
      OldTargetComesFirst(from, path, i);
    } else if i: nat :| OccursAt(path, " b/", i) {
      var v, u := LastTarget(path, i);
      QuotedWithTarget(from, path, v, u);
    } else {
      QuotedHeaderNamesNothing(from, path);
    }
  }

  /** A git header names its file: the new path is read back if and only if git does not
      quote it, it has no blanks around it, and the old path has no " b/" in it. */
  lemma GitHeaderExactly(from: string, path: string)
    ensures TargetPath(GitHeader(from, path)) == Some(path) <==>
              !NeedsQuote(path) && Strip(path) == path && Free(from)
  {
    if NeedsQuote(path) {
      QuotedIsNotTarget(from, path);
    } else if i: nat :| OccursAt(from, " b/", i) {
      OldTargetComesFirst(from, path, i);
    } else {
      UnquotedIsTarget(from, path);
    }
  }

  const ACCENTED := "\U{E9}"

  lemma AccentedIsEscaped()
    ensures NeedsQuote(ACCENTED) && Escaped(ACCENTED) == "\\303\\251"
  {
    assert Quotable(ACCENTED[0]) && ACCENTED[1..] == [];
    assert Utf8(ACCENTED[0]) == [0xC3, 0xA9] && [0xC3, 0xA9][1..] == [0xA9] && [0xA9][1..] == [];
    assert Octal([0xA9]) == "\\251";
    assert Octal([0xC3, 0xA9]) == "\\303\\251";
  }

  lemma AccentedIsFree()
    ensures Free(ACCENTED)
  {
    assert |ACCENTED| == 1;
  }

  /** So a file whose name has an accent in it stays nameless. */
  lemma AccentedNameIsLost()
    ensures TargetPath(GitHeader(ACCENTED, ACCENTED)) == None
  {
    AccentedIsEscaped();
    AccentedIsFree();
    QuotedHeaderNamesNothing(ACCENTED, ACCENTED);
  }

  /** Whatever the paths are, the header is one line and starts like one. */
  lemma GitHeaderShape(from: string, path: string)
    ensures StartsWith(GitHeader(from, path), FILE_HEADER) && BreakFree(GitHeader(from, path))
  {
    QuotedIsBreakFree("a/" + from);
    QuotedIsBreakFree("b/" + path);
    assert BreakFree(FILE_HEADER) && BreakFree(" ");
    BreakFreeJoins(FILE_HEADER, Quoted("a/" + from));
    BreakFreeJoins(FILE_HEADER + Quoted("a/" + from), " ");
    BreakFreeJoins(FILE_HEADER + Quoted("a/" + from) + " ", Quoted("b/" + path));
    assert GitHeader(from, path) == FILE_HEADER + (Quoted("a/" + from) + " " + Quoted("b/" + path));
  }

  lemma QuotedIsBreakFree(path: string)
    ensures BreakFree(Quoted(path))
  {
    EscapedShape(path);
    forall i | 0 <= i < |Quoted(path)|
      ensures !IsLineBreak(Quoted(path)[i])
    {
      if NeedsQuote(path) {
        assert Quoted(path)[i] == if i == 0 || i == |Quoted(path)| - 1 then '"' else Escaped(path)[i - 1];
      } else {
        assert !Quotable(path[i]);
      }
    }
  }
}
