/** What a reviewer reports, and when a turn ends a stage (`_finding_key`,
    `_reached_consensus`). */
module Reviews {

  datatype Severity = Critical | High | Medium | Low | Info

  datatype Verdict = Approve | RequestChanges | Comment

  datatype Finding = Finding(file: string, line: int, severity: Severity, title: string, body: string)

  datatype Review = Review(verdict: Verdict, noFurtherConcerns: bool, findings: seq<Finding>)

  /** What identifies a finding across turns: file, line, and title up to case and
      surrounding blanks. */
  datatype FindingKey = FindingKey(file: string, line: int, title: string)

  predicate IsBlank(c: char) {
    c == ' ' || '\t' <= c <= '\r' || '\U{1C}' <= c <= '\U{1F}' || c == '\U{85}' || c == '\U{A0}'
    || c == '\U{1680}' || '\U{2000}' <= c <= '\U{200A}' || c == '\U{2028}' || c == '\U{2029}'
    || c == '\U{202F}' || c == '\U{205F}' || c == '\U{3000}'
  }

  /** The 29 characters that Python takes for blanks, by code point. */
  lemma BlanksListed(c: char)
    ensures IsBlank(c) <==> c as int in {9, 10, 11, 12, 13, 28, 29, 30, 31, 32, 133, 160, 5760, 8192, 8193, 8194, 8195,
              8196, 8197, 8198, 8199, 8200, 8201, 8202, 8232, 8233, 8239, 8287, 12288}
  {
  }

  function StripLeft(s: string): string {
    if s != [] && IsBlank(s[0]) then StripLeft(s[1..]) else s
  }

  function StripRight(s: string): string {
    if s != [] && IsBlank(s[|s| - 1]) then StripRight(s[..|s| - 1]) else s
  }

  /** Python's `str.strip`. */
  function Strip(s: string): string {
    StripRight(StripLeft(s))
  }

  lemma {:induction false} StripLeftShape(s: string)
    ensures var n := |s| - |StripLeft(s)|;
            && n >= 0 && StripLeft(s) == s[n..] && (forall i :: 0 <= i < n ==> IsBlank(s[i]))
            && (n < |s| ==> !IsBlank(s[n]))
  {
    if s != [] && IsBlank(s[0]) {
      StripLeftShape(s[1..]);
      assert forall i :: 1 <= i < |s| ==> s[i] == s[1..][i - 1];
    }
  }

  lemma {:induction false} StripRightShape(s: string)
    ensures var r := StripRight(s);
            && |r| <= |s| && r == s[..|r|] && (r != [] ==> !IsBlank(r[|r| - 1]))
            && forall i :: |r| <= i < |s| ==> IsBlank(s[i])
    decreases |s|
  {
    if s != [] && IsBlank(s[|s| - 1]) {
      StripRightShape(s[..|s| - 1]);
      assert forall i :: 0 <= i < |s| - 1 ==> s[i] == s[..|s| - 1][i];
    }
  }

  /** Stripping cuts blanks off both ends, and the result starts and ends in no blank. */
  lemma StripShape(s: string) returns (a: nat)
    ensures a + |Strip(s)| <= |s| && Strip(s) == s[a..a + |Strip(s)|]
    ensures forall i :: 0 <= i < a || a + |Strip(s)| <= i < |s| ==> IsBlank(s[i])
    ensures Strip(s) != [] ==> !IsBlank(Strip(s)[0]) && !IsBlank(Strip(s)[|Strip(s)| - 1])
  {
    var left := StripLeft(s);
    StripLeftShape(s);
    StripRightShape(left);
    a := |s| - |left|;
    assert forall i :: a <= i < |s| ==> s[i] == left[i - a];
  }

  /** Python's `str.lower` on the letters A to Z. */
  function Lower(s: string): string {
    seq(|s|, i requires 0 <= i < |s| => if 'A' <= s[i] <= 'Z' then s[i] - 'A' + 'a' else s[i])
  }

  function KeyOf(f: Finding): FindingKey {
    FindingKey(f.file, f.line, Lower(Strip(f.title)))
  }

  function Keys(findings: seq<Finding>): set<FindingKey> {
    set f | f in findings :: KeyOf(f)
  }

  predicate Severe(s: Severity) {
    s == Critical || s == High
  }

  /** An explicit all-clear, an approval that lists nothing severe, or nothing new. */
  predicate ReachedConsensus(review: Review, prior: set<FindingKey>) {
    || review.noFurtherConcerns
    || (review.verdict == Approve && forall f :: f in review.findings ==> !Severe(f.severity))
    || Keys(review.findings) - prior == {}
  }

  // ---- When two findings are the same ---------------------------------------------

  /** The text of `s` between its outer blanks is the `n` characters from `i` on. */
  ghost predicate Inner(s: string, i: nat, n: nat) {
    && i + n <= |s|
    && (forall k :: 0 <= k < i || i + n <= k < |s| ==> IsBlank(s[k]))
    && (n > 0 ==> !IsBlank(s[i]) && !IsBlank(s[i + n - 1]))
  }

  /** The same character, or a letter A to Z and its lower-case form. */
  predicate SameLetter(c: char, d: char) {
    c == d
    || ('A' <= c <= 'Z' && d as int == c as int + 32)
    || ('A' <= d <= 'Z' && c as int == d as int + 32)
  }

  predicate SameText(a: string, b: string) {
    |a| == |b| && forall k :: 0 <= k < |a| ==> SameLetter(a[k], b[k])
  }

  /** The titles are equal up to case and surrounding blanks. */
  ghost predicate SameTitle(a: string, b: string) {
    exists i: nat, j: nat, m: nat, n: nat :: Inner(a, i, m) && Inner(b, j, n) && SameText(a[i..i + m], b[j..j + n])
  }

  ghost predicate SameFinding(f: Finding, g: Finding) {
    f.file == g.file && f.line == g.line && SameTitle(f.title, g.title)
  }

  lemma InnerIsStrip(s: string, i: nat, n: nat)
    requires Inner(s, i, n)
    ensures Strip(s) == s[i..i + n]
  {
    var a := StripShape(s);
    var m := |Strip(s)|;
    if n > 0 {
      assert !(0 <= i < a || a + m <= i < |s|) && !(0 <= i + n - 1 < a || a + m <= i + n - 1 < |s|);
    }
    if m > 0 {
      assert Strip(s)[0] == s[a] && Strip(s)[m - 1] == s[a + m - 1];
    }
  }

  lemma LowerIsSame(a: string, b: string)
    ensures Lower(a) == Lower(b) <==> SameText(a, b)
  {
    if Lower(a) == Lower(b) {
      assert |a| == |Lower(a)| == |Lower(b)| == |b|;
      forall k | 0 <= k < |a|
        ensures SameLetter(a[k], b[k])
      {
        assert Lower(a)[k] == Lower(b)[k];
      }
    } else if |a| == |b| {
      assert exists k :: 0 <= k < |a| && Lower(a)[k] != Lower(b)[k];
    }
  }

  /** Two findings have one key exactly when they name the same file and line, and the same
      title up to case and surrounding blanks. */
  lemma KeysIdentify(f: Finding, g: Finding)
    ensures KeyOf(f) == KeyOf(g) <==> SameFinding(f, g)
  {
    var i := StripShape(f.title);
    var j := StripShape(g.title);
    var a, b := f.title, g.title;
    LowerIsSame(Strip(a), Strip(b));
    assert Inner(a, i, |Strip(a)|) && Inner(b, j, |Strip(b)|);
    if SameTitle(a, b) {
      var i': nat, j': nat, m: nat, n: nat :| Inner(a, i', m) && Inner(b, j', n)
        && SameText(a[i'..i' + m], b[j'..j' + n]);
      InnerIsStrip(a, i', m);
      InnerIsStrip(b, j', n);
    }
  }
}
