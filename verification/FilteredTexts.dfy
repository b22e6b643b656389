/** The text that filtering a diff leaves: which sections it has and what becomes of the lines
    in front of the first. */
module FilteredTexts {
  import opened Prelude
  import opened Text
  import opened FileHeaders
  import opened UnifiedDiffs
  import opened DiffFilters
  import opened FilteredPatches

  predicate IsHeaded(section: string) {
    StartsWith(section, FILE_HEADER)
  }

  lemma SectionsAreWhole(diff: string)
    ensures forall k :: 0 <= k < |Sections(diff)| ==> Whole(Sections(diff)[k])
    ensures forall k :: 1 <= k < |Sections(diff)| ==> IsHeaded(Sections(diff)[k])
  {
    SplitOnRoundTrip(diff, SECTION_BREAK);
    SectionAt(diff, 0);
    forall k | 1 <= k < |Sections(diff)|
      ensures Whole(Sections(diff)[k]) && IsHeaded(Sections(diff)[k])
    {
      SectionAt(diff, k);
      var raw := SplitOn(diff, SECTION_BREAK)[k];
      forall i: nat
        ensures !OccursAt(FILE_HEADER + raw, SECTION_BREAK, i)
      {
        HeaderShiftsCut(raw, i);
      }
    }
  }

  ghost predicate WholeAndHeaded(texts: seq<string>) {
    forall k :: 0 <= k < |texts| ==> Whole(texts[k]) && IsHeaded(texts[k])
  }

  /** Whole texts that are joined are cut apart again where they were joined. */
  lemma {:induction false} Rejoined(first: string, texts: seq<string>)
    requires Whole(first) && WholeAndHeaded(texts)
    ensures Sections(JoinLines([first] + texts)) == [first] + texts
    decreases |texts|
  {
    JoinCons(first, texts);
    if texts == [] {
      assert first + "" == first;
      assert Find(first, SECTION_BREAK) == None;
    } else {
      var rest := JoinLines(texts);
      assert texts == [texts[0]] + texts[1..];
      assert Whole(texts[0]) && IsHeaded(texts[0]);
      Rejoined(texts[0], texts[1..]);
      JoinCons(texts[0], texts[1..]);
      assert rest[..|FILE_HEADER|] == texts[0][..|FILE_HEADER|];
      var raw := rest[|FILE_HEADER|..];
      assert rest == FILE_HEADER + raw;
      SeparatorSplits(first, raw);
      CutAfterFirst(first, raw);
      HeaderShiftsPieces(raw);
    }
  }

  /** Stripping cuts all the newlines off the end, and nothing else. */
  lemma {:induction false} StrippedExactly(s: string)
    ensures var r := StripNewlines(s);
            && |r| <= |s| && r == s[..|r|] && (forall i :: |r| <= i < |s| ==> s[i] == '\n')
            && (r != "" ==> r[|r| - 1] != '\n')
    decreases |s|
  {
    if s != [] && s[|s| - 1] == '\n' {
      StrippedExactly(s[..|s| - 1]);
    }
  }

  lemma PrefixIsWhole(s: string, n: nat)
    requires Whole(s) && n <= |s|
    ensures Whole(s[..n])
  {
    forall i: nat
      ensures !OccursAt(s[..n], SECTION_BREAK, i)
    {
      PrefixOccurs(s, n, SECTION_BREAK, i);
    }
  }

  /** The text that is left, told by the sections it has: the kept ones, after the lines in
      front of them without their final newlines. When nothing is kept, those lines are left
      as they are. */
  ghost predicate LeavesText(first: string, kept: seq<string>, out: string) {
    if kept == [] then out == if IsHeaded(first) then "" else first
    else if IsHeaded(first) || first == "" then Sections(out) == kept
    else Sections(out) == [StripNewlines(first)] + kept
  }

  lemma KeptAreWhole(sections: seq<string>, skip: string -> bool)
    requires WholeAndHeaded(sections)
    ensures WholeAndHeaded(Kept(sections, skip))
  {
    var kept := Kept(sections, skip);
    forall k | 0 <= k < |kept|
      ensures Whole(kept[k]) && IsHeaded(kept[k])
    {
      assert kept[k] in kept;
    }
  }

  lemma AssembledText(first: string, kept: seq<string>)
    requires Whole(first) && WholeAndHeaded(kept)
    ensures LeavesText(first, kept, Assemble(if IsHeaded(first) then "" else first, JoinLines(kept)))
  {
    var body := JoinLines(kept);
    if kept != [] {
      assert kept == [kept[0]] + kept[1..] && Whole(kept[0]) && IsHeaded(kept[0]);
      Rejoined(kept[0], kept[1..]);
      JoinCons(kept[0], kept[1..]);
      assert body != "";
      if !IsHeaded(first) && first != "" {
        StrippedExactly(first);
        var r := StripNewlines(first);
        PrefixIsWhole(first, |r|);
        Rejoined(r, kept);
        JoinCons(r, kept);
        Associate(r, "\n", body);
      }
    }
  }

  /** What filtering leaves of any diff, for any predicate on paths. */
  lemma FilteredExactly(diff: string, skip: string -> bool)
    ensures LeavesText(Sections(diff)[0], Kept(HeadedSections(diff), skip), Filtered(diff, skip))
  {
    SectionsAreWhole(diff);
    KeptAreWhole(HeadedSections(diff), skip);
    AssembledText(Sections(diff)[0], Kept(HeadedSections(diff), skip));
    if diff == "" {
      SectionAt(diff, 0);
      assert SplitOn(diff, SECTION_BREAK) == [diff];
      assert Sections(diff) == [""];
    }
  }

  lemma {:induction false} AllKept(sections: seq<string>, skip: string -> bool)
    ensures |Kept(sections, skip)| <= |sections|
    ensures Kept(sections, skip) == sections <==> forall x :: x in sections ==> Survives(x, skip)
    ensures |Kept(sections, skip)| == |sections| ==> Kept(sections, skip) == sections
  {
    if sections != [] {
      KeptCons(sections, skip);
      AllKept(sections[1..], skip);
      assert sections == [sections[0]] + sections[1..];
    }
  }

  /** The diff has lines in front of its first header that joining does not give back: none,
      or lines that end in a newline. */
  predicate LoosePreamble(diff: string) {
    var first := Sections(diff)[0];
    !IsHeaded(first) && HeadedSections(diff) != [] && (first == "" || first[|first| - 1] == '\n')
  }

  /** A diff comes out unchanged exactly when no file is dropped and nothing loose stands in
      front of the first. */
  lemma UnchangedExactly(diff: string, skip: string -> bool)
    ensures Filtered(diff, skip) == diff <==>
              (forall x :: x in HeadedSections(diff) ==> Survives(x, skip)) && !LoosePreamble(diff)
  {
    var sections, headed, out := Sections(diff), HeadedSections(diff), Filtered(diff, skip);
    var first, kept := sections[0], Kept(headed, skip);
    FilteredExactly(diff, skip);
    SectionsRoundTrip(diff);
    SectionsRoundTrip(out);
    AllKept(headed, skip);
    StrippedExactly(first);
    assert sections == (if IsHeaded(first) then [] else [first]) + headed;
    assert kept == [] ==> JoinLines([first]) == first && (IsHeaded(first) ==> first != "");
    assert out == diff ==> Sections(out) == sections;
  }
}
