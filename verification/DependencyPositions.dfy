/** The dependency parser's answer without its search and its scan: which numbers an issue body names
    as blockers, by positions in its lines. */
module DependencyPositions {
  import opened Prelude
  import opened RustStr
  import opened Utf8
  import opened Dependencies

  /** `needle` starts at `i`, and nowhere before. */
  ghost predicate IsFirst(text: Text, needle: Text, i: nat) {
    OccursAt(text, needle, i) && forall k :: 0 <= k < i ==> !OccursAt(text, needle, k)
  }

  ghost predicate Contains(text: Text, needle: Text) {
    exists i :: OccursAt(text, needle, i)
  }

  /** The reference at `[i, j)` stands behind `offset`, and no clause ends between them. */
  ghost predicate IsInClause(line: Text, offset: nat, i: nat, j: nat, n: int) {
    offset < i && IsReference(line, i, j, n) && forall p :: offset <= p < j ==> !TerminatorAt(line, p)
  }

  ghost predicate HasInClause(line: Text, offset: nat, n: int) {
    exists i, j :: IsInClause(line, offset, i, j, n)
  }

  ghost predicate HasReference(line: Text, n: int) {
    exists i, j :: IsReference(line, i, j, n)
  }

  /** The line names `n` as a blocker: behind its first "blocked by", in any case, before the clause
      ends; or, without that phrase, anywhere in an open checklist item that says "blocked" or "must". */
  ghost predicate NamesInLine(line: Text, n: int) {
    if Contains(Lower(line), BlockedBy()) then
      exists offset :: IsFirst(Lower(line), BlockedBy(), offset) && HasInClause(line, offset, n)
    else
      && OccursAt(line, Ascii("- [ ]"), 0)
      && (Contains(Lower(line), Ascii("blocked")) || Contains(Lower(line), Ascii("must")))
      && HasReference(line, n)
  }

  lemma OccursShifted(text: Text, needle: Text, offset: nat, i: nat)
    requires offset <= |text|
    ensures OccursAt(text[offset..], needle, i) <==> OccursAt(text, needle, offset + i)
  {
    if offset + i + |needle| <= |text| {
      assert text[offset..][i..i + |needle|] == text[offset + i..offset + i + |needle|];
    }
  }

  lemma OneOccursShifted(text: Text, phrases: seq<Text>, offset: nat, i: nat)
    requires offset <= |text|
    ensures OneOccursAt(text[offset..], phrases, i) <==> OneOccursAt(text, phrases, offset + i)
  {
    forall p | 0 <= p < |phrases|
      ensures OccursAt(text[offset..], phrases[p], i) <==> OccursAt(text, phrases[p], offset + i)
    {
      OccursShifted(text, phrases[p], offset, i);
    }
  }

  lemma TerminatorShifted(line: Text, offset: nat, i: nat)
    requires offset <= |line|
    ensures TerminatorAt(line[offset..], i) <==> TerminatorAt(line, offset + i)
  {
    OneOccursShifted(line, EndMarks(), offset, i);
    assert Lower(line[offset..]) == Lower(line)[offset..];
    OneOccursShifted(Lower(line), EndPhrases(), offset, i);
  }

  /** What ends a clause starts with a dot, a semicolon or a space. */
  lemma TerminatorStarts(line: Text, p: nat)
    requires TerminatorAt(line, p)
    ensures p < |line| && line[p] in {DOT, SEMICOLON, SPACE}
  {
    EndsStartInAscii();
    assert EndMarks()[0][0] == DOT && EndMarks()[1][0] == SEMICOLON;
    assert EndPhrases()[0][0] == SPACE && EndPhrases()[1][0] == SPACE && EndPhrases()[2][0] == SPACE;
    if OneOccursAt(line, EndMarks(), p) {
      var k :| 0 <= k < |EndMarks()| && OccursAt(line, EndMarks()[k], p);
      assert line[p] == EndMarks()[k][0];
    } else {
      var k :| 0 <= k < |EndPhrases()| && OccursAt(Lower(line), EndPhrases()[k], p);
      assert Lower(line)[p] == EndPhrases()[k][0];
    }
  }

  lemma NoTerminatorShifted(line: Text, offset: nat, n: nat)
    requires offset <= |line| && forall i :: 0 <= i < n ==> !TerminatorAt(line[offset..], i)
    ensures forall p :: offset <= p < offset + n ==> !TerminatorAt(line, p)
  {
    forall p | offset <= p < offset + n
      ensures !TerminatorAt(line, p)
    {
      TerminatorShifted(line, offset, p - offset);
    }
  }

  lemma CutShifted(line: Text, offset: nat, n: nat, to: nat)
    requires offset <= |line| && IsCut(line[offset..], 0, n) && to == offset + n
    ensures IsCut(line, offset, to)
  {
    NoTerminatorShifted(line, offset, n);
    TerminatorShifted(line, offset, n);
  }

  lemma PrefixOfRest(line: Text, offset: nat, part: Text)
    requires offset <= |line| && part <= line[offset..]
    ensures part == line[offset..offset + |part|]
  {
  }

  /** A clause is the rest of the line up to the first phrase that ends it. */
  lemma ClauseIsCutAtItsEnd(line: Text, offset: nat) returns (to: nat)
    requires WellFormed(line) && offset <= |line| && IsCharBoundary(line, offset)
    ensures offset <= to <= |line| && ClauseFrom(line, offset) == line[offset..to]
    ensures IsCut(line, offset, to)
  {
    var part := ClauseFrom(line, offset);
    to := offset + |part|;
    PrefixOfRest(line, offset, part);
    CutShifted(line, offset, |part|, to);
  }

  /** Cutting a line around a reference keeps the reference. */
  lemma ReferenceInPart(line: Text, from: nat, to: nat, i: nat, j: nat, n: int)
    requires from <= to <= |line| && (to < |line| ==> !IsDigit(line[to])) && 0 < i < j <= to - from
    ensures IsReference(line[from..to], i, j, n) <==> IsReference(line, from + i, from + j, n)
  {
    var part := line[from..to];
    SliceOfSlice(line, from, to, i, j);
    assert part[i - 1] == line[from + i - 1];
    assert forall k :: i <= k < j ==> part[k] == line[from + k];
    assert forall k :: from + i <= k < from + j ==> line[k] == part[k - from];
  }

  ghost predicate HasReferenceIn(line: Text, from: nat, to: nat, n: int) {
    exists i: nat, j: nat :: from < i && j <= to && IsReference(line, i, j, n)
  }

  lemma PartReferences(line: Text, from: nat, to: nat, n: int)
    requires from < to <= |line| && (to < |line| ==> !IsDigit(line[to]))
    ensures n in NumbersIn(line[from..to]) <==> HasReferenceIn(line, from, to, n)
  {
    NumbersAreReferences(line[from..to], 0, n);
    assert n in NumbersIn(line[from..to]) <==> HasReference(line[from..to], n);
    PartReferencesAreInLine(line, from, to, n);
    LineReferencesAreInPart(line, from, to, n);
  }

  lemma PartReferencesAreInLine(line: Text, from: nat, to: nat, n: int)
    requires from < to <= |line| && (to < |line| ==> !IsDigit(line[to]))
    ensures HasReference(line[from..to], n) ==> HasReferenceIn(line, from, to, n)
  {
    if i, j :| IsReference(line[from..to], i, j, n) {
      ReferenceInPart(line, from, to, i, j, n);
    }
  }

  lemma LineReferencesAreInPart(line: Text, from: nat, to: nat, n: int)
    requires from < to <= |line| && (to < |line| ==> !IsDigit(line[to]))
    ensures HasReferenceIn(line, from, to, n) ==> HasReference(line[from..to], n)
  {
    if i: nat, j: nat :| from < i && j <= to && IsReference(line, i, j, n) {
      ReferenceInPart(line, from, to, i - from, j - from, n);
    }
  }

  lemma UpToTheEndIsInClause(line: Text, offset: nat, to: nat, n: int)
    requires IsCut(line, offset, to)
    ensures HasReferenceIn(line, offset, to, n) <==> HasInClause(line, offset, n)
  {
    if i: nat, j: nat :| offset < i && j <= to && IsReference(line, i, j, n) {
      assert IsInClause(line, offset, i, j, n);
    }
    if i: nat, j: nat :| IsInClause(line, offset, i, j, n) {
      assert offset <= to < j ==> !TerminatorAt(line, to);
      assert j <= to;
    }
  }

  lemma CutBeforeNoDigit(line: Text, from: nat, to: nat)
    requires IsCut(line, from, to)
    ensures to < |line| ==> !IsDigit(line[to])
    ensures from < |line| && !TerminatorAt(line, from) ==> from < to
  {
    if to < |line| {
      TerminatorStarts(line, to);
    }
  }

  lemma ClauseReferences(line: Text, offset: nat, n: int)
    requires WellFormed(line) && offset < |line| && IsCharBoundary(line, offset) && !TerminatorAt(line, offset)
    ensures n in NumbersIn(ClauseFrom(line, offset)) <==> HasInClause(line, offset, n)
  {
    var to := ClauseIsCutAtItsEnd(line, offset);
    CutBeforeNoDigit(line, offset, to);
    PartReferences(line, offset, to, n);
    UpToTheEndIsInClause(line, offset, to, n);
  }

  lemma FindIsFirst(text: Text, needle: Text)
    ensures Find(text, needle).Some? <==> Contains(text, needle)
    ensures Find(text, needle).Some? ==> IsFirst(text, needle, Find(text, needle).value)
  {
  }

  lemma FirstIsUnique(text: Text, needle: Text, i: nat, k: nat)
    requires IsFirst(text, needle, i) && IsFirst(text, needle, k)
    ensures i == k
  {
  }

  lemma ClauseBlockers(line: Text, offset: nat, n: int)
    requires WellFormed(line) && Find(Lower(line), BlockedBy()) == Some(offset)
    ensures n in BlockersOf(line) <==> HasInClause(line, offset, n)
  {
    assert [BlockedBy()][0] == BlockedBy() && BlockedBy()[0] == 0x62;
    PhraseIsOnBoundary(line, [BlockedBy()], offset);
    assert Lower(line)[offset] == BlockedBy()[0];
    if TerminatorAt(line, offset) {
      TerminatorStarts(line, offset);
    }
    ClauseReferences(line, offset, n);
  }

  /** The blockers of a line, without the search for phrases. */
  lemma BlockersByPosition(line: Text, n: int)
    requires WellFormed(line)
    ensures n in BlockersOf(line) <==> NamesInLine(line, n)
  {
    var lower := Lower(line);
    FindIsFirst(lower, BlockedBy());
    if Find(lower, BlockedBy()).Some? {
      var first := Find(lower, BlockedBy()).value;
      ClauseBlockers(line, first, n);
      if offset :| IsFirst(lower, BlockedBy(), offset) && HasInClause(line, offset, n) {
        FirstIsUnique(lower, BlockedBy(), first, offset);
      }
    } else {
      FindIsFirst(lower, Ascii("blocked"));
      FindIsFirst(lower, Ascii("must"));
      NumbersAreReferences(line, 0, n);
      ReferencesHaveHashes(line, n);
    }
  }

  lemma ReferencesHaveHashes(line: Text, n: int)
    ensures HasReference(line, n) ==> Find(line, [HASH]).Some?
  {
    if i: nat, j: nat :| IsReference(line, i, j, n) {
      assert line[i - 1..i] == [HASH];
      assert OccursAt(line, [HASH], i - 1);
    }
  }

  // -------------------------------------------------------------------------
  // And by positions in the body
  // -------------------------------------------------------------------------

  ghost predicate IsHeadingLine(line: Text) {
    exists level :: IsHeading(line, level)
  }

  /** `## Dependencies`, in any case and with any whitespace around the word. */
  ghost predicate OpensDependencies(line: Text)
    requires WellFormed(line)
  {
    IsHeading(line, 2) && WellFormed(line[3..]) && Lower(TrimText(line[3..])) == Ascii("dependencies")
  }

  /** Line `h` opens a Dependencies section in which line `k` lies. */
  ghost predicate IsSectionOf(lines: seq<Text>, h: nat, k: nat)
    requires h <= k < |lines| && forall i :: 0 <= i < |lines| ==> WellFormed(lines[i])
  {
    OpensDependencies(lines[h]) && forall j :: h < j <= k ==> !IsHeadingLine(lines[j])
  }

  ghost predicate IsInSection(lines: seq<Text>, k: nat)
    requires k < |lines| && forall i :: 0 <= i < |lines| ==> WellFormed(lines[i])
  {
    exists h :: 0 <= h < k && IsSectionOf(lines, h, k)
  }

  /** Some line of a Dependencies section names `n`. */
  ghost predicate IsBlocker(lines: seq<Text>, n: int)
    requires forall i :: 0 <= i < |lines| ==> WellFormed(lines[i])
  {
    exists k :: 0 <= k < |lines| && IsInSection(lines, k) && NamesInLine(lines[k], n)
  }

  lemma HeadingLevelIsUnique(line: Text, a: nat, b: nat)
    requires IsHeading(line, a) && IsHeading(line, b)
    ensures a == b
  {
  }

  lemma ClassifiedByShape(line: Text)
    requires WellFormed(line)
    ensures Classify(line).Plain? <==> !IsHeadingLine(line)
    ensures Classify(line) == OpensSection <==> OpensDependencies(line)
  {
    assert Lower(Ascii("Dependencies")) == Ascii("dependencies");
    var heading := MarkdownHeading(line);
    if heading.Some? && IsHeading(line, 2) {
      HeadingLevelIsUnique(line, heading.value.0, 2);
    }
  }

  lemma OutlineByPosition(body: Text, n: int)
    requires WellFormed(body)
    ensures NamedBefore(Outline(body), |Outline(body)|, n) <==> IsBlocker(TrimmedLines(body), n)
  {
    var lines, outline := TrimmedLines(body), Outline(body);
    forall k | 0 <= k < |lines|
      ensures outline[k].Plain? <==> !IsHeadingLine(lines[k])
      ensures outline[k] == OpensSection <==> OpensDependencies(lines[k])
      ensures outline[k].Plain? ==> (n in outline[k].blockers <==> NamesInLine(lines[k], n))
    {
      ClassifiedByShape(lines[k]);
      BlockersByPosition(lines[k], n);
    }
    forall k | 0 <= k < |lines|
      ensures NamesBlocker(outline, k, n) <==> IsInSection(lines, k) && NamesInLine(lines[k], n)
    {
      SectionsAgree(lines, outline, k);
    }
  }

  ghost predicate Mirrors(outline: seq<Line>, lines: seq<Text>) {
    |outline| == |lines| && forall i :: 0 <= i < |lines| ==>
      && WellFormed(lines[i]) && (outline[i].Plain? <==> !IsHeadingLine(lines[i]))
      && (outline[i] == OpensSection <==> OpensDependencies(lines[i]))
  }

  lemma SectionAt(lines: seq<Text>, outline: seq<Line>, h: nat, k: nat)
    requires Mirrors(outline, lines) && h < k < |lines|
    ensures IsSectionOf(lines, h, k) <==>
            outline[h] == OpensSection && (forall j :: h < j < k ==> outline[j].Plain?) && outline[k].Plain?
  {
  }

  lemma SectionsAgree(lines: seq<Text>, outline: seq<Line>, k: nat)
    requires Mirrors(outline, lines) && k < |lines|
    ensures InDependencies(outline, k) && outline[k].Plain? <==> IsInSection(lines, k)
  {
    if InDependencies(outline, k) && outline[k].Plain? {
      var h :| 0 <= h < k && outline[h] == OpensSection && forall j :: h < j < k ==> outline[j].Plain?;
      SectionAt(lines, outline, h, k);
    }
    if h: nat :| h < k && IsSectionOf(lines, h, k) {
      SectionAt(lines, outline, h, k);
    }
  }

  /** The parser: strictly increasing, and exactly the blockers that the lines of level-2
      Dependencies sections name, line by line and position by position. */
  method BlockedDependencyNumbers(body: Text) returns (dependencies: seq<int>)
    requires WellFormed(body)
    ensures StrictlyIncreasing(dependencies)
    ensures forall n :: n in dependencies <==> IsBlocker(TrimmedLines(body), n)
  {
    var mentioned := MentionedBlockers(body);
    dependencies := SortDedup(mentioned);
    forall n
      ensures n in dependencies <==> IsBlocker(TrimmedLines(body), n)
    {
      OutlineByPosition(body, n);
    }
  }

  // -------------------------------------------------------------------------
  // Lines and case
  // -------------------------------------------------------------------------

  predicate IsOneLine(line: Text) {
    forall i :: 0 <= i < |line| ==> line[i] != NEWLINE
  }

  lemma LineLenIsFirst(b: Text, n: nat)
    requires n < |b| && b[n] == NEWLINE && IsOneLine(b[..n])
    ensures LineLen(b) == n
  {
    assert forall i :: 0 <= i < n ==> b[i] == b[..n][i];
  }

  lemma LinesStep(b: Text, n: nat)
    requires n < |b| && b[n] == NEWLINE && IsOneLine(b[..n])
    ensures Lines(b) == [DropReturn(b[..n])] + Lines(b[n + 1..])
  {
    LineLenIsFirst(b, n);
  }

  /** A body is read line by line: a line ends before its LF, or before its CR LF, and the last one may
      do without. */
  lemma LinesEndAtNewlines(line: Text, rest: Text)
    requires IsOneLine(line)
    ensures Lines([]) == []
    ensures line != [] ==> Lines(line) == [line]
    ensures Lines(line + [RETURN, NEWLINE] + rest) == [line] + Lines(rest)
    ensures (line == [] || line[|line| - 1] != RETURN) ==> Lines(line + [NEWLINE] + rest) == [line] + Lines(rest)
  {
    WholeLine(line);
    ReturnEndsLine(line, rest);
    NewlineEndsLine(line, rest);
  }

  lemma ReturnEndsLine(line: Text, rest: Text)
    requires IsOneLine(line)
    ensures Lines(line + [RETURN, NEWLINE] + rest) == [line] + Lines(rest)
  {
    var b, n := line + [RETURN, NEWLINE] + rest, |line| + 1;
    assert b[..n] == line + [RETURN] && b[n + 1..] == rest;
    LinesStep(b, n);
    assert (line + [RETURN])[..|line|] == line;
  }

  lemma NewlineEndsLine(line: Text, rest: Text)
    requires IsOneLine(line)
    ensures (line == [] || line[|line| - 1] != RETURN) ==> Lines(line + [NEWLINE] + rest) == [line] + Lines(rest)
  {
    var b, n := line + [NEWLINE] + rest, |line|;
    assert b[..n] == line && b[n + 1..] == rest;
    LinesStep(b, n);
  }

  lemma WholeLine(line: Text)
    requires IsOneLine(line)
    ensures LineLen(line) == |line|
  {
  }

  /** Lower-casing maps `A` to `Z` to `a` to `z`, and nothing else. */
  lemma LowerIsByLetter(b: Text, i: nat)
    requires i < |b|
    ensures if Ascii("A")[0] <= b[i] <= Ascii("Z")[0]
            then Lower(b)[i] as int - b[i] as int == Ascii("a")[0] as int - Ascii("A")[0] as int
            else Lower(b)[i] == b[i]
  {
  }

  /** What a clause may end with, and what must be said before it. */
  lemma WhichPhrasesCount(line: Text, p: nat)
    ensures TerminatorAt(line, p) <==>
            || OccursAt(line, Ascii("."), p) || OccursAt(line, Ascii(";"), p)
            || OccursAt(Lower(line), Ascii(" aligned with"), p)
            || OccursAt(Lower(line), Ascii(" must respect"), p)
            || OccursAt(Lower(line), Ascii(" contributes"), p)
    ensures BlockedBy() == Ascii("blocked by") && [HASH] == Ascii("#") && [SPACE] == Ascii(" ")
  {
    assert Ascii(".")[0] == DOT && Ascii(";")[0] == SEMICOLON;
    assert Ascii(".") == EndMarks()[0] && Ascii(";") == EndMarks()[1];
    assert OneOccursAt(line, EndMarks(), p) <==> OccursAt(line, EndMarks()[0], p) || OccursAt(line, EndMarks()[1], p);
    var lower, phrases := Lower(line), EndPhrases();
    assert OneOccursAt(lower, phrases, p) <==>
      OccursAt(lower, phrases[0], p) || OccursAt(lower, phrases[1], p) || OccursAt(lower, phrases[2], p);
  }

  /** Digits are `0` to `9`, and numbers are read in decimal, left to right. */
  lemma NumbersAreDecimal(digits: Text, b: byte)
    requires AllDigits(digits)
    ensures IsDigit(b) <==> Ascii("0")[0] <= b <= Ascii("9")[0]
    ensures NumberOf([]) == 0
    ensures IsDigit(b) ==>
              && AllDigits(digits + [b])
              && NumberOf(digits + [b]) == 10 * NumberOf(digits) + (b as int - Ascii("0")[0] as int)
  {
    assert (digits + [b])[..|digits|] == digits;
  }
}
