/** The dependency parser of a GitHub issue body (crates/crony-cli/src/factory.rs), over the
    bytes of the body. Every slice the source takes with `&text[i..j]` is `Slice`, which demands
    character boundaries as Rust does. */
module Dependencies {
  import opened Prelude
  import opened RustStr
  import opened Utf8

  const I64_MAX := 0x7FFF_FFFF_FFFF_FFFF

  type Text = seq<byte>

  /** The bytes of an ASCII literal of the source. */
  function Ascii(s: string): (b: Text)
    requires forall i :: 0 <= i < |s| ==> s[i] as int < 0x80
    ensures |b| == |s| && forall i :: 0 <= i < |s| ==> b[i] as int == s[i] as int
  {
    seq(|s|, i requires 0 <= i < |s| => s[i] as int as byte)
  }

  const HASH: byte := 0x23
  const SPACE: byte := 0x20
  const NEWLINE: byte := 0x0A
  const RETURN: byte := 0x0D
  const DOT: byte := 0x2E
  const SEMICOLON: byte := 0x3B

  // -------------------------------------------------------------------------
  // Texts
  // -------------------------------------------------------------------------

  /** Right before and right after an ASCII byte a text may be cut. */
  lemma AsciiIsBoundary(b: Text, i: nat)
    requires WellFormed(b) && i < |b| && b[i] < 0x80
    ensures IsCharBoundary(b, i) && IsCharBoundary(b, i + 1)
    ensures WellFormed(b[..i]) && WellFormed(b[i + 1..])
  {
    BoundaryCuts(b, i);
    var rest := b[i..];
    assert CharLen(rest) == 1;
    assert rest[1..] == b[i + 1..];
    if i + 1 < |b| {
      assert b[i + 1] == b[i + 1..][0];
    }
  }

  function Slice(b: Text, i: nat, j: nat): (r: Text)
    requires WellFormed(b) && i <= j <= |b|
    requires IsCharBoundary(b, i) && IsCharBoundary(b, j)
    ensures r == b[i..j] && WellFormed(r)
  {
    BoundaryCuts(b, j);
    assert i < j ==> b[..j][i] == b[i];
    BoundaryCuts(b[..j], i);
    b[i..j]
  }

  /** `str::trim`. */
  function TrimText(b: Text): (r: Text)
    requires WellFormed(b)
    ensures WellFormed(r)
  {
    EncodeDecode(Trim(Decode(b)));
    Encode(Trim(Decode(b)))
  }

  function LowerByte(b: byte): byte {
    if 0x41 <= b <= 0x5A then b + 0x20 else b
  }

  /** `to_ascii_lowercase`. */
  function Lower(b: Text): (r: Text)
    ensures |r| == |b| && forall i :: 0 <= i < |b| ==> r[i] == LowerByte(b[i])
  {
    seq(|b|, i requires 0 <= i < |b| => LowerByte(b[i]))
  }

  predicate OccursAt(text: Text, needle: Text, i: nat) {
    i + |needle| <= |text| && text[i..i + |needle|] == needle
  }

  function FindFrom(text: Text, needle: Text, i: nat): (r: Option<nat>)
    requires i <= |text|
    ensures r.Some? ==> i <= r.value && OccursAt(text, needle, r.value)
    ensures forall k :: i <= k && (r.Some? ==> k < r.value) ==> !OccursAt(text, needle, k)
    decreases |text| - i
  {
    if OccursAt(text, needle, i) then Some(i)
    else if i == |text| then None
    else FindFrom(text, needle, i + 1)
  }

  /** `str::find`: the first occurrence. */
  function Find(text: Text, needle: Text): Option<nat> {
    FindFrom(text, needle, 0)
  }

  function LineLen(b: Text): (n: nat)
    ensures n <= |b| && (n < |b| ==> b[n] == NEWLINE)
    ensures forall i :: 0 <= i < n ==> b[i] != NEWLINE
  {
    if b == [] || b[0] == NEWLINE then 0 else 1 + LineLen(b[1..])
  }

  function DropReturn(b: Text): Text {
    if b != [] && b[|b| - 1] == RETURN then b[..|b| - 1] else b
  }

  /** `str::lines`. */
  function Lines(b: Text): seq<Text>
    decreases |b|
  {
    if b == [] then []
    else if LineLen(b) == |b| then [b]
    else [DropReturn(b[..LineLen(b)])] + Lines(b[LineLen(b) + 1..])
  }

  lemma {:induction false} LinesAreTexts(b: Text)
    requires WellFormed(b)
    ensures forall k :: 0 <= k < |Lines(b)| ==> WellFormed(Lines(b)[k])
    decreases |b|
  {
    var n := LineLen(b);
    if n < |b| {
      AsciiIsBoundary(b, n);
      var rest := b[n + 1..];
      LinesAreTexts(rest);
      DropReturnKeepsText(b[..n]);
      TextsCons(DropReturn(b[..n]), Lines(rest), Lines(b));
    }
  }

  lemma TextsCons(first: Text, rest: seq<Text>, all: seq<Text>)
    requires WellFormed(first) && forall k :: 0 <= k < |rest| ==> WellFormed(rest[k])
    requires all == [first] + rest
    ensures forall k :: 0 <= k < |all| ==> WellFormed(all[k])
  {
    forall k | 0 <= k < |all|
      ensures WellFormed(all[k])
    {
      assert all[k] == if k == 0 then first else rest[k - 1];
    }
  }

  lemma DropReturnKeepsText(b: Text)
    requires WellFormed(b)
    ensures WellFormed(DropReturn(b))
  {
    if b != [] && b[|b| - 1] == RETURN {
      AsciiIsBoundary(b, |b| - 1);
    }
  }

  /** The body's lines without surrounding whitespace. */
  function TrimmedLines(body: Text): (r: seq<Text>)
    requires WellFormed(body)
    ensures |r| == |Lines(body)| && forall k :: 0 <= k < |r| ==> WellFormed(r[k])
  {
    LinesAreTexts(body);
    seq(|Lines(body)|, k requires 0 <= k < |Lines(body)| => TrimText(Lines(body)[k]))
  }

  // -------------------------------------------------------------------------
  // Issue numbers
  // -------------------------------------------------------------------------

  predicate IsDigit(b: byte) {
    0x30 <= b <= 0x39
  }

  /** End of the digit run that starts at `i`. */
  function RunEnd(line: Text, i: nat): (j: nat)
    requires i <= |line|
    ensures i <= j <= |line|
    ensures forall k :: i <= k < j ==> IsDigit(line[k])
    ensures j < |line| ==> !IsDigit(line[j])
    decreases |line| - i
  {
    if i < |line| && IsDigit(line[i]) then RunEnd(line, i + 1) else i
  }

  function DigitValue(b: byte): nat
    requires IsDigit(b)
  {
    b as int - 0x30
  }

  predicate AllDigits(digits: Text) {
    forall k :: 0 <= k < |digits| ==> IsDigit(digits[k])
  }

  function NumberOf(digits: Text): nat
    requires AllDigits(digits)
  {
    if digits == [] then 0
    else NumberOf(digits[..|digits| - 1]) * 10 + DigitValue(digits[|digits| - 1])
  }

  /** `parse::<i64>()` on a run of digits. */
  function ParseI64(digits: Text): Option<int>
    requires AllDigits(digits)
  {
    if digits != [] && NumberOf(digits) <= I64_MAX then Some(NumberOf(digits)) else None
  }

  /** The number that the byte at position `i` introduces, if it is a `#` before one. */
  function NumberAfter(line: Text, i: nat): Option<int>
    requires i < |line|
  {
    if line[i] != HASH then None else ParseI64(line[i + 1..RunEnd(line, i + 1)])
  }

  function Found(number: Option<int>): seq<int> {
    match number case Some(n) => [n] case None => []
  }

  /** The numbers introduced from position `i` on, left to right. */
  function NumbersFrom(line: Text, i: nat): seq<int>
    requires i <= |line|
    decreases |line| - i
  {
    if i == |line| then []
    else Found(NumberAfter(line, i)) + NumbersFrom(line, i + 1)
  }

  function NumbersIn(line: Text): seq<int> {
    NumbersFrom(line, 0)
  }

  lemma DigitsIntroduceNothing(line: Text, i: nat, j: nat)
    requires i <= j <= |line| && forall k :: i <= k < j ==> IsDigit(line[k])
    ensures NumbersFrom(line, i) == NumbersFrom(line, j)
    decreases j - i
  {
    if i < j {
      DigitsIntroduceNothing(line, i + 1, j);
    }
  }

  lemma RunEndIsUnique(line: Text, i: nat, j: nat)
    requires i <= j <= |line| && forall k :: i <= k < j ==> IsDigit(line[k])
    requires j < |line| ==> !IsDigit(line[j])
    ensures RunEnd(line, i) == j
  {
    var e := RunEnd(line, i);
    assert forall k :: i <= k < e ==> IsDigit(line[k]);
  }

  /** One `#` and the maximal run after it. */
  lemma ScanStep(line: Text, hash: nat, index: nat)
    requires hash < index <= |line| && line[hash] == HASH
    requires forall k :: hash < k < index ==> IsDigit(line[k])
    requires index < |line| ==> !IsDigit(line[index])
    ensures NumbersFrom(line, hash) == Found(ParseI64(line[hash + 1..index])) + NumbersFrom(line, index)
  {
    RunEndIsUnique(line, hash + 1, index);
    assert NumberAfter(line, hash) == ParseI64(line[hash + 1..index]);
    DigitsIntroduceNothing(line, hash + 1, index);
    assert NumbersFrom(line, hash) == Found(NumberAfter(line, hash)) + NumbersFrom(line, hash + 1);
  }

  /** Both ends of the run are boundaries: each follows an ASCII byte. */
  lemma RunIsOnBoundaries(line: Text, hash: nat, index: nat)
    requires WellFormed(line) && hash < index <= |line| && line[hash] == HASH
    requires forall k :: hash < k < index ==> IsDigit(line[k])
    ensures IsCharBoundary(line, hash + 1) && IsCharBoundary(line, index)
  {
    AsciiIsBoundary(line, hash);
    AsciiIsBoundary(line, index - 1);
  }

  method SkipDigits(line: Text, start: nat) returns (index: nat)
    requires start <= |line|
    ensures index == RunEnd(line, start)
  {
    index := start;
    while index < |line| && IsDigit(line[index])
      invariant start <= index <= |line|
      invariant forall k :: start <= k < index ==> IsDigit(line[k])
    {
      index := index + 1;
    }
    RunEndIsUnique(line, start, index);
  }

  lemma RunIsDigits(line: Text, i: nat)
    requires i <= |line|
    ensures AllDigits(line[i..RunEnd(line, i)])
  {
  }

  lemma ReferenceStep(line: Text, hash: nat)
    requires WellFormed(line) && hash < |line| && line[hash] == HASH
    ensures var end := RunEnd(line, hash + 1);
            && IsCharBoundary(line, hash + 1) && IsCharBoundary(line, end)
            && AllDigits(line[hash + 1..end])
            && NumbersFrom(line, hash) == Found(ParseI64(line[hash + 1..end])) + NumbersFrom(line, end)
  {
    var end := RunEnd(line, hash + 1);
    RunIsDigits(line, hash + 1);
    ScanStep(line, hash, end);
    RunIsOnBoundaries(line, hash, end);
  }

  /** The digits after a `#`, and what they parse to; the slice is on boundaries. */
  method ParseReference(line: Text, hash: nat) returns (number: Option<int>, end: nat)
    requires WellFormed(line) && hash < |line| && line[hash] == HASH
    ensures hash < end <= |line| && NumbersFrom(line, hash) == Found(number) + NumbersFrom(line, end)
  {
    end := SkipDigits(line, hash + 1);
    ReferenceStep(line, hash);
    var digits := Slice(line, hash + 1, end);
    assert digits == line[hash + 1..end];
    number := ParseI64(digits);
  }

  /** The scanning loop: it skips whole digit runs. */
  method IssueNumbers(line: Text) returns (numbers: seq<int>)
    requires WellFormed(line)
    ensures numbers == NumbersIn(line)
  {
    numbers := [];
    var index := 0;
    while index < |line|
      invariant index <= |line|
      invariant numbers + NumbersFrom(line, index) == NumbersIn(line)
    {
      if line[index] != HASH {
        assert NumbersFrom(line, index) == NumbersFrom(line, index + 1);
        index := index + 1;
      } else {
        var number, end := ParseReference(line, index);
        AppendAssoc(numbers, Found(number), NumbersFrom(line, end));
        if number.Some? {
          numbers := numbers + [number.value];
        } else {
          assert numbers + Found(number) == numbers;
        }
        index := end;
      }
    }
  }

  /** `[i, j)` is a maximal run of digits directly after a `#`, and `n` is its 64-bit value. */
  ghost predicate IsReference(line: Text, i: nat, j: nat, n: int) {
    && 0 < i < j <= |line| && line[i - 1] == HASH
    && (forall k :: i <= k < j ==> IsDigit(line[k]))
    && (j < |line| ==> !IsDigit(line[j]))
    && n == NumberOf(line[i..j]) && n <= I64_MAX
  }

  /** A reference starts at position `i`. */
  ghost predicate StartsReference(line: Text, i: nat) {
    exists j, n :: IsReference(line, i, j, n)
  }

  /** The value of the reference that starts at `i`. */
  ghost predicate HasValue(line: Text, i: nat, n: int) {
    exists j :: IsReference(line, i, j, n)
  }

  lemma ReferenceAfterHash(line: Text, hash: nat)
    requires hash < |line|
    ensures NumberAfter(line, hash).Some? ==> HasValue(line, hash + 1, NumberAfter(line, hash).value)
    ensures StartsReference(line, hash + 1) ==> NumberAfter(line, hash).Some?
  {
    if NumberAfter(line, hash).Some? {
      assert IsReference(line, hash + 1, RunEnd(line, hash + 1), NumberAfter(line, hash).value);
    }
    if StartsReference(line, hash + 1) {
      var j, n :| IsReference(line, hash + 1, j, n);
      RunEndIsUnique(line, hash + 1, j);
    }
  }

  ghost predicate Covers(line: Text, from: nat, starts: seq<nat>) {
    forall i :: i in starts <==> from < i && StartsReference(line, i)
  }

  ghost predicate AreValues(line: Text, starts: seq<nat>, numbers: seq<int>) {
    |starts| == |numbers| && forall k :: 0 <= k < |starts| ==> HasValue(line, starts[k], numbers[k])
  }

  /** `starts` lists the references behind `from` in order, and the numbers are their values. */
  ghost predicate ListsReferences(line: Text, from: nat, starts: seq<nat>)
    requires from <= |line|
  {
    StrictlyIncreasing(starts) && Covers(line, from, starts) && AreValues(line, starts, NumbersFrom(line, from))
  }

  lemma IncreasingCons(first: int, rest: seq<int>)
    requires StrictlyIncreasing(rest) && forall i :: i in rest ==> first < i
    ensures StrictlyIncreasing([first] + rest)
  {
    var s := [first] + rest;
    forall i, k | 0 <= i < k < |s|
      ensures s[i] < s[k]
    {
      assert s[k] == rest[k - 1] && (i > 0 ==> s[i] == rest[i - 1]);
      assert rest[k - 1] in rest;
    }
  }

  lemma ValuesCons(line: Text, first: nat, n: int, rest: seq<nat>, numbers: seq<int>)
    requires HasValue(line, first, n) && AreValues(line, rest, numbers)
    ensures AreValues(line, [first] + rest, [n] + numbers)
  {
  }

  lemma CoversCons(line: Text, from: nat, rest: seq<nat>)
    requires Covers(line, from + 1, rest) && StartsReference(line, from + 1)
    ensures Covers(line, from, [from + 1] + rest)
  {
    forall i
      ensures i in [from + 1] + rest <==> from < i && StartsReference(line, i)
    {
      assert i in [from + 1] + rest <==> i == from + 1 || i in rest;
    }
  }

  lemma ListsOneMore(line: Text, from: nat, rest: seq<nat>)
    requires from < |line| && NumberAfter(line, from).Some? && ListsReferences(line, from + 1, rest)
    ensures ListsReferences(line, from, [from + 1] + rest)
  {
    var n := NumberAfter(line, from).value;
    ReferenceAfterHash(line, from);
    var j :| IsReference(line, from + 1, j, n);
    assert StartsReference(line, from + 1);
    IncreasingCons(from + 1, rest);
    CoversCons(line, from, rest);
    ValuesCons(line, from + 1, n, rest, NumbersFrom(line, from + 1));
    assert NumbersFrom(line, from) == [n] + NumbersFrom(line, from + 1);
  }

  lemma ListsNoMore(line: Text, from: nat, starts: seq<nat>)
    requires from < |line| && NumberAfter(line, from).None? && ListsReferences(line, from + 1, starts)
    ensures ListsReferences(line, from, starts)
  {
    ReferenceAfterHash(line, from);
    assert NumbersFrom(line, from) == NumbersFrom(line, from + 1);
  }

  /** The numbers come left to right, one for each reference. */
  lemma {:induction false} NumbersComeInOrder(line: Text, from: nat) returns (starts: seq<nat>)
    requires from <= |line|
    ensures ListsReferences(line, from, starts)
    decreases |line| - from
  {
    if from == |line| {
      return [];
    }
    var rest := NumbersComeInOrder(line, from + 1);
    if NumberAfter(line, from).Some? {
      ListsOneMore(line, from, rest);
      return [from + 1] + rest;
    } else {
      ListsNoMore(line, from, rest);
      return rest;
    }
  }

  lemma ReferenceIsUnique(line: Text, i: nat, j: nat, n: int, n': int)
    requires IsReference(line, i, j, n) && HasValue(line, i, n')
    ensures n == n'
  {
    var j' :| IsReference(line, i, j', n');
    RunEndIsUnique(line, i, j);
    RunEndIsUnique(line, i, j');
  }

  /** What a line references, without the scan: the values of the maximal digit runs after `#`. */
  lemma NumbersAreReferences(line: Text, from: nat, n: int)
    requires from <= |line|
    ensures n in NumbersFrom(line, from) <==> exists i, j :: from < i && IsReference(line, i, j, n)
  {
    var numbers := NumbersFrom(line, from);
    var starts := NumbersComeInOrder(line, from);
    if n in numbers {
      var k :| 0 <= k < |numbers| && numbers[k] == n;
      assert HasValue(line, starts[k], n) && starts[k] in starts;
    }
    if i, j :| from < i && IsReference(line, i, j, n) {
      assert StartsReference(line, i);
      var k :| 0 <= k < |starts| && starts[k] == i;
      ReferenceIsUnique(line, i, j, n, numbers[k]);
    }
  }

  // -------------------------------------------------------------------------
  // Sections and blocking clauses
  // -------------------------------------------------------------------------

  function HashCount(line: Text): (n: nat)
    ensures n <= |line| && (forall k :: 0 <= k < n ==> line[k] == HASH)
    ensures n < |line| ==> line[n] != HASH
  {
    if line == [] || line[0] != HASH then 0 else 1 + HashCount(line[1..])
  }

  /** The line starts with this many `#`, at least one, and a space. */
  predicate IsHeading(line: Text, level: nat) {
    0 < level < |line| && line[level] == SPACE && forall k :: 0 <= k < level ==> line[k] == HASH
  }

  lemma HeadingLevel(line: Text, level: nat)
    requires IsHeading(line, level)
    ensures level == HashCount(line)
  {
    assert line[level] != HASH;
  }

  /** `markdown_heading`: the level and the heading's text. */
  function MarkdownHeading(line: Text): (r: Option<(nat, Text)>)
    requires WellFormed(line)
    ensures r.Some? ==> IsHeading(line, r.value.0) && WellFormed(r.value.1) && r.value.1 == line[r.value.0 + 1..]
    ensures r.None? ==> forall level :: !IsHeading(line, level)
  {
    var level := HashCount(line);
    if level == 0 || level >= |line| || line[level] != SPACE then
      assert forall other :: IsHeading(line, other) ==> other == level by {
        forall other | IsHeading(line, other)
          ensures other == level
        {
          HeadingLevel(line, other);
        }
      }
      None
    else
      AsciiIsBoundary(line, level);
      Some((level, Slice(line, level + 1, |line|)))
  }

  function EndMarks(): seq<Text> {
    [[DOT], [SEMICOLON]]
  }

  function EndPhrases(): seq<Text> {
    [Ascii(" aligned with"), Ascii(" must respect"), Ascii(" contributes")]
  }

  predicate StartsInAscii(phrases: seq<Text>) {
    forall i :: 0 <= i < |phrases| ==> phrases[i] != [] && phrases[i][0] < 0x80
  }

  lemma EndsStartInAscii()
    ensures StartsInAscii(EndMarks()) && StartsInAscii(EndPhrases())
  {
    assert EndMarks()[0][0] == DOT && EndMarks()[1][0] == SEMICOLON;
    assert EndPhrases()[0][0] == SPACE && EndPhrases()[1][0] == SPACE && EndPhrases()[2][0] == SPACE;
  }

  /** Some phrase of the list occurs at `i`. */
  predicate OneOccursAt(text: Text, phrases: seq<Text>, i: nat) {
    exists p :: 0 <= p < |phrases| && OccursAt(text, phrases[p], i)
  }

  function MinSome(a: Option<nat>, b: Option<nat>): Option<nat> {
    if a.None? then b else if b.None? then a else Some(if a.value <= b.value then a.value else b.value)
  }

  /** The least of the first occurrences of the phrases. */
  function Earliest(text: Text, phrases: seq<Text>): (r: Option<nat>)
    ensures r.Some? ==> OneOccursAt(text, phrases, r.value)
    ensures forall i :: 0 <= i && (r.Some? ==> i < r.value) ==> !OneOccursAt(text, phrases, i)
  {
    if phrases == [] then None
    else
      var rest := Earliest(text, phrases[1..]);
      assert forall i :: OneOccursAt(text, phrases, i) <==>
        OccursAt(text, phrases[0], i) || OneOccursAt(text, phrases[1..], i) by {
        assert forall p :: 1 <= p < |phrases| ==> phrases[p] == phrases[1..][p - 1];
      }
      MinSome(Find(text, phrases[0]), rest)
  }

  /** A phrase that ends a blocking clause starts at `i`. */
  predicate TerminatorAt(clause: Text, i: nat) {
    OneOccursAt(clause, EndMarks(), i) || OneOccursAt(Lower(clause), EndPhrases(), i)
  }

  lemma PhraseIsOnBoundary(text: Text, phrases: seq<Text>, i: nat)
    requires WellFormed(text) && StartsInAscii(phrases)
    requires OneOccursAt(text, phrases, i) || OneOccursAt(Lower(text), phrases, i)
    ensures i < |text| && IsCharBoundary(text, i)
  {
    if OneOccursAt(text, phrases, i) {
      var p :| 0 <= p < |phrases| && OccursAt(text, phrases[p], i);
      assert text[i] == phrases[p][0];
    } else {
      var p :| 0 <= p < |phrases| && OccursAt(Lower(text), phrases[p], i);
      assert Lower(text)[i] == phrases[p][0];
    }
    AsciiIsBoundary(text, i);
  }

  /** Where the clause ends: at the first terminating phrase, or with the line. */
  function ClauseEnd(clause: Text): (end: nat)
    requires WellFormed(clause)
    ensures end <= |clause| && IsCharBoundary(clause, end)
    ensures end < |clause| ==> TerminatorAt(clause, end)
    ensures forall i :: 0 <= i < end ==> !TerminatorAt(clause, i)
  {
    var end := MinSome(Earliest(clause, EndMarks()), Earliest(Lower(clause), EndPhrases()));
    EndsStartInAscii();
    if end.Some? then
      if OneOccursAt(clause, EndMarks(), end.value) then
        PhraseIsOnBoundary(clause, EndMarks(), end.value);
        end.value
      else
        PhraseIsOnBoundary(clause, EndPhrases(), end.value);
        end.value
    else |clause|
  }

  function BlockedBy(): Text {
    Ascii("blocked by")
  }

  predicate IsBlockingItem(line: Text) {
    && OccursAt(line, Ascii("- [ ]"), 0)
    && Find(line, [HASH]).Some?
    && (Find(Lower(line), Ascii("blocked")).Some? || Find(Lower(line), Ascii("must")).Some?)
  }

  /** Behind `from` the first phrase that ends a clause starts at `to`, if there is one. */
  ghost predicate IsCut(text: Text, from: nat, to: nat) {
    && from <= to <= |text|
    && (forall p :: from <= p < to ==> !TerminatorAt(text, p))
    && (to < |text| ==> TerminatorAt(text, to))
  }

  /** The clause that a "blocked by" at `offset` starts. */
  function ClauseFrom(line: Text, offset: nat): (r: Text)
    requires WellFormed(line) && offset <= |line| && IsCharBoundary(line, offset)
    ensures WellFormed(r) && r <= line[offset..]
    ensures IsCut(line[offset..], 0, |r|)
  {
    var clause := Slice(line, offset, |line|);
    assert clause == line[offset..];
    Slice(clause, 0, ClauseEnd(clause))
  }

  /** The part of a dependency line that names blockers. */
  function BlockingPart(line: Text): (r: Option<Text>)
    requires WellFormed(line)
    ensures r.Some? ==> WellFormed(r.value)
  {
    match Find(Lower(line), BlockedBy())
    case Some(offset) =>
      assert [BlockedBy()][0] == BlockedBy() && BlockedBy()[0] == 0x62;
      PhraseIsOnBoundary(line, [BlockedBy()], offset);
      Some(ClauseFrom(line, offset))
    case None => if IsBlockingItem(line) then Some(line) else None
  }

  /** What a trimmed line means to the parser. */
  datatype Line = OpensSection | OtherHeading | Plain(blockers: seq<int>)

  predicate NamesDependencies(heading: Text)
    requires WellFormed(heading)
  {
    Lower(TrimText(heading)) == Lower(Ascii("Dependencies"))
  }

  function BlockersOf(line: Text): seq<int>
    requires WellFormed(line)
  {
    match BlockingPart(line) case Some(part) => NumbersIn(part) case None => []
  }

  function Classify(line: Text): Line
    requires WellFormed(line)
  {
    match MarkdownHeading(line)
    case Some(h) => if h.0 == 2 && NamesDependencies(h.1) then OpensSection else OtherHeading
    case None => Plain(BlockersOf(line))
  }

  function Outline(body: Text): seq<Line>
    requires WellFormed(body)
  {
    var lines := TrimmedLines(body);
    seq(|lines|, k requires 0 <= k < |lines| => Classify(lines[k]))
  }

  /** Position `k` lies in a level-2 Dependencies section: its nearest heading above opens one. */
  ghost predicate InDependencies(lines: seq<Line>, k: nat)
    requires k <= |lines|
  {
    exists h :: 0 <= h < k && lines[h] == OpensSection && forall j :: h < j < k ==> lines[j].Plain?
  }

  /** Line `k` names `n` as a blocker. */
  ghost predicate NamesBlocker(lines: seq<Line>, k: nat, n: int)
    requires k < |lines|
  {
    InDependencies(lines, k) && lines[k].Plain? && n in lines[k].blockers
  }

  ghost predicate StrictlyIncreasing(s: seq<int>) {
    forall i, j :: 0 <= i < j < |s| ==> s[i] < s[j]
  }

  function Insert(n: int, s: seq<int>): (r: seq<int>)
    requires StrictlyIncreasing(s)
    ensures StrictlyIncreasing(r) && forall x :: x in r <==> x == n || x in s
  {
    if s == [] || n < s[0] then
      assert forall x :: x in [n] + s <==> x == n || x in s;
      [n] + s
    else if n == s[0] then s
    else
      var rest := Insert(n, s[1..]);
      assert s == [s[0]] + s[1..];
      assert forall x :: x in s[1..] ==> s[0] < x;
      assert forall i :: 0 <= i < |rest| ==> rest[i] in rest;
      [s[0]] + rest
  }

  /** `sort_unstable` followed by `dedup`. */
  function SortDedup(s: seq<int>): (r: seq<int>)
    ensures StrictlyIncreasing(r) && forall x :: x in r <==> x in s
  {
    if s == [] then [] else
      assert s == [s[0]] + s[1..];
      Insert(s[0], SortDedup(s[1..]))
  }

  /** A strictly increasing sequence is determined by its elements. */
  lemma {:induction false} IncreasingIsDetermined(s: seq<int>, t: seq<int>)
    requires StrictlyIncreasing(s) && StrictlyIncreasing(t)
    requires forall x :: x in s <==> x in t
    ensures s == t
  {
    if s != [] {
      assert s[0] in s;
    }
    if t != [] {
      assert t[0] in t;
    }
    if s != [] {
      assert s[0] in t && t[0] in s;
      assert s[0] == t[0];
      forall x
        ensures x in s[1..] <==> x in t[1..]
      {
        assert x in s[1..] <==> x in s && x != s[0];
        assert x in t[1..] <==> x in t && x != t[0];
      }
      IncreasingIsDetermined(s[1..], t[1..]);
      assert s == [s[0]] + s[1..] && t == [t[0]] + t[1..];
    }
  }

  lemma SectionStep(lines: seq<Line>, i: nat)
    requires i < |lines|
    ensures InDependencies(lines, i + 1) <==>
            lines[i] == OpensSection || (lines[i].Plain? && InDependencies(lines, i))
  {
    if lines[i].Plain? && InDependencies(lines, i) {
      var h :| 0 <= h < i && lines[h] == OpensSection && forall j :: h < j < i ==> lines[j].Plain?;
      assert 0 <= h < i + 1;
    }
  }

  /** Some line before position `i` names `n`. */
  ghost predicate NamedBefore(lines: seq<Line>, i: nat, n: int)
    requires i <= |lines|
  {
    exists k :: 0 <= k < i && NamesBlocker(lines, k, n)
  }

  lemma NamedStep(lines: seq<Line>, i: nat)
    requires i < |lines|
    ensures forall n :: NamedBefore(lines, i + 1, n) <==> NamedBefore(lines, i, n) || NamesBlocker(lines, i, n)
  {
    forall n
      ensures NamedBefore(lines, i + 1, n) <==> NamedBefore(lines, i, n) || NamesBlocker(lines, i, n)
    {
      if NamedBefore(lines, i, n) {
        var k :| 0 <= k < i && NamesBlocker(lines, k, n);
        assert 0 <= k < i + 1;
      }
    }
  }

  method LineBlockers(line: Text) returns (numbers: seq<int>)
    requires WellFormed(line)
    ensures numbers == BlockersOf(line)
  {
    var part := BlockingPart(line);
    if part.Some? {
      numbers := IssueNumbers(part.value);
    } else {
      numbers := [];
    }
  }

  /** The loop over the lines, before sorting. */
  method MentionedBlockers(body: Text) returns (dependencies: seq<int>)
    requires WellFormed(body)
    ensures forall n :: n in dependencies <==> NamedBefore(Outline(body), |Outline(body)|, n)
  {
    var lines := TrimmedLines(body);
    ghost var outline := Outline(body);
    var inDependencies := false;
    dependencies := [];
    for i := 0 to |lines|
      invariant inDependencies <==> InDependencies(outline, i)
      invariant forall n :: n in dependencies <==> NamedBefore(outline, i, n)
    {
      SectionStep(outline, i);
      NamedStep(outline, i);
      assert outline[i] == Classify(lines[i]);
      var heading := MarkdownHeading(lines[i]);
      if heading.Some? {
        assert !outline[i].Plain?;
        inDependencies := heading.value.0 == 2 && NamesDependencies(heading.value.1);
        continue;
      }
      if !inDependencies {
        continue;
      }
      var numbers := LineBlockers(lines[i]);
      assert outline[i] == Plain(numbers);
      assert forall n :: NamesBlocker(outline, i, n) <==> n in numbers;
      dependencies := dependencies + numbers;
    }
  }
}
