/** `sanitize_failure_detail` (crates/crony-cli/src/factory.rs): the single-line failure text
    that the controller stores with a blocked or failed work item. */
module FailureDetail {
  import opened Prelude
  import opened RustStr
  import opened Truncation

  const LIMIT: nat := 2000
  const FALLBACK := "factory operation failed"

  function Normalize(s: string): string {
    seq(|s|, i requires 0 <= i < |s| => if IsControl(s[i]) then ' ' else s[i])
  }

  /** Length of the word a text starts with. */
  function WordLen(s: string): (n: nat)
    ensures n <= |s|
    ensures forall i :: 0 <= i < n ==> !IsWhitespace(s[i])
    ensures n < |s| ==> IsWhitespace(s[n])
  {
    if s == "" || IsWhitespace(s[0]) then 0 else 1 + WordLen(s[1..])
  }

  /** `str::split_whitespace`. */
  function Words(s: string): seq<string>
    decreases |s|
  {
    if s == "" then []
    else if IsWhitespace(s[0]) then Words(s[1..])
    else [s[..WordLen(s)]] + Words(s[WordLen(s)..])
  }

  /** `join(" ")`. */
  function JoinSpace(words: seq<string>): string {
    if words == [] then ""
    else if |words| == 1 then words[0]
    else words[0] + " " + JoinSpace(words[1..])
  }

  function Collapse(s: string): string {
    JoinSpace(Words(Normalize(s)))
  }

  function Detail(s: string): string {
    if Collapse(s) == "" then FALLBACK else Collapse(s)
  }

  function Sanitize(s: string): string {
    Truncate(Detail(s), LIMIT)
  }

  /** One line of words: no control character, no whitespace but single inner or trailing spaces. */
  ghost predicate SingleLine(t: string) {
    && (forall i :: 0 <= i < |t| ==> !IsControl(t[i]) && (IsWhitespace(t[i]) ==> t[i] == ' '))
    && (forall i :: 0 < i < |t| && t[i] == ' ' ==> t[i - 1] != ' ')
    && (t != "" ==> t[0] != ' ')
  }

  predicate EndsInSpace(t: string) {
    t != "" && t[|t| - 1] == ' '
  }

  function DropTrailingSpace(t: string): string {
    if EndsInSpace(t) then t[..|t| - 1] else t
  }

  ghost predicate IsWord(w: string) {
    w != "" && forall i :: 0 <= i < |w| ==> !IsWhitespace(w[i]) && !IsControl(w[i])
  }

  lemma {:induction false} WordsAreWords(s: string)
    requires forall i :: 0 <= i < |s| ==> !IsControl(s[i])
    ensures forall k :: 0 <= k < |Words(s)| ==> IsWord(Words(s)[k])
    decreases |s|
  {
    if s != "" {
      if IsWhitespace(s[0]) {
        WordsAreWords(s[1..]);
      } else {
        WordsAreWords(s[WordLen(s)..]);
      }
    }
  }

  lemma {:induction false} JoinedWordsAreOneLine(words: seq<string>)
    requires forall k :: 0 <= k < |words| ==> IsWord(words[k])
    ensures SingleLine(JoinSpace(words)) && !EndsInSpace(JoinSpace(words))
    ensures JoinSpace(words) == "" <==> words == []
  {
    if |words| > 1 {
      JoinedWordsAreOneLine(words[1..]);
      var rest := JoinSpace(words[1..]);
      var t := JoinSpace(words);
      assert t == words[0] + " " + rest;
      forall i | 0 <= i < |t|
        ensures !IsControl(t[i]) && (IsWhitespace(t[i]) ==> t[i] == ' ')
        ensures 0 < i && t[i] == ' ' ==> t[i - 1] != ' '
      {
        var n := |words[0]|;
        if i > n {
          assert t[i] == rest[i - n - 1];
          assert i > n + 1 ==> t[i - 1] == rest[i - n - 2];
        } else if i == n {
          assert t[i - 1] == words[0][n - 1];
        }
      }
      assert t[|t| - 1] == rest[|rest| - 1];
    }
  }

  lemma CollapseIsOneLine(s: string)
    ensures SingleLine(Collapse(s)) && !EndsInSpace(Collapse(s))
  {
    WordsAreWords(Normalize(s));
    JoinedWordsAreOneLine(Words(Normalize(s)));
  }

  /** Splitting a single line and joining it again only drops a trailing space. */
  lemma {:induction false} JoinUndoesWords(t: string)
    requires SingleLine(t)
    ensures JoinSpace(Words(t)) == DropTrailingSpace(t)
    ensures Words(t) == [] <==> t == ""
    decreases |t|
  {
    if t != "" {
      var n := WordLen(t);
      assert n > 0;
      if n == |t| {
        assert t[..n] == t && t[n..] == "";
      } else {
        var rest := t[n + 1..];
        if rest != "" {
          assert rest[0] == t[n + 1] != ' ';
        }
        forall i | 0 < i < |rest| && rest[i] == ' '
          ensures rest[i - 1] != ' '
        {
          assert t[n + 1 + i] == ' ';
        }
        assert t == t[..n] + " " + rest;
        assert SingleLine(rest);
        JoinUndoesWords(rest);
        WordsStep(t, n, rest);
        JoinStep(t[..n], Words(rest), rest);
      }
    }
  }

  lemma WordsStep(t: string, n: nat, rest: string)
    requires 0 < n == WordLen(t) && t == t[..n] + " " + rest
    ensures Words(t) == [t[..n]] + Words(rest)
  {
    assert t[n..] == " " + rest;
    assert t[n..][1..] == rest;
  }

  lemma JoinCons(w: string, words: seq<string>)
    requires words != []
    ensures JoinSpace([w] + words) == w + " " + JoinSpace(words)
  {
    assert ([w] + words)[1..] == words;
  }

  lemma JoinStep(w: string, words: seq<string>, rest: string)
    requires JoinSpace(words) == DropTrailingSpace(rest)
    requires words == [] <==> rest == ""
    ensures JoinSpace([w] + words) == DropTrailingSpace(w + " " + rest)
  {
    var t := w + " " + rest;
    if rest == "" {
      assert t[|t| - 1] == ' ' && t[..|t| - 1] == w;
    } else {
      JoinCons(w, words);
      assert t[|t| - 1] == rest[|rest| - 1];
      assert t[..|t| - 1] == w + " " + rest[..|rest| - 1];
    }
  }

  lemma CollapseOfOneLine(t: string)
    requires SingleLine(t)
    ensures Collapse(t) == DropTrailingSpace(t)
  {
    assert Normalize(t) == t;
    JoinUndoesWords(t);
  }

  lemma PrefixOfOneLine(t: string, u: string)
    requires SingleLine(u) && t <= u
    ensures SingleLine(t)
  {
    forall i | 0 < i < |t| && t[i] == ' '
      ensures t[i - 1] != ' '
    {
      assert u[i] == ' ';
    }
  }

  lemma FallbackIsOneLine()
    ensures SingleLine(FALLBACK) && !EndsInSpace(FALLBACK)
  {
    var words := ["factory", "operation", "failed"];
    assert words[1..] == ["operation", "failed"];
    assert words[1..][1..] == ["failed"];
    JoinedWordsAreOneLine(words);
    assert JoinSpace(words) == FALLBACK;
  }

  lemma DetailIsOneLine(s: string)
    ensures Detail(s) != "" && SingleLine(Detail(s)) && !EndsInSpace(Detail(s))
  {
    CollapseIsOneLine(s);
    FallbackIsOneLine();
  }

  /** What reaches the store: one non-empty line of at most 2,000 bytes. */
  lemma SanitizedDetail(s: string)
    ensures Sanitize(s) != "" && ByteLen(Sanitize(s)) <= LIMIT
    ensures SingleLine(Sanitize(s))
    ensures Sanitize(s) <= Detail(s)
  {
    var d := Detail(s);
    DetailIsOneLine(s);
    TruncateIsLongest(d, LIMIT);
    PrefixOfOneLine(Truncate(d, LIMIT), d);
    assert Utf8Len(d[0]) <= LIMIT;
  }

  /** A sanitized text loses at most its trailing space when it is sanitized again. */
  lemma SanitizeOfOneLine(t: string)
    requires SingleLine(t) && t != "" && ByteLen(t) <= LIMIT
    ensures Sanitize(t) == DropTrailingSpace(t)
    ensures SingleLine(Sanitize(t)) && !EndsInSpace(Sanitize(t))
  {
    CollapseOfOneLine(t);
    var c := Collapse(t);
    assert c <= t && c != "";
    PrefixOfOneLine(c, t);
    ByteLenMonotone(c, t);
    TruncateIsLongest(c, LIMIT);
  }

  /** The byte budget runs out within the character at position `i`. */
  predicate CrossesLimit(d: string, i: nat)
    requires i < |d|
  {
    ByteLen(d[..i]) <= LIMIT < ByteLen(d[..i + 1])
  }

  /** A space stands right before the character that crosses the budget. */
  predicate SpaceAtLimit(d: string) {
    exists i :: 0 < i < |d| && d[i - 1] == ' ' && CrossesLimit(d, i)
  }

  lemma CrossingIsTheCut(d: string, i: nat)
    requires i < |d| && CrossesLimit(d, i)
    ensures Truncate(d, LIMIT) == d[..i]
  {
    TruncateIsLongest(d, LIMIT);
    var t := Truncate(d, LIMIT);
    if |t| > i {
      assert d[..i + 1] <= t;
      ByteLenMonotone(d[..i + 1], t);
    }
  }

  lemma CutEndsInSpace(d: string)
    requires d != "" && !EndsInSpace(d)
    ensures EndsInSpace(Truncate(d, LIMIT)) <==> SpaceAtLimit(d)
  {
    var t := Truncate(d, LIMIT);
    TruncateIsLongest(d, LIMIT);
    if EndsInSpace(t) {
      assert t == d[..|t|] && d[..|t| + 1] <= d;
      assert CrossesLimit(d, |t|);
    }
    if SpaceAtLimit(d) {
      var i :| 0 < i < |d| && d[i - 1] == ' ' && CrossesLimit(d, i);
      CrossingIsTheCut(d, i);
    }
  }

  /** Two applications reach a fixpoint; one does exactly when no space stands right before the
      character that crosses the budget. */
  lemma SanitizeStabilises(s: string)
    ensures Sanitize(Sanitize(Sanitize(s))) == Sanitize(Sanitize(s))
    ensures Sanitize(Sanitize(s)) == Sanitize(s) <==> !SpaceAtLimit(Detail(s))
  {
    SanitizedDetail(s);
    SanitizeOfOneLine(Sanitize(s));
    SanitizedDetail(Sanitize(s));
    SanitizeOfOneLine(Sanitize(Sanitize(s)));
    DetailIsOneLine(s);
    CutEndsInSpace(Detail(s));
  }

  function Repeat(c: char, n: nat): string {
    seq(n, i => c)
  }

  lemma CutBehindSpace(s: string)
    requires |s| == 2001 && s[1999] == ' ' && forall i :: 0 <= i < 2001 ==> s[i] as int < 0x80
    ensures SpaceAtLimit(s)
  {
    assert s[..2001] == s;
    ByteLenOfAscii(s);
    ByteLenOfAscii(s[..2000]);
    assert CrossesLimit(s, 2000);
  }

  /** 1,999 letters, a space and one more word: the first application keeps the space. */
  lemma SanitizeIsNotIdempotent()
    ensures var s := Repeat('a', 1999) + " b"; Sanitize(Sanitize(s)) != Sanitize(s)
  {
    var a := Repeat('a', 1999);
    var s := a + " b";
    assert forall i :: 0 <= i < 1999 ==> s[i] == a[i] == 'a';
    assert s[1999] == ' ' && s[2000] == 'b';
    CutBehindSpace(s);
    CollapseOfOneLine(s);
    SanitizeStabilises(s);
  }

  // -------------------------------------------------------------------------
  // Nothing visible is lost
  // -------------------------------------------------------------------------

  predicate IsVisible(c: char) {
    !IsWhitespace(c) && !IsControl(c)
  }

  /** The characters that are neither whitespace nor control characters, in order. */
  function Visible(s: string): string {
    if s == "" then "" else (if IsVisible(s[0]) then [s[0]] else "") + Visible(s[1..])
  }

  lemma {:induction false} VisibleAppend(a: string, b: string)
    ensures Visible(a + b) == Visible(a) + Visible(b)
  {
    if a == "" {
      assert a + b == b;
    } else {
      VisibleAppend(a[1..], b);
      VisibleCons(a[0], a[1..] + b);
      AppendAssoc([a[0]], a[1..], b);
      assert a == [a[0]] + a[1..];
      AppendAssoc(if IsVisible(a[0]) then [a[0]] else "", Visible(a[1..]), Visible(b));
    }
  }

  lemma VisibleCons(c: char, s: string)
    ensures Visible([c] + s) == (if IsVisible(c) then [c] else "") + Visible(s)
  {
    assert ([c] + s)[1..] == s;
  }

  lemma {:induction false} NormalizeKeepsVisible(s: string)
    ensures Visible(Normalize(s)) == Visible(s)
  {
    if s != "" {
      assert Normalize(s)[1..] == Normalize(s[1..]);
      NormalizeKeepsVisible(s[1..]);
    }
  }

  lemma {:induction false} JoinedWordsAreVisible(s: string)
    requires forall i :: 0 <= i < |s| ==> !IsControl(s[i])
    ensures Visible(JoinSpace(Words(s))) == Visible(s)
    decreases |s|
  {
    if s != "" {
      if IsWhitespace(s[0]) {
        JoinedWordsAreVisible(s[1..]);
      } else {
        var n := WordLen(s);
        var word, rest := s[..n], Words(s[n..]);
        assert s == word + s[n..];
        VisibleAppend(word, s[n..]);
        JoinedWordsAreVisible(s[n..]);
        assert Words(s) == [word] + rest;
        if rest == [] {
          VisibleAppend(word, "");
          assert word + "" == word;
        } else {
          assert Words(s)[1..] == rest;
          VisibleAppend(word + " ", JoinSpace(rest));
          VisibleAppend(word, " ");
          assert JoinSpace(Words(s)) == word + " " + JoinSpace(rest);
        }
      }
    }
  }

  /** The collapsed text has the visible characters of the original, in order, and no others; what is
      stored is cut from it, and only the fallback text stands for a detail without any. */
  lemma NothingVisibleIsLost(s: string)
    ensures Visible(Collapse(s)) == Visible(s)
    ensures Visible(s) != "" ==> Detail(s) == Collapse(s) && Visible(Sanitize(s)) <= Visible(s)
    ensures Visible(s) == "" ==> Detail(s) == FALLBACK
  {
    CollapseKeepsVisible(s);
    CollapseIsOneLine(s);
    if Collapse(s) != "" {
      assert IsVisible(Collapse(s)[0]);
    }
    CutKeepsOrder(Detail(s));
  }

  lemma CollapseKeepsVisible(s: string)
    ensures Visible(Collapse(s)) == Visible(s)
  {
    NormalizeKeepsVisible(s);
    JoinedWordsAreVisible(Normalize(s));
  }

  lemma CutKeepsOrder(d: string)
    ensures Visible(Truncate(d, LIMIT)) <= Visible(d)
  {
    TruncateIsLongest(d, LIMIT);
    var t := Truncate(d, LIMIT);
    assert d == t + d[|t|..];
    VisibleAppend(t, d[|t|..]);
  }
}
