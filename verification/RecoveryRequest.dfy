/** What a recovery request carries (`recovery_contract_request` in crates/crony-cli/src/factory.rs), field
    by field, and when a persisted revision is recognised as its own. */
module RecoveryRequest {
  import opened Prelude
  import opened RustStr
  import opened Truncation
  import opened RecoveryContract

  // -------------------------------------------------------------------------
  // The contract
  // -------------------------------------------------------------------------

  /** Without a changed source or a source correction a request changes nothing but the marker. */
  lemma PlainRequestsKeepTheContract(contract: Contract, attempt: Attempt, digest: ReviewedSource -> string)
    requires attempt.mode != SourceCorrection && !attempt.sourceChanged
    ensures var c := RequestedContract(contract, attempt, digest);
            && c == contract.(references := c.references)
            && c.references == OperatorReferences(contract.references) + [Marker(digest, attempt.source)]
  {
  }

  /** An objective quotes its issue as far as it fits. */
  lemma ObjectivesQuoteTheIssue(issue: Issue)
    ensures IsLongestPrefix(IssueObjective(issue), IssueText(issue), MAX_OBJECTIVE_BYTES)
  {
    TruncateIsLongest(IssueText(issue), MAX_OBJECTIVE_BYTES);
  }

  /** Otherwise it is rewritten for the issue: the objective quotes it, and its checklist replaces the
      acceptance tests unless it is empty. */
  lemma RewritesAreForTheIssue(contract: Contract, attempt: Attempt, digest: ReviewedSource -> string)
    requires attempt.mode == SourceCorrection || attempt.sourceChanged
    ensures var c := RequestedContract(contract, attempt, digest);
            && c.authority == contract.authority && c.objective == IssueObjective(attempt.issue)
            && c.acceptanceTests
               == if attempt.issue.acceptance == [] then contract.acceptanceTests else attempt.issue.acceptance
  {
  }

  /** And the expected output names the issue. */
  lemma RewritesNameTheIssue(contract: Contract, attempt: Attempt, digest: ReviewedSource -> string)
    requires attempt.mode == SourceCorrection || attempt.sourceChanged
    ensures RequestedContract(contract, attempt, digest).expectedOutput
         == "A corrected, verified implementation for GitHub issue #" + Decimal(attempt.issue.number) + "."
  {
  }

  /** The issue's URL is among the references of a rewritten contract, added only if it was not there. */
  lemma RewritesNameTheUrl(references: seq<string>, url: string, marker: string)
    requires IsMarker(marker) && !IsMarker(url)
    ensures OperatorReferences(RequestedReferences(references, true, url, marker))
         == OperatorReferences(references) + if url in references then [] else [url]
    ensures OperatorReferences(RequestedReferences(references, false, url, marker)) == OperatorReferences(references)
    ensures url in RequestedReferences(references, true, url, marker)
  {
    var all := if url in references then references else references + [url];
    FilterMembers(r => !IsMarker(r), all);
    FilterAppend(r => !IsMarker(r), references, [url]);
    FilterSingle(r => !IsMarker(r), [url]);
    FilterSplitsMarkers(all, marker);
    FilterSplitsMarkers(references, marker);
  }

  /** A request is made exactly if the operator's references leave room for the marker; it is the
      attempt's, for the snapshot's task, version and source run. */
  lemma WhatRequestsCarry(snapshot: Snapshot, attempt: Attempt, digest: ReviewedSource -> string)
    ensures var references := RequestedContract(snapshot.contract, attempt, digest).references;
            && (RecoveryContractRequest(snapshot, attempt, digest).Ok? <==> |references| <= 64)
            && |references| == |OperatorReferences(references)| + 1
    ensures RecoveryContractRequest(snapshot, attempt, digest).Ok? ==>
              var r := RecoveryContractRequest(snapshot, attempt, digest).value;
              && r.actor == attempt.actor && r.reason == attempt.reason && r.policy == attempt.policy
              && r.task == snapshot.task && r.expectedVersion == snapshot.version && r.sourceRun == snapshot.sourceRun
              && r.nextAction == "resume" && r.description == NormalizeDescription(attempt.issue.body)
              && r.contract == RequestedContract(snapshot.contract, attempt, digest)
  {
    var all := if Rewrites(attempt) && attempt.issue.url !in snapshot.contract.references
               then snapshot.contract.references + [attempt.issue.url] else snapshot.contract.references;
    FilterSplitsMarkers(all, Marker(digest, attempt.source));
  }

  /** `part` stands somewhere in the text. */
  ghost predicate Quotes(text: string, part: string) {
    exists before, after :: text == before + part + after
  }

  lemma QuotesPart(text: string, before: string, part: string, after: string)
    requires text == before + part + after
    ensures Quotes(text, part)
  {
  }

  /** The text of an issue names its number and trimmed title, its URL and its revision, and ends with
      its trimmed body. */
  lemma IssueTextQuotesTheIssue(issue: Issue)
    ensures Quotes(IssueText(issue), "ISSUE: #" + Decimal(issue.number) + " \U{2014} " + Trim(issue.title) + "\n")
    ensures Quotes(IssueText(issue), "URL: " + issue.url + "\n")
    ensures Quotes(IssueText(issue), "SOURCE REVISION: " + issue.updatedAt + "\n\n" + Trim(issue.body))
  {
    var head := "Implement the authoritative GitHub issue below inside the assigned worktree.\n\n";
    var title := "ISSUE: #" + Decimal(issue.number) + " \U{2014} " + Trim(issue.title) + "\n";
    var url := "URL: " + issue.url + "\n";
    var body := "SOURCE REVISION: " + issue.updatedAt + "\n\n" + Trim(issue.body);
    IssueTextInParts(issue, head, title, url, body);
    AppendAssoc(head + title, url, body);
    QuotesPart(IssueText(issue), head, title, url + body);
    QuotesPart(IssueText(issue), head + title, url, body);
    QuotesPart(IssueText(issue), head + title + url, body, "");
  }

  lemma IssueTextInParts(issue: Issue, head: string, title: string, url: string, body: string)
    requires head == "Implement the authoritative GitHub issue below inside the assigned worktree.\n\n"
    requires title == "ISSUE: #" + Decimal(issue.number) + " \U{2014} " + Trim(issue.title) + "\n"
    requires url == "URL: " + issue.url + "\n"
    requires body == "SOURCE REVISION: " + issue.updatedAt + "\n\n" + Trim(issue.body)
    ensures IssueText(issue) == head + title + url + body
  {
    var toTitle := head + title;
    AppendFive(head, "ISSUE: #", Decimal(issue.number), " \U{2014} ", Trim(issue.title), "\n");
    AppendFive(toTitle, "URL: ", issue.url, "\n", "", "");
    AppendFive(toTitle + url, "SOURCE REVISION: ", issue.updatedAt, "\n\n", Trim(issue.body), "");
  }

  lemma AppendFive(s: string, a: string, b: string, c: string, d: string, e: string)
    ensures s + (a + b + c + d + e) == s + a + b + c + d + e
  {
    AppendAssoc(s, a + b + c + d, e);
    AppendAssoc(s, a + b + c, d);
    AppendAssoc(s, a + b, c);
    AppendAssoc(s, a, b);
  }

  // -------------------------------------------------------------------------
  // The revision
  // -------------------------------------------------------------------------

  /** A revision is the attempt's own: same corp, mission, task, source run, actor, action and reason, at
      the snapshot's version, with the replacement that the request predicts. */
  ghost predicate IsOwnRevision(v: Revision, attempt: Attempt, snapshot: Snapshot, request: Request) {
    && v.corp == attempt.corp && v.mission == attempt.mission && v.task == request.task
    && v.sourceRun == request.sourceRun && v.revisedBy == request.actor
    && v.nextAction == request.nextAction && v.reason == request.reason && v.version == snapshot.version
    && v.replacementDescription == request.description && v.replacementPolicy == request.policy
    && v.replacementContract == RecoveryReplacementContract(request)
  }

  /** A revision is found exactly if the snapshot already has the predicted contract and policy and
      holds an own revision; the one found is one of those. */
  lemma WhenRevisionIsFound(attempt: Attempt, snapshot: Snapshot, request: Request)
    ensures CachedRevision(attempt, snapshot, request).Some? <==>
            && snapshot.contract == RecoveryReplacementContract(request) && snapshot.policy == request.policy
            && exists v :: v in snapshot.revisions && IsOwnRevision(v, attempt, snapshot, request)
    ensures CachedRevision(attempt, snapshot, request).Some? ==>
              exists v :: v in snapshot.revisions && IsOwnRevision(v, attempt, snapshot, request)
                && v.id == CachedRevision(attempt, snapshot, request).value
  {
    assert forall v :: Matches(v, attempt, snapshot, request) <==> IsOwnRevision(v, attempt, snapshot, request);
  }

  // -------------------------------------------------------------------------
  // The texts
  // -------------------------------------------------------------------------

  function LineEnds(s: string): string {
    ReplaceCr(ReplaceCrLf(s))
  }

  lemma ReplaceCrLfStep(s: string)
    requires |s| >= 2
    ensures s[0] == '\r' && s[1] == '\n' ==> ReplaceCrLf(s) == "\n" + ReplaceCrLf(s[2..])
    ensures !(s[0] == '\r' && s[1] == '\n') ==> ReplaceCrLf(s) == [s[0]] + ReplaceCrLf(s[1..])
  {
  }

  /** The break between `a` and `b` is not inside a CR LF. */
  predicate IsClean(a: string, b: string) {
    !(a != "" && b != "" && a[|a| - 1] == '\r' && b[0] == '\n')
  }

  lemma {:induction false} ReplaceCrLfAppend(a: string, b: string)
    requires IsClean(a, b)
    ensures ReplaceCrLf(a + b) == ReplaceCrLf(a) + ReplaceCrLf(b)
    decreases |a|
  {
    if a == "" {
      assert a + b == b;
    } else if b == "" {
      assert a + b == a;
    } else if |a| == 1 {
      ReplaceCrLfStep(a + b);
      assert (a + b)[1..] == b && (a + b)[1] == b[0];
    } else {
      var n := if a[0] == '\r' && a[1] == '\n' then 2 else 1;
      ReplaceCrLfStep(a);
      ReplaceCrLfStep(a + b);
      assert (a + b)[n..] == a[n..] + b;
      assert a[n..] != "" ==> a[n..][|a[n..]| - 1] == a[|a| - 1];
      ReplaceCrLfAppend(a[n..], b);
      AppendAssoc(if n == 2 then "\n" else [a[0]], ReplaceCrLf(a[n..]), ReplaceCrLf(b));
    }
  }

  lemma {:induction false} ReplaceCrAppend(a: string, b: string)
    ensures ReplaceCr(a + b) == ReplaceCr(a) + ReplaceCr(b)
  {
    if a == "" {
      assert a + b == b;
    } else {
      assert (a + b)[1..] == a[1..] + b;
      ReplaceCrAppend(a[1..], b);
      AppendAssoc([if a[0] == '\r' then '\n' else a[0]], ReplaceCr(a[1..]), ReplaceCr(b));
    }
  }

  /** Line ends are normalised one by one: CR LF and a lone CR become LF, everything else stays. */
  lemma LineEndsAreNormalised(a: string, b: string, c: char)
    requires IsClean(a, b)
    ensures LineEnds(a + b) == LineEnds(a) + LineEnds(b)
    ensures LineEnds("") == "" && LineEnds("\r\n") == "\n" && LineEnds("\r") == "\n"
    ensures c != '\r' ==> LineEnds([c]) == [c]
  {
    ReplaceCrLfAppend(a, b);
    ReplaceCrAppend(ReplaceCrLf(a), ReplaceCrLf(b));
    assert "\r\n"[2..] == "";
    assert "\n"[1..] == "" && "\r"[1..] == "" && [c][1..] == "";
  }

  /** The value that a decimal text spells. */
  function ValueOf(s: string): int
    requires AreDigits(s)
  {
    if s == "" then 0 else ValueOf(s[..|s| - 1]) * 10 + (s[|s| - 1] as int - '0' as int)
  }

  ghost predicate AreDigits(s: string) {
    forall i :: 0 <= i < |s| ==> '0' <= s[i] <= '9'
  }

  lemma SpellOneMore(s: string, front: string, last: char)
    requires s == front + [last] && AreDigits(front) && '0' <= last <= '9'
    ensures s != "" && AreDigits(s) && ValueOf(s) == ValueOf(front) * 10 + (last as int - '0' as int)
    ensures s[0] == if front == "" then last else front[0]
  {
    assert s[..|s| - 1] == front;
  }

  lemma DigitIsItsValue(k: nat)
    requires k < 10
    ensures "0123456789"[k] as int == '0' as int + k
  {
    var digits := "0123456789";
    assert digits[0] == '0' && digits[1] == '1' && digits[2] == '2' && digits[3] == '3' && digits[4] == '4';
    assert digits[5] == '5' && digits[6] == '6' && digits[7] == '7' && digits[8] == '8' && digits[9] == '9';
  }

  lemma {:induction false} DigitsSpell(n: nat)
    ensures Digits(n) != "" && AreDigits(Digits(n))
    ensures ValueOf(Digits(n)) == n && (n > 0 ==> Digits(n)[0] != '0')
  {
    DigitIsItsValue(n % 10);
    if n < 10 {
      SpellOneMore(Digits(n), "", "0123456789"[n % 10]);
    } else {
      DigitsSpell(n / 10);
      SpellOneMore(Digits(n), Digits(n / 10), "0123456789"[n % 10]);
    }
  }

  /** Issue numbers are written in decimal, without leading zeros and with a sign if negative. */
  lemma DecimalsSpell(n: int)
    ensures var digits := if n < 0 then Decimal(n)[1..] else Decimal(n);
            && (n < 0 ==> Decimal(n) == "-" + digits)
            && digits != "" && AreDigits(digits)
            && ValueOf(digits) == (if n < 0 then -n else n) && (n != 0 ==> digits[0] != '0')
  {
    DigitsSpell(if n < 0 then -n else n);
  }
}
