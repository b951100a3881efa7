/** The completeness verdict over a run's verification records
    (`automatedVerificationPresentation` in apps/web/src/App.tsx). */
module VerificationEvidence {
  import opened Prelude

  const MAX_SAFE_INTEGER := 9007199254740991

  /** A JSON number is a real here; an index may be fractional or negative. */
  datatype Evidence = Evidence(run: string, task: string, checkIndex: real, status: string)

  datatype Event = Event(kind: string, aggregateType: string, aggregateId: string, checkCount: Option<real>)

  /** `checkCount` is the length of the replacement policy's checks, if it has any. */
  datatype Recovery = Recovery(replacementRun: string, task: string, checkCount: Option<nat>)

  datatype Run = Run(id: string, task: string)

  datatype Status = Failed | Passed | Pending

  datatype Presentation = Presentation(
    records: seq<Evidence>, total: Option<nat>, passed: nat, failed: nat, missing: Option<int>, status: Status)

  predicate IsInteger(x: real) {
    x == x.Floor as real
  }

  /** A receipt that is a positive safe integer. */
  predicate ValidReceipt(receipt: Option<real>) {
    receipt.Some? && IsInteger(receipt.value) && 0.0 < receipt.value <= MAX_SAFE_INTEGER as real
  }

  function RunRecords(run: Run, evidence: seq<Evidence>): seq<Evidence> {
    Filter((e: Evidence) => e.run == run.id && e.task == run.task, evidence)
  }

  function StartReceipts(run: Run, events: seq<Event>): seq<Option<real>> {
    var started := Filter(
      (e: Event) => e.kind == "run.verification_started" && e.aggregateType == "run" && e.aggregateId == run.id,
      events);
    seq(|started|, i requires 0 <= i < |started| => started[i].checkCount)
  }

  function RecoveryReceipts(run: Run, recoveries: seq<Recovery>): seq<Option<real>> {
    var replaced := Filter((r: Recovery) => r.replacementRun == run.id && r.task == run.task, recoveries);
    seq(|replaced|, i requires 0 <= i < |replaced| =>
      if replaced[i].checkCount.Some? then Some(replaced[i].checkCount.value as real) else None)
  }

  function Receipts(run: Run, events: seq<Event>, recoveries: seq<Recovery>): seq<Option<real>> {
    StartReceipts(run, events) + RecoveryReceipts(run, recoveries)
  }

  function ValidReceipts(receipts: seq<Option<real>>): seq<Option<real>> {
    Filter(ValidReceipt, receipts)
  }

  function Totals(receipts: seq<Option<real>>): set<Option<real>> {
    set r | r in ValidReceipts(receipts)
  }

  /** The one positive total on which all receipts agree. */
  function Total(receipts: seq<Option<real>>): (total: Option<nat>)
    ensures total.Some? <==>
            receipts != [] && ValidReceipt(receipts[0]) && forall r :: r in receipts ==> r == receipts[0]
    ensures total.Some? ==> receipts[0] == Some(total.value as real) && total.value > 0
  {
    var conflicting := |receipts| != |ValidReceipts(receipts)| || |Totals(receipts)| > 1;
    ReceiptsAgree(receipts);
    if !conflicting && |Totals(receipts)| == 1 then Some(receipts[0].value.Floor) else None
  }

  lemma FilterKeepsLength<T>(p: T -> bool, s: seq<T>)
    ensures |Filter(p, s)| <= |s|
    ensures |Filter(p, s)| == |s| <==> forall x :: x in s ==> p(x)
  {
    if s != [] {
      FilterKeepsLength(p, s[1..]);
      assert s == [s[0]] + s[1..];
    }
  }

  lemma SingletonCardinality<T>(s: set<T>, x: T)
    requires x in s
    ensures |s| == 1 <==> forall y :: y in s ==> y == x
  {
    if forall y :: y in s ==> y == x {
      assert s == {x};
    } else {
      var y :| y in s && y != x;
      assert {x, y} <= s;
      SubsetCardinality({x, y}, s);
    }
  }

  lemma SubsetCardinality<T>(a: set<T>, b: set<T>)
    requires a <= b
    ensures |a| <= |b|
  {
    if a != {} {
      var x :| x in a;
      SubsetCardinality(a - {x}, b - {x});
    }
  }

  lemma ReceiptsAgree(receipts: seq<Option<real>>)
    ensures (|receipts| == |ValidReceipts(receipts)| && |Totals(receipts)| == 1) <==>
              receipts != [] && ValidReceipt(receipts[0]) && forall r :: r in receipts ==> r == receipts[0]
  {
    FilterKeepsLength(ValidReceipt, receipts);
    FilterMembers(ValidReceipt, receipts);
    if receipts == [] {
      assert Totals(receipts) == {};
    } else if |receipts| == |ValidReceipts(receipts)| {
      assert forall r :: r in receipts ==> ValidReceipt(r);
      FilterAll(ValidReceipt, receipts);
      assert forall r :: r in Totals(receipts) <==> r in ValidReceipts(receipts);
      assert receipts[0] in Totals(receipts);
      SingletonCardinality(Totals(receipts), receipts[0]);
    }
  }

  predicate Known(status: string) {
    status == "passed" || status == "failed"
  }

  function Indices(records: seq<Evidence>): set<real> {
    set e | e in records :: e.checkIndex
  }

  predicate Inconsistent(records: seq<Evidence>, total: Option<nat>) {
    || |Indices(records)| != |records|
    || exists e :: e in records &&
         (!IsInteger(e.checkIndex) || e.checkIndex < 0.0 || !Known(e.status)
          || (total.Some? && e.checkIndex >= total.value as real))
  }

  function CountStatus(status: string, records: seq<Evidence>): nat {
    |Filter((e: Evidence) => e.status == status, records)|
  }

  /** `toSorted` by check index: a stable insertion sort. */
  function InsertByIndex(e: Evidence, sorted: seq<Evidence>): seq<Evidence> {
    if sorted == [] || e.checkIndex <= sorted[0].checkIndex then [e] + sorted
    else [sorted[0]] + InsertByIndex(e, sorted[1..])
  }

  function SortByIndex(records: seq<Evidence>): seq<Evidence> {
    if records == [] then [] else InsertByIndex(records[0], SortByIndex(records[1..]))
  }

  function AutomatedVerificationPresentation(run: Option<Run>, evidence: seq<Evidence>, events: seq<Event>,
                                             recoveries: seq<Recovery>): Presentation
  {
    var records := if run.Some? then SortByIndex(RunRecords(run.value, evidence)) else [];
    var total := if run.Some? then Total(Receipts(run.value, events, recoveries)) else None;
    var inconsistent := Inconsistent(records, total);
    var passed := CountStatus("passed", records);
    var failed := CountStatus("failed", records);
    var missing := if total.Some? && !inconsistent then Some(total.value - |records|) else None;
    var complete := missing == Some(0) && failed == 0;
    Presentation(records, total, passed, failed, missing,
                 if failed > 0 then Failed else if complete then Passed else Pending)
  }

  // -------------------------------------------------------------------------
  // Sorting
  // -------------------------------------------------------------------------

  ghost predicate SortedByIndex(s: seq<Evidence>) {
    forall i, j :: 0 <= i < j < |s| ==> s[i].checkIndex <= s[j].checkIndex
  }

  lemma InsertKeepsElements(e: Evidence, s: seq<Evidence>)
    ensures multiset(InsertByIndex(e, s)) == multiset{e} + multiset(s)
  {
    if s != [] {
      InsertKeepsElements(e, s[1..]);
      assert s == [s[0]] + s[1..];
    }
  }

  lemma ConsSorts(e: Evidence, rest: seq<Evidence>)
    requires SortedByIndex(rest) && forall x :: x in rest ==> e.checkIndex <= x.checkIndex
    ensures SortedByIndex([e] + rest)
  {
  }

  lemma InsertSorts(e: Evidence, s: seq<Evidence>)
    requires SortedByIndex(s)
    ensures SortedByIndex(InsertByIndex(e, s))
  {
    if s != [] {
      assert forall x :: x in s ==> s[0].checkIndex <= x.checkIndex;
      if e.checkIndex <= s[0].checkIndex {
        ConsSorts(e, s);
      } else {
        InsertSorts(e, s[1..]);
        InsertKeepsElements(e, s[1..]);
        var rest := InsertByIndex(e, s[1..]);
        forall x | x in rest
          ensures s[0].checkIndex <= x.checkIndex
        {
          assert x in multiset(rest);
        }
        ConsSorts(s[0], rest);
      }
    }
  }

  lemma SortSorts(s: seq<Evidence>)
    ensures SortedByIndex(SortByIndex(s)) && multiset(SortByIndex(s)) == multiset(s)
  {
    if s != [] {
      SortSorts(s[1..]);
      InsertSorts(s[0], SortByIndex(s[1..]));
      InsertKeepsElements(s[0], SortByIndex(s[1..]));
      assert s == [s[0]] + s[1..];
    }
  }

  // -------------------------------------------------------------------------
  // Pigeonhole
  // -------------------------------------------------------------------------

  ghost predicate DistinctIndices(s: seq<Evidence>) {
    forall i, j :: 0 <= i < j < |s| ==> s[i].checkIndex != s[j].checkIndex
  }

  lemma {:induction false} IndicesAreDistinct(s: seq<Evidence>)
    ensures |Indices(s)| <= |s|
    ensures |Indices(s)| == |s| <==> DistinctIndices(s)
  {
    if s == [] {
      assert Indices(s) == {};
    } else {
      var rest, first := s[1..], s[0].checkIndex;
      IndicesAreDistinct(rest);
      IndicesOfCons(s[0], rest);
      assert s == [s[0]] + rest;
      DistinctCons(s[0], rest);
    }
  }

  lemma IndicesOfCons(e: Evidence, rest: seq<Evidence>)
    ensures Indices([e] + rest) == {e.checkIndex} + Indices(rest)
    ensures |Indices([e] + rest)| == |Indices(rest)| + if e.checkIndex in Indices(rest) then 0 else 1
  {
    assert forall x :: x in [e] + rest <==> x == e || x in rest;
    assert Indices([e] + rest) == {e.checkIndex} + Indices(rest);
    if e.checkIndex in Indices(rest) {
      assert {e.checkIndex} + Indices(rest) == Indices(rest);
    }
  }

  lemma DistinctCons(e: Evidence, rest: seq<Evidence>)
    ensures DistinctIndices([e] + rest) <==> DistinctIndices(rest) && e.checkIndex !in Indices(rest)
  {
    var s := [e] + rest;
    assert forall j :: 1 <= j < |s| ==> s[j] == rest[j - 1];
    if DistinctIndices(s) {
      forall i, j | 0 <= i < j < |rest|
        ensures rest[i].checkIndex != rest[j].checkIndex
      {
        assert s[i + 1].checkIndex != s[j + 1].checkIndex;
      }
      forall x | x in rest
        ensures x.checkIndex != e.checkIndex
      {
        var j :| 0 <= j < |rest| && rest[j] == x;
        assert s[0].checkIndex != s[j + 1].checkIndex;
      }
    }
  }

  /** Increasing naturals: each is at least its position. */
  lemma {:induction false} AtLeastPosition(xs: seq<int>, k: nat)
    requires k < |xs| && forall i :: 0 <= i < |xs| ==> xs[i] >= 0
    requires forall i, j :: 0 <= i < j < |xs| ==> xs[i] < xs[j]
    ensures xs[k] >= k
  {
    if k > 0 {
      AtLeastPosition(xs, k - 1);
    }
  }

  /** If all of them lie below their number, each equals its position. */
  lemma {:induction false} EqualsPosition(xs: seq<int>, k: nat)
    requires k < |xs| && forall i :: 0 <= i < |xs| ==> 0 <= xs[i] < |xs|
    requires forall i, j :: 0 <= i < j < |xs| ==> xs[i] < xs[j]
    ensures xs[k] == k
    decreases |xs| - k
  {
    AtLeastPosition(xs, k);
    if k + 1 < |xs| {
      EqualsPosition(xs, k + 1);
    }
  }

  /** The indices of sorted, distinct records, as whole numbers. */
  function WholeIndices(s: seq<Evidence>): seq<int> {
    seq(|s|, i requires 0 <= i < |s| => s[i].checkIndex.Floor)
  }

  lemma WholeIndicesIncrease(s: seq<Evidence>)
    requires SortedByIndex(s) && DistinctIndices(s)
    requires forall e :: e in s ==> IsInteger(e.checkIndex) && e.checkIndex >= 0.0
    ensures var xs := WholeIndices(s);
            && (forall i :: 0 <= i < |xs| ==> xs[i] >= 0 && s[i].checkIndex == xs[i] as real)
            && (forall i, j :: 0 <= i < j < |xs| ==> xs[i] < xs[j])
  {
    var xs := WholeIndices(s);
    assert forall i :: 0 <= i < |s| ==> s[i] in s;
    forall i, j | 0 <= i < j < |xs|
      ensures xs[i] < xs[j]
    {
      assert s[i].checkIndex < s[j].checkIndex;
    }
  }

  /** The records are one passing record per check index below `n`, in order. */
  ghost predicate OnePassingRecordPerCheck(records: seq<Evidence>, n: nat) {
    |records| == n && forall k :: 0 <= k < n ==> records[k].checkIndex == k as real && records[k].status == "passed"
  }

  lemma CountsOfKnown(records: seq<Evidence>)
    requires forall e :: e in records ==> Known(e.status)
    ensures CountStatus("passed", records) + CountStatus("failed", records) == |records|
  {
    if records != [] {
      CountsOfKnown(records[1..]);
    }
  }

  lemma NoneFailed(records: seq<Evidence>)
    ensures CountStatus("failed", records) == 0 <==> forall e :: e in records ==> e.status != "failed"
  {
    if records != [] {
      NoneFailed(records[1..]);
      assert records == [records[0]] + records[1..];
    }
  }

  lemma PassingRecordsAreConsistent(records: seq<Evidence>, n: nat)
    requires OnePassingRecordPerCheck(records, n)
    ensures !Inconsistent(records, Some(n)) && CountStatus("failed", records) == 0
  {
    IndicesAreDistinct(records);
    NoneFailed(records);
    forall e | e in records
      ensures IsInteger(e.checkIndex) && 0.0 <= e.checkIndex < n as real
    {
      var k :| 0 <= k < n && records[k] == e;
    }
  }

  lemma CompleteRecordsAreInOrder(records: seq<Evidence>, n: nat)
    requires SortedByIndex(records) && !Inconsistent(records, Some(n))
    requires |records| == n && CountStatus("failed", records) == 0
    ensures OnePassingRecordPerCheck(records, n)
  {
    IndicesAreDistinct(records);
    NoneFailed(records);
    WholeIndicesIncrease(records);
    assert forall k :: 0 <= k < n ==> records[k] in records;
    forall k | 0 <= k < n
      ensures records[k].checkIndex == k as real
    {
      EqualsPosition(WholeIndices(records), k);
    }
  }

  lemma RecordsAreSorted(run: Option<Run>, evidence: seq<Evidence>, events: seq<Event>, recoveries: seq<Recovery>)
    ensures var p := AutomatedVerificationPresentation(run, evidence, events, recoveries);
            && SortedByIndex(p.records)
            && (p.total.Some? ==> run.Some?)
            && (run.Some? ==> multiset(p.records) == multiset(RunRecords(run.value, evidence)))
            && (p.status == Passed <==>
                  && p.total.Some? && !Inconsistent(p.records, p.total)
                  && |p.records| == p.total.value && CountStatus("failed", p.records) == 0)
  {
    if run.Some? {
      SortSorts(RunRecords(run.value, evidence));
    }
  }

  /** The verdict `passed` means complete evidence, and complete evidence is `passed`: the total is
      known, and the records are exactly one passing record for every check. */
  lemma PassedMeansComplete(run: Option<Run>, evidence: seq<Evidence>, events: seq<Event>, recoveries: seq<Recovery>)
    ensures var p := AutomatedVerificationPresentation(run, evidence, events, recoveries);
            && (p.status == Passed <==> p.total.Some? && OnePassingRecordPerCheck(p.records, p.total.value))
            && (p.status == Passed ==> run.Some? && multiset(p.records) == multiset(RunRecords(run.value, evidence)))
  {
    var p := AutomatedVerificationPresentation(run, evidence, events, recoveries);
    RecordsAreSorted(run, evidence, events, recoveries);
    if p.status == Passed {
      CompleteRecordsAreInOrder(p.records, p.total.value);
    }
    if p.total.Some? && OnePassingRecordPerCheck(p.records, p.total.value) {
      PassingRecordsAreConsistent(p.records, p.total.value);
    }
  }

  /** A reported number of missing checks is never negative, and it counts with the passed and
      failed ones to the total. */
  lemma MissingIsNeverNegative(run: Option<Run>, evidence: seq<Evidence>, events: seq<Event>, recoveries: seq<Recovery>)
    ensures var p := AutomatedVerificationPresentation(run, evidence, events, recoveries);
            && (p.missing.Some? ==> p.missing.value >= 0 && p.total.Some?
                                    && p.passed + p.failed + p.missing.value == p.total.value)
            && (!Inconsistent(p.records, p.total) ==> p.passed + p.failed == |p.records|)
  {
    var p := AutomatedVerificationPresentation(run, evidence, events, recoveries);
    if run.Some? {
      SortSorts(RunRecords(run.value, evidence));
    }
    if !Inconsistent(p.records, p.total) {
      IndicesAreDistinct(p.records);
      CountsOfKnown(p.records);
      if p.total.Some? && p.records != [] {
        var last := |p.records| - 1;
        WholeIndicesIncrease(p.records);
        AtLeastPosition(WholeIndices(p.records), last);
        assert p.records[last] in p.records;
      }
    }
  }

  /** The verdict in terms of the evidence: failed exactly if a record of the run failed, passed as
      above, and pending otherwise. */
  lemma FailedMeansAFailedRecord(run: Option<Run>, evidence: seq<Evidence>, events: seq<Event>,
                                 recoveries: seq<Recovery>)
    ensures var p := AutomatedVerificationPresentation(run, evidence, events, recoveries);
            && (p.status == Failed <==>
                  run.Some? && exists e :: e in evidence && e.run == run.value.id && e.task == run.value.task
                                           && e.status == "failed")
            && (p.status == Pending <==>
                  p.status != Failed && !(p.total.Some? && OnePassingRecordPerCheck(p.records, p.total.value)))
  {
    var p := AutomatedVerificationPresentation(run, evidence, events, recoveries);
    PassedMeansComplete(run, evidence, events, recoveries);
    FailedAreCounted(p.records);
    if run.Some? {
      SortSorts(RunRecords(run.value, evidence));
      FilterMembers((e: Evidence) => e.run == run.value.id && e.task == run.value.task, evidence);
      assert forall e :: e in p.records <==> e in RunRecords(run.value, evidence) by {
        assert forall e :: e in p.records <==> e in multiset(p.records);
        assert forall e :: e in RunRecords(run.value, evidence) <==> e in multiset(RunRecords(run.value, evidence));
      }
    }
  }

  lemma FailedAreCounted(records: seq<Evidence>)
    ensures CountStatus("failed", records) > 0 <==> exists e :: e in records && e.status == "failed"
  {
    FilterMembers((e: Evidence) => e.status == "failed", records);
    var failed := Filter((e: Evidence) => e.status == "failed", records);
    if failed != [] {
      assert failed[0] in failed;
    }
  }

  ghost predicate IsStartReceipt(run: Run, events: seq<Event>, receipt: Option<real>) {
    exists e :: e in events && e.kind == "run.verification_started" && e.aggregateType == "run"
      && e.aggregateId == run.id && receipt == e.checkCount
  }

  ghost predicate IsRecoveryReceipt(run: Run, recoveries: seq<Recovery>, receipt: Option<real>) {
    exists r :: r in recoveries && r.replacementRun == run.id && r.task == run.task
      && receipt == match r.checkCount case Some(n) => Some(n as real) case None => None
  }

  /** The check counts that the run's own events and recoveries report, as they stand in the snapshot. */
  ghost predicate IsReceipt(run: Run, events: seq<Event>, recoveries: seq<Recovery>, receipt: Option<real>) {
    IsStartReceipt(run, events, receipt) || IsRecoveryReceipt(run, recoveries, receipt)
  }

  /** Mapping the elements that satisfy a predicate. */
  lemma MappedMembers<T, U>(s: seq<T>, mapped: seq<U>, f: T -> U, y: U)
    requires |mapped| == |s| && forall i :: 0 <= i < |s| ==> mapped[i] == f(s[i])
    ensures y in mapped <==> exists x :: x in s && y == f(x)
  {
    if y in mapped {
      var i :| 0 <= i < |mapped| && mapped[i] == y;
      assert s[i] in s;
    }
    if x :| x in s && y == f(x) {
      var i :| 0 <= i < |s| && s[i] == x;
      assert mapped[i] == y;
    }
  }

  lemma StartReceiptsAreTheRuns(run: Run, events: seq<Event>, receipt: Option<real>)
    ensures receipt in StartReceipts(run, events) <==> IsStartReceipt(run, events, receipt)
  {
    var isStart := (e: Event) =>
      e.kind == "run.verification_started" && e.aggregateType == "run" && e.aggregateId == run.id;
    FilterMembers(isStart, events);
    MappedMembers(Filter(isStart, events), StartReceipts(run, events), (e: Event) => e.checkCount, receipt);
  }

  lemma RecoveryReceiptsAreTheRuns(run: Run, recoveries: seq<Recovery>, receipt: Option<real>)
    ensures receipt in RecoveryReceipts(run, recoveries) <==> IsRecoveryReceipt(run, recoveries, receipt)
  {
    var isOwn := (r: Recovery) => r.replacementRun == run.id && r.task == run.task;
    FilterMembers(isOwn, recoveries);
    var policyCount := (r: Recovery) => if r.checkCount.Some? then Some(r.checkCount.value as real) else None;
    MappedMembers(Filter(isOwn, recoveries), RecoveryReceipts(run, recoveries), policyCount, receipt);
  }

  lemma ReceiptsAreTheRuns(run: Run, events: seq<Event>, recoveries: seq<Recovery>, receipt: Option<real>)
    ensures receipt in Receipts(run, events, recoveries) <==> IsReceipt(run, events, recoveries, receipt)
  {
    StartReceiptsAreTheRuns(run, events, receipt);
    RecoveryReceiptsAreTheRuns(run, recoveries, receipt);
  }

  /** The total is known exactly if the run has a receipt and all of its receipts are that number,
      a positive safe integer. */
  lemma WhenTotalIsKnown(run: Option<Run>, evidence: seq<Evidence>, events: seq<Event>, recoveries: seq<Recovery>,
                         n: nat)
    ensures AutomatedVerificationPresentation(run, evidence, events, recoveries).total == Some(n) <==>
            && run.Some? && 0 < n <= 9_007_199_254_740_991
            && IsReceipt(run.value, events, recoveries, Some(n as real))
            && forall receipt :: IsReceipt(run.value, events, recoveries, receipt) ==> receipt == Some(n as real)
  {
    if run.Some? {
      var receipts := Receipts(run.value, events, recoveries);
      forall receipt
        ensures receipt in receipts <==> IsReceipt(run.value, events, recoveries, receipt)
      {
        ReceiptsAreTheRuns(run.value, events, recoveries, receipt);
      }
      WhenReceiptsAgreeOn(receipts, n);
    }
  }

  lemma WhenReceiptsAgreeOn(receipts: seq<Option<real>>, n: nat)
    ensures Total(receipts) == Some(n) <==>
            && 0 < n <= 9_007_199_254_740_991 && Some(n as real) in receipts
            && forall receipt :: receipt in receipts ==> receipt == Some(n as real)
  {
    if receipts != [] {
      assert receipts[0] in receipts;
    }
    assert (n as real).Floor == n;
  }

  /** The records are the run's, and the counts are theirs. */
  lemma CountsAreTheRuns(run: Option<Run>, evidence: seq<Evidence>, events: seq<Event>, recoveries: seq<Recovery>)
    ensures var p := AutomatedVerificationPresentation(run, evidence, events, recoveries);
            && (forall e :: e in p.records <==>
                  run.Some? && e in evidence && e.run == run.value.id && e.task == run.value.task)
            && p.passed == |Filter((e: Evidence) => e.status == "passed", p.records)|
            && p.failed == |Filter((e: Evidence) => e.status == "failed", p.records)|
  {
    if run.Some? {
      SortSorts(RunRecords(run.value, evidence));
      FilterMembers((e: Evidence) => e.run == run.value.id && e.task == run.value.task, evidence);
      var sorted, records := SortByIndex(RunRecords(run.value, evidence)), RunRecords(run.value, evidence);
      assert forall e :: e in sorted <==> e in multiset(sorted);
      assert forall e :: e in records <==> e in multiset(records);
    }
  }

  /** How many checks are missing is reported exactly if the total is known, no index is recorded twice,
      and every record passed or failed at a whole index below the total. */
  lemma WhenMissingIsReported(run: Option<Run>, evidence: seq<Evidence>, events: seq<Event>,
                              recoveries: seq<Recovery>)
    ensures var p := AutomatedVerificationPresentation(run, evidence, events, recoveries);
            && (p.missing.Some? <==>
                  && p.total.Some? && DistinctIndices(p.records)
                  && forall e :: e in p.records ==>
                       && (e.status == "passed" || e.status == "failed")
                       && e.checkIndex == e.checkIndex.Floor as real && 0.0 <= e.checkIndex < p.total.value as real)
            && (p.missing.Some? ==> p.missing.value == p.total.value - |p.records|)
  {
    IndicesAreDistinct(AutomatedVerificationPresentation(run, evidence, events, recoveries).records);
  }
}
