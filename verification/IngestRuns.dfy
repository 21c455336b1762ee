/** Runs of the ingest: any sequence of opened runs, posted results, closes and soft deletes. */
module IngestRuns {
  import opened Wrappers
  import opened Text
  import opened AutomationStatus
  import opened Ingest

  datatype Step =
    | RunOpened(project: string, externalId: Option<string>, name: string, caseIds: seq<string>)
    | Posted(project: string, run: nat, caseId: string, status: string, retryCount: Option<nat>)
    | Closed(project: string, run: nat, closeStatus: string)
    | Removed(execution: nat)

  // A whole createRun with nobody else in between.
  function OpenRun(db: Db, project: string, externalId: Option<string>, name: string, caseIds: seq<string>)
    : (Db, nat, bool)
  {
    var existing := if externalId.Some? then FindRun(db, project, externalId.value) else None;
    if existing.Some? then (Attach(db, existing.value, project, caseIds), existing.value, true)
    else (Attach(InsertRun(db, project, externalId, name), |db.runs|, project, caseIds), |db.runs|, false)
  }

  function Advance(db: Db, step: Step): Db {
    match step
    case RunOpened(project, externalId, name, caseIds) => OpenRun(db, project, externalId, name, caseIds).0
    case Posted(project, run, caseId, status, retryCount) => Record(db, project, run, caseId, status, retryCount).0
    case Closed(project, run, closeStatus) => Close(db, project, run, closeStatus)
    case Removed(execution) => SoftDelete(db, execution)
  }

  function Run(db: Db, steps: seq<Step>): Db {
    if steps == [] then db else Advance(Run(db, steps[..|steps| - 1]), steps[|steps| - 1])
  }

  lemma InsertRunKeeps(db: Db, project: string, externalId: Option<string>, name: string)
    requires DbOk(db)
    requires externalId.Some? ==> FindRun(db, project, externalId.value).None?
    ensures DbOk(InsertRun(db, project, externalId, name))
  {
  }

  lemma StepKeeps(db: Db, step: Step)
    requires DbOk(db)
    ensures DbOk(Advance(db, step)) && Advance(db, step).cases == db.cases && |db.runs| <= |Advance(db, step).runs|
  {
    match step
    case RunOpened(project, externalId, name, caseIds) =>
      var existing := if externalId.Some? then FindRun(db, project, externalId.value) else None;
      if existing.Some? {
        AttachKeeps(db, existing.value, project, caseIds);
      } else {
        InsertRunKeeps(db, project, externalId, name);
        AttachKeeps(InsertRun(db, project, externalId, name), |db.runs|, project, caseIds);
      }
    case Posted(project, run, caseId, status, retryCount) => RecordKeeps(db, project, run, caseId, status, retryCount);
    case Closed(_, _, _) =>
    case Removed(_) =>
  }

  // In every reachable state: runs are unique per idempotency key, each (run, case) has at most
  // one item, item positions in a run are pairwise distinct, each item has exactly one result
  // row, and only the stored vocabulary is in it.
  lemma {:induction false} RunKeeps(db: Db, steps: seq<Step>)
    requires DbOk(db)
    ensures DbOk(Run(db, steps))
  {
    if steps != [] {
      RunKeeps(db, steps[..|steps| - 1]);
      StepKeeps(Run(db, steps[..|steps| - 1]), steps[|steps| - 1]);
    }
  }

  // Opening a run gives the one the key already has, as it stands, or adds one with this project, key
  // and name, not closed; a run without a key is always a new one.
  lemma OpenedRun(db: Db, project: string, externalId: Option<string>, name: string, caseIds: seq<string>)
    requires DbOk(db)
    ensures var (after, run, reused) := OpenRun(db, project, externalId, name, caseIds);
            && run < |after.runs| && after.runs[run].project == project && after.runs[run].externalId == externalId
            && (reused <==> externalId.Some? && FindRun(db, project, externalId.value).Some?)
            && after.runs == (if reused then db.runs else db.runs + [Cycle(project, externalId, name, None)])
            && (!reused ==> run == |db.runs|)
  {
    var existing := if externalId.Some? then FindRun(db, project, externalId.value) else None;
    var testcases := Resolved(db.cases, project, caseIds);
    if existing.Some? {
      InsertedAdds(db, existing.value, testcases, MaxPosition(db.items, existing.value));
    } else {
      var d := InsertRun(db, project, externalId, name);
      InsertedAdds(d, |db.runs|, Resolved(d.cases, project, caseIds), MaxPosition(d.items, |db.runs|));
    }
  }

  // The word of the first close of this run among the steps.
  function FirstClose(steps: seq<Step>, run: nat, project: string): Option<string> {
    if steps == [] then None
    else
      var earlier, last := FirstClose(steps[..|steps| - 1], run, project), steps[|steps| - 1];
      if earlier.Some? then earlier
      else if last.Closed? && last.run == run && last.project == project then Some(last.closeStatus)
      else None
  }

  lemma StepCloses(db: Db, step: Step, run: nat)
    requires DbOk(db) && run < |db.runs|
    ensures run < |Advance(db, step).runs|
    ensures Advance(db, step).runs[run]
         == if step.Closed? && step.run == run && step.project == db.runs[run].project && db.runs[run].closeStatus.None?
            then db.runs[run].(closeStatus := Some(step.closeStatus)) else db.runs[run]
  {
    match step
    case RunOpened(project, externalId, name, caseIds) => OpenedRun(db, project, externalId, name, caseIds);
    case Posted(project, to, caseId, status, retryCount) => RecordKeeps(db, project, to, caseId, status, retryCount);
    case _ =>
  }

  // Over every run of the ingest, a run is closed exactly by the first close sent to it in its own
  // project, with that one's word for good, and nothing else about it ever changes.
  lemma {:induction false} FirstCloseWins(db: Db, steps: seq<Step>, run: nat)
    requires DbOk(db) && run < |db.runs| && db.runs[run].closeStatus.None?
    ensures run < |Run(db, steps).runs|
    ensures Run(db, steps).runs[run] == db.runs[run].(closeStatus := FirstClose(steps, run, db.runs[run].project))
  {
    if steps != [] {
      var front := steps[..|steps| - 1];
      FirstCloseWins(db, front, run);
      RunKeeps(db, front);
      StepCloses(Run(db, front), steps[|steps| - 1], run);
    }
  }

  // ---------------------------------------------------------------------------------------
  // Retry accounting
  // ---------------------------------------------------------------------------------------

  // A case's result in a run; a case not in the run counts as untested.
  datatype View = View(status: string, retryCount: nat)

  const FIRST := View(UNTESTED, 0)

  function ItemIndex(items: seq<Item>, run: nat, testcase: nat): (r: Option<nat>)
    ensures r.Some? ==> r.value < |items| && items[r.value].run == run && items[r.value].testcase == testcase
    ensures r.None? ==> forall i :: 0 <= i < |items| ==> !(items[i].run == run && items[i].testcase == testcase)
  {
    if items == [] then None
    else
      var last := |items| - 1;
      if items[last].run == run && items[last].testcase == testcase then Some(last)
      else ItemIndex(items[..last], run, testcase)
  }

  function ViewOf(db: Db, run: nat, testcase: nat): View
    requires |db.items| == |db.executions|
  {
    var i := ItemIndex(db.items, run, testcase);
    if i.None? then FIRST else View(db.executions[i.value].status, db.executions[i.value].retryCount)
  }

  function Take(view: View, submission: Submission): View {
    View(submission.status,
         if submission.retryCount.Some? then submission.retryCount.value
         else if view.status != UNTESTED then view.retryCount + 1
         else view.retryCount)
  }

  function Fold(submissions: seq<Submission>): View {
    if submissions == [] then FIRST
    else Take(Fold(submissions[..|submissions| - 1]), submissions[|submissions| - 1])
  }

  // The submission a step gets accepted for this case of this run, if any.
  function AcceptedBy(db: Db, step: Step, run: nat, testcase: nat): Option<Submission> {
    if step.Posted? && step.run == run && Known(db, step.project, step.caseId) == Some(testcase) then
      var r := Record(db, step.project, step.run, step.caseId, step.status, step.retryCount).1;
      if r.Ok? then Some(r.value) else None
    else None
  }

  // All submissions accepted for the case, in order.
  function Accepted(db: Db, steps: seq<Step>, run: nat, testcase: nat): seq<Submission> {
    if steps == [] then []
    else
      var front := steps[..|steps| - 1];
      var s := AcceptedBy(Run(db, front), steps[|steps| - 1], run, testcase);
      Accepted(db, front, run, testcase) + if s.Some? then [s.value] else []
  }

  lemma ItemIndexUnique(db: Db, i: nat)
    requires ItemsUnique(db) && i < |db.items|
    ensures ItemIndex(db.items, db.items[i].run, db.items[i].testcase) == Some(i)
  {
  }

  // Adding items and their fresh results changes no case's view.
  lemma AddingKeepsView(db: Db, after: Db, run: nat, testcase: nat)
    requires |db.items| == |db.executions| && |after.items| == |after.executions| && ItemsUnique(after)
    requires db.items <= after.items && db.executions <= after.executions
    requires forall i :: |db.items| <= i < |after.items| ==>
               after.executions[i].status == UNTESTED && after.executions[i].retryCount == 0
    ensures ViewOf(after, run, testcase) == ViewOf(db, run, testcase)
  {
    var i := ItemIndex(db.items, run, testcase);
    if i.Some? {
      assert after.items[i.value] == db.items[i.value];
      ItemIndexUnique(after, i.value);
    } else {
      assert forall j :: 0 <= j < |db.items| ==> after.items[j] == db.items[j];
    }
  }

  lemma AttachKeepsView(db: Db, to: nat, project: string, caseIds: seq<string>, run: nat, testcase: nat)
    requires DbOk(db) && to < |db.runs|
    ensures OneResultEach(Attach(db, to, project, caseIds))
    ensures ViewOf(Attach(db, to, project, caseIds), run, testcase) == ViewOf(db, run, testcase)
  {
    AttachKeeps(db, to, project, caseIds);
    InsertedAdds(db, to, Resolved(db.cases, project, caseIds), MaxPosition(db.items, to));
    AddingKeepsView(db, Attach(db, to, project, caseIds), run, testcase);
  }

  lemma UpdateMovesView(db: Db, to: nat, target: nat, submission: Submission, run: nat, testcase: nat)
    requires DbOk(db) && HasTarget(db, to, target)
    ensures ViewOf(Updated(db, to, target, submission), run, testcase)
         == if run == to && testcase == target then Take(ViewOf(db, run, testcase), submission)
            else ViewOf(db, run, testcase)
  {
    var i :| 0 <= i < |db.executions| && Targets(db, db.executions[i], to, target);
    ItemIndexUnique(db, i);
    var j := ItemIndex(db.items, run, testcase);
    if j.Some? {
      assert Targets(db, db.executions[j.value], to, target) ==> j.value == i by {
        if Targets(db, db.executions[j.value], to, target) {
          ItemIndexUnique(db, j.value);
        }
      }
    }
  }

  // A step moves a case's view exactly by the submission it gets accepted for that case.
  lemma StepMovesView(db: Db, step: Step, run: nat, testcase: nat)
    requires DbOk(db)
    ensures OneResultEach(Advance(db, step))
    ensures var accepted := AcceptedBy(db, step, run, testcase);
            ViewOf(Advance(db, step), run, testcase)
            == if accepted.Some? then Take(ViewOf(db, run, testcase), accepted.value) else ViewOf(db, run, testcase)
  {
    StepKeeps(db, step);
    match step
    case RunOpened(project, externalId, name, caseIds) =>
      var existing := if externalId.Some? then FindRun(db, project, externalId.value) else None;
      if existing.Some? {
        AttachKeepsView(db, existing.value, project, caseIds, run, testcase);
      } else {
        InsertRunKeeps(db, project, externalId, name);
        AttachKeepsView(InsertRun(db, project, externalId, name), |db.runs|, project, caseIds, run, testcase);
      }
    case Posted(project, to, caseId, status, retryCount) =>
      PostMovesView(db, step, run, testcase);
    case Closed(_, _, _) =>
    case Removed(_) =>
  }

  lemma PostMovesView(db: Db, step: Step, run: nat, testcase: nat)
    requires DbOk(db) && step.Posted?
    ensures OneResultEach(Advance(db, step))
    ensures var accepted := AcceptedBy(db, step, run, testcase);
            ViewOf(Advance(db, step), run, testcase)
            == if accepted.Some? then Take(ViewOf(db, run, testcase), accepted.value) else ViewOf(db, run, testcase)
  {
    StepKeeps(db, step);
    var status := NormalizeWireStatus(step.status);
    var known := Known(db, step.project, step.caseId);
    if RunOf(db, step.run, step.project) && status.Some? && known.Some? {
      var ids := [db.cases[known.value].externalId];
      var d := Attach(db, step.run, step.project, ids);
      AttachKeeps(db, step.run, step.project, ids);
      AttachKeepsView(db, step.run, step.project, ids, run, testcase);
      if HasTarget(d, step.run, known.value) {
        UpdateMovesView(d, step.run, known.value, Submission(status.value, step.retryCount), run, testcase);
      }
    }
  }

  // Whatever else happens in between, a case that was not in the run before shows the last
  // submission accepted for it, and the retry count of all of them.
  lemma {:induction false} ViewIsFold(db: Db, steps: seq<Step>, run: nat, testcase: nat)
    requires DbOk(db) && ItemIndex(db.items, run, testcase).None?
    ensures OneResultEach(Run(db, steps))
    ensures ViewOf(Run(db, steps), run, testcase) == Fold(Accepted(db, steps, run, testcase))
  {
    if steps != [] {
      var front := steps[..|steps| - 1];
      ViewIsFold(db, front, run, testcase);
      RunKeeps(db, front);
      StepMovesView(Run(db, front), steps[|steps| - 1], run, testcase);
      var subs := Accepted(db, front, run, testcase);
      var s := AcceptedBy(Run(db, front), steps[|steps| - 1], run, testcase);
      if s.Some? {
        assert (subs + [s.value])[..|subs|] == subs;
      } else {
        assert subs + [] == subs;
      }
    }
  }

  // Submission `j` found the case already tested.
  predicate FoundTested(submissions: seq<Submission>, j: nat) {
    0 < j < |submissions| && submissions[j - 1].status != UNTESTED
  }

  // How many submissions from `from` on found the case already tested.
  function RetriesFrom(submissions: seq<Submission>, from: nat): nat {
    |set j: nat | from <= j < |submissions| && FoundTested(submissions, j)|
  }

  predicate LastSupplied(submissions: seq<Submission>, k: nat) {
    && k < |submissions| && submissions[k].retryCount.Some?
    && forall j :: k < j < |submissions| ==> submissions[j].retryCount.None?
  }

  lemma RetriesOfOneMore(submissions: seq<Submission>, from: nat)
    requires submissions != [] && from <= |submissions| - 1
    ensures RetriesFrom(submissions, from)
         == RetriesFrom(submissions[..|submissions| - 1], from)
            + (if FoundTested(submissions, |submissions| - 1) then 1 else 0)
  {
    var front := submissions[..|submissions| - 1];
    var all := set j: nat | from <= j < |submissions| && FoundTested(submissions, j);
    var before := set j: nat | from <= j < |front| && FoundTested(front, j);
    assert forall j: nat :: j < |front| ==> FoundTested(front, j) == FoundTested(submissions, j);
    assert all == before + (if FoundTested(submissions, |front|) then {|front|} else {});
  }

  lemma {:induction false} FoldStatus(submissions: seq<Submission>)
    requires submissions != []
    ensures Fold(submissions).status == submissions[|submissions| - 1].status
  {
  }

  lemma NoRetriesPastTheEnd(submissions: seq<Submission>)
    ensures RetriesFrom(submissions, |submissions|) == 0
  {
    assert (set j: nat | |submissions| <= j < |submissions| && FoundTested(submissions, j)) == {};
  }

  // The stored retry count is the last one supplied plus the submissions after it that found the
  // case already tested...
  lemma {:induction false} RetryAfterSupplied(submissions: seq<Submission>, k: nat)
    requires LastSupplied(submissions, k)
    ensures Fold(submissions).retryCount == submissions[k].retryCount.value + RetriesFrom(submissions, k + 1)
  {
    var last := |submissions| - 1;
    if k == last {
      NoRetriesPastTheEnd(submissions);
    } else {
      RetryAfterSupplied(submissions[..last], k);
      FoldStatus(submissions[..last]);
      RetriesOfOneMore(submissions, k + 1);
    }
  }

  // ... and, when none was supplied, all the submissions that found it so.
  lemma {:induction false} RetryNeverSupplied(submissions: seq<Submission>)
    requires forall j :: 0 <= j < |submissions| ==> submissions[j].retryCount.None?
    ensures Fold(submissions).retryCount == RetriesFrom(submissions, 0)
  {
    if submissions == [] {
      NoRetriesPastTheEnd(submissions);
    } else {
      var front := submissions[..|submissions| - 1];
      RetryNeverSupplied(front);
      if front != [] {
        FoldStatus(front);
      }
      RetriesOfOneMore(submissions, 0);
    }
  }

  // n attempts that never say which attempt they are, and never un-test the case, read n - 1.
  lemma {:induction false} PlainRetries(submissions: seq<Submission>)
    requires submissions != []
    requires forall j :: 0 <= j < |submissions| ==> submissions[j].retryCount.None? && submissions[j].status != UNTESTED
    ensures Fold(submissions) == View(submissions[|submissions| - 1].status, |submissions| - 1)
  {
    if |submissions| > 1 {
      PlainRetries(submissions[..|submissions| - 1]);
    }
  }

  // The two together: after any run of the ingest, the stored status is the last one accepted,
  // and the stored count is the last supplied count, or 0, plus the later retries.
  lemma StoredResult(db: Db, steps: seq<Step>, run: nat, testcase: nat, k: nat)
    requires DbOk(db) && ItemIndex(db.items, run, testcase).None?
    requires Accepted(db, steps, run, testcase) != []
    requires LastSupplied(Accepted(db, steps, run, testcase), k)
          || forall j :: 0 <= j < |Accepted(db, steps, run, testcase)| ==>
               Accepted(db, steps, run, testcase)[j].retryCount.None?
    ensures OneResultEach(Run(db, steps))
    ensures var subs := Accepted(db, steps, run, testcase);
            ViewOf(Run(db, steps), run, testcase)
            == View(subs[|subs| - 1].status,
                    if LastSupplied(subs, k) then subs[k].retryCount.value + RetriesFrom(subs, k + 1)
                    else RetriesFrom(subs, 0))
  {
    ViewIsFold(db, steps, run, testcase);
    if LastSupplied(Accepted(db, steps, run, testcase), k) {
      RetryAfterSupplied(Accepted(db, steps, run, testcase), k);
    } else {
      RetryNeverSupplied(Accepted(db, steps, run, testcase));
    }
    FoldStatus(Accepted(db, steps, run, testcase));
  }

  // ---------------------------------------------------------------------------------------
  // Counts
  // ---------------------------------------------------------------------------------------

  datatype Counts = Counts(total: nat, passed: nat, failed: nat, skipped: nat, blocked: nat, untested: nat)

  predicate Counted(db: Db, e: Execution, run: nat) {
    e.item < |db.items| && db.items[e.item].run == run && !e.deleted
  }

  datatype Bucket = Passed | Failed | Skipped | Blocked | Untested

  predicate Falls(status: string, bucket: Bucket) {
    match bucket
    case Passed => status == PASSED
    case Failed => status == FAILED
    case Skipped => status == SKIPPED
    case Blocked => status == BLOCKED
    case Untested => status == UNTESTED || status == RETEST
  }

  function Rows(db: Db, run: nat): set<nat> {
    set i: nat | i < |db.executions| && Counted(db, db.executions[i], run)
  }

  // The live rows of the run a COUNT(*) FILTER counts.
  function RowsIn(db: Db, run: nat, bucket: Bucket): set<nat> {
    set i: nat | i < |db.executions| && Counted(db, db.executions[i], run) && Falls(db.executions[i].status, bucket)
  }

  function ResultCounts(db: Db, run: nat): Counts {
    Counts(|Rows(db, run)|, |RowsIn(db, run, Passed)|, |RowsIn(db, run, Failed)|, |RowsIn(db, run, Skipped)|,
           |RowsIn(db, run, Blocked)|, |RowsIn(db, run, Untested)|)
  }

  // A stored status falls into exactly one bucket.
  lemma ExactlyOneBucket(status: string)
    ensures forall b, c :: Falls(status, b) && Falls(status, c) ==> b == c
    ensures Stored(status) <==> exists b :: Falls(status, b)
  {
    assert PASSED[0] == 'P' && FAILED[0] == 'F' && SKIPPED[0] == 'S' && BLOCKED[0] == 'B'
        && RETEST[0] == 'R' && UNTESTED[0] == 'U';
    assert Falls(status, Passed) <==> status == PASSED;
    assert Falls(status, Failed) <==> status == FAILED;
    assert Falls(status, Skipped) <==> status == SKIPPED;
    assert Falls(status, Blocked) <==> status == BLOCKED;
    assert Falls(status, Untested) <==> status == UNTESTED || status == RETEST;
  }

  // The live rows of the run with this status.
  function RowsWith(db: Db, run: nat, status: string): set<nat> {
    set i: nat | i < |db.executions| && Counted(db, db.executions[i], run) && db.executions[i].status == status
  }

  // The counts, by the words in which statuses are stored.
  lemma CountsAreRows(db: Db, run: nat)
    ensures var c := ResultCounts(db, run);
            && c.passed == |RowsWith(db, run, "Passed")| && c.failed == |RowsWith(db, run, "Failed")|
            && c.skipped == |RowsWith(db, run, "Skipped")| && c.blocked == |RowsWith(db, run, "Blocked")|
            && c.untested == |RowsWith(db, run, "Untested")| + |RowsWith(db, run, "Retest")|
            && c.total == |Rows(db, run)|
  {
    assert RowsIn(db, run, Passed) == RowsWith(db, run, "Passed");
    assert RowsIn(db, run, Failed) == RowsWith(db, run, "Failed");
    assert RowsIn(db, run, Skipped) == RowsWith(db, run, "Skipped");
    assert RowsIn(db, run, Blocked) == RowsWith(db, run, "Blocked");
    UntestedRows(db, run);
  }

  lemma UntestedRows(db: Db, run: nat)
    ensures |RowsIn(db, run, Untested)| == |RowsWith(db, run, "Untested")| + |RowsWith(db, run, "Retest")|
  {
    assert UNTESTED[0] == 'U' && RETEST[0] == 'R';
    var untested, retest := RowsWith(db, run, "Untested"), RowsWith(db, run, "Retest");
    assert RowsIn(db, run, Untested) == untested + retest;
    assert untested * retest == {};
  }

  function CountOf(db: Db, run: nat, status: string): nat {
    |RowsWith(db, run, status)|
  }

  lemma OneRowUpdated(db: Db, to: nat, testcase: nat, submission: Submission) returns (i: nat)
    requires DbOk(db) && HasTarget(db, to, testcase)
    ensures i < |db.executions| && Targets(db, db.executions[i], to, testcase)
    ensures ViewOf(db, to, testcase).status == db.executions[i].status
    ensures Updated(db, to, testcase, submission).executions
         == db.executions[i := Overwrite(db.executions[i], submission)]
  {
    i :| 0 <= i < |db.executions| && Targets(db, db.executions[i], to, testcase);
    ItemIndexUnique(db, i);
    forall j: nat | j < |db.executions| && Targets(db, db.executions[j], to, testcase)
      ensures j == i
    {
      ItemIndexUnique(db, j);
    }
  }

  lemma RowChanged(db: Db, i: nat, e: Execution, run: nat, status: string, j: nat)
    requires i < |db.executions|
    ensures j in RowsWith(db.(executions := db.executions[i := e]), run, status)
       <==> if j == i then Counted(db, e, run) && e.status == status else j in RowsWith(db, run, status)
  {
    var after := db.(executions := db.executions[i := e]);
    assert j < |db.executions| ==> after.executions[j] == if j == i then e else db.executions[j];
  }

  lemma RowReplaced(db: Db, i: nat, e: Execution, run: nat, status: string)
    requires i < |db.executions|
    ensures var after := db.(executions := db.executions[i := e]);
            CountOf(after, run, status)
            == CountOf(db, run, status) - (if i in RowsWith(db, run, status) then 1 else 0)
               + (if Counted(db, e, run) && e.status == status then 1 else 0)
  {
    var was, now := RowsWith(db, run, status), Counted(db, e, run) && e.status == status;
    var kept := RowsWith(db.(executions := db.executions[i := e]), run, status);
    forall j: nat
      ensures j in kept <==> if j == i then now else j in was
    {
      RowChanged(db, i, e, run, status, j);
    }
    SwappedSet(was, kept, i, now);
  }

  lemma SwappedSet(was: set<nat>, kept: set<nat>, i: nat, now: bool)
    requires forall j: nat :: j in kept <==> if j == i then now else j in was
    ensures |kept| == |was| - (if i in was then 1 else 0) + (if now then 1 else 0)
  {
    assert kept == (was - {i}) + if now then {i} else {};
    MemberSwapped(was, i, now);
  }

  lemma MemberSwapped(was: set<nat>, i: nat, now: bool)
    ensures |(was - {i}) + if now then {i} else {}| == |was| - (if i in was then 1 else 0) + (if now then 1 else 0)
  {
    assert i in was ==> was == (was - {i}) + {i};
    assert i !in was ==> was == was - {i};
  }

  // One result moves from the count of the status it had to the count of the one it was sent, and no
  // other count of any run changes.
  lemma UpdateMovesCounts(db: Db, to: nat, testcase: nat, submission: Submission, run: nat, status: string)
    requires DbOk(db) && HasTarget(db, to, testcase)
    ensures CountOf(Updated(db, to, testcase, submission), run, status)
         == CountOf(db, run, status)
            - (if run == to && status == ViewOf(db, to, testcase).status then 1 else 0)
            + (if run == to && status == submission.status then 1 else 0)
  {
    var i := OneRowUpdated(db, to, testcase, submission);
    RowReplaced(db, i, Overwrite(db.executions[i], submission), run, status);
    assert Updated(db, to, testcase, submission)
        == db.(executions := db.executions[i := Overwrite(db.executions[i], submission)]);
  }

  // A result removed is taken out of the count of its status, and out of no other.
  lemma RemovedIsNotCounted(db: Db, execution: nat, run: nat, status: string)
    requires execution < |db.executions| && !db.executions[execution].deleted
    requires db.executions[execution].item < |db.items|
    ensures var e := db.executions[execution];
            CountOf(SoftDelete(db, execution), run, status)
            == CountOf(db, run, status) - (if db.items[e.item].run == run && e.status == status then 1 else 0)
  {
    assert RowsWith(SoftDelete(db, execution), run, status) == RowsWith(db, run, status) - {execution};
  }

  lemma FivePartsAddUp(all: set<nat>, a: set<nat>, b: set<nat>, c: set<nat>, d: set<nat>, e: set<nat>)
    requires all == a + b + c + d + e
    requires a * b == {} && (a + b) * c == {} && (a + b + c) * d == {} && (a + b + c + d) * e == {}
    ensures |all| == |a| + |b| + |c| + |d| + |e|
  {
    assert |a + b| == |a| + |b| && |a + b + c| == |a + b| + |c|;
    assert |a + b + c + d| == |a + b + c| + |d|;
  }

  // Every live row lands in exactly one bucket, so the buckets add up to the total, in every
  // state the ingest can reach.
  lemma CountsAddUp(db: Db, steps: seq<Step>, run: nat)
    requires DbOk(db)
    ensures var c := ResultCounts(Run(db, steps), run);
            c.total == c.passed + c.failed + c.skipped + c.blocked + c.untested
  {
    RunKeeps(db, steps);
    BucketsAddUp(Run(db, steps), run);
  }

  lemma BucketsAddUp(db: Db, run: nat)
    requires VocabularyKept(db)
    ensures var c := ResultCounts(db, run);
            c.total == c.passed + c.failed + c.skipped + c.blocked + c.untested
  {
    forall i: nat | i < |db.executions|
      ensures forall b, c :: i in RowsIn(db, run, b) && i in RowsIn(db, run, c) ==> b == c
      ensures i in Rows(db, run) <==>
                || i in RowsIn(db, run, Passed) || i in RowsIn(db, run, Failed) || i in RowsIn(db, run, Skipped)
                || i in RowsIn(db, run, Blocked) || i in RowsIn(db, run, Untested)
    {
      ExactlyOneBucket(db.executions[i].status);
    }
    FivePartsAddUp(Rows(db, run), RowsIn(db, run, Passed), RowsIn(db, run, Failed), RowsIn(db, run, Skipped),
                   RowsIn(db, run, Blocked), RowsIn(db, run, Untested));
  }
}
