/**
 The tables an automated run lives in, and each SQL statement of the ingest on them. A row's id
 is its place in its table; rows are added and updated, never removed.
 */
module Ingest {
  import opened Wrappers
  import opened Text
  import opened AutomationStatus

  datatype TestCase = TestCase(project: string, externalId: string, title: string, deleted: bool)

  datatype Cycle = Cycle(project: string, externalId: Option<string>, name: string, closeStatus: Option<string>)

  datatype Item = Item(run: nat, testcase: nat, title: string, position: nat)

  datatype Execution = Execution(item: nat, status: string, retryCount: nat, deleted: bool)

  datatype Db = Db(cases: seq<TestCase>, runs: seq<Cycle>, items: seq<Item>, executions: seq<Execution>)

  datatype Error = RunNotFound | CaseNotFound | ResultGone | BadStatus | BadRetryCount

  const MAX_RETRY_COUNT: nat := 1000

  // The live case of the project whose id, ignoring case, is `key`; the last row wins.
  function Match(cases: seq<TestCase>, project: string, key: string): (r: Option<nat>)
    ensures r.Some? ==> r.value < |cases| && !cases[r.value].deleted && cases[r.value].project == project
                        && Lower(cases[r.value].externalId) == key
  {
    if cases == [] then None
    else
      var last := |cases| - 1;
      if cases[last].project == project && !cases[last].deleted && Lower(cases[last].externalId) == key then Some(last)
      else Match(cases[..last], project, key)
  }

  function Known(db: Db, project: string, caseId: string): Option<nat> {
    Match(db.cases, project, Lower(caseId))
  }

  // The ids' cases, each once, in the order the rows first name them.
  function Resolved(cases: seq<TestCase>, project: string, caseIds: seq<string>): seq<nat> {
    ResolvedRows(cases, cases, project, caseIds)
  }

  predicate Wanted(row: TestCase, project: string, caseIds: seq<string>) {
    row.project == project && !row.deleted
    && exists i :: 0 <= i < |caseIds| && Lower(caseIds[i]) == Lower(row.externalId)
  }

  // Reads the rows in order: a key already seen keeps its place, and holds the last row found.
  function ResolvedRows(all: seq<TestCase>, rows: seq<TestCase>, project: string, caseIds: seq<string>): seq<nat>
    requires rows <= all
  {
    if rows == [] then []
    else
      var front := rows[..|rows| - 1];
      var row := rows[|rows| - 1];
      var before := ResolvedRows(all, front, project, caseIds);
      if !Wanted(row, project, caseIds) || Match(front, project, Lower(row.externalId)).Some? then before
      else
        var latest := Match(all, project, Lower(row.externalId));
        if latest.Some? then before + [latest.value] else before
  }

  function MaxPosition(items: seq<Item>, run: nat): (r: nat)
    ensures forall i :: 0 <= i < |items| && items[i].run == run ==> items[i].position <= r
  {
    if items == [] then 0
    else
      var front := MaxPosition(items[..|items| - 1], run);
      var last := items[|items| - 1];
      if last.run == run && last.position > front then last.position else front
  }

  predicate Attached(db: Db, run: nat, testcase: nat) {
    exists i :: 0 <= i < |db.items| && db.items[i].run == run && db.items[i].testcase == testcase
  }

  // INSERT of the listed cases at base + 1, base + 2, ..., each with an Untested execution;
  // ON CONFLICT (cycle_id, testcase_id) DO NOTHING.
  function Inserted(db: Db, run: nat, testcases: seq<nat>, base: nat): Db {
    if testcases == [] then db
    else
      InsertOne(Inserted(db, run, testcases[..|testcases| - 1], base), run, testcases[|testcases| - 1],
                base + |testcases|)
  }

  function InsertOne(db: Db, run: nat, testcase: nat, position: nat): Db {
    if Attached(db, run, testcase) || testcase >= |db.cases| then db
    else
      db.(items := db.items + [Item(run, testcase, db.cases[testcase].title, position)],
          executions := db.executions + [Execution(|db.items|, UNTESTED, 0, false)])
  }

  function Attach(db: Db, run: nat, project: string, caseIds: seq<string>): Db {
    Inserted(db, run, Resolved(db.cases, project, caseIds), MaxPosition(db.items, run))
  }

  function FindRun(db: Db, project: string, externalId: string): (r: Option<nat>)
    ensures r.Some? ==> r.value < |db.runs| && db.runs[r.value].project == project
                        && db.runs[r.value].externalId == Some(externalId)
    ensures r.None? ==> forall k :: 0 <= k < |db.runs| ==>
                          !(db.runs[k].project == project && db.runs[k].externalId == Some(externalId))
  {
    FirstRun(db.runs, project, externalId, 0)
  }

  function FirstRun(runs: seq<Cycle>, project: string, externalId: string, i: nat): (r: Option<nat>)
    requires i <= |runs|
    ensures r.Some? ==>
              i <= r.value < |runs| && runs[r.value].project == project && runs[r.value].externalId == Some(externalId)
    ensures r.None? ==> forall k :: i <= k < |runs| ==>
              !(runs[k].project == project && runs[k].externalId == Some(externalId))
    decreases |runs| - i
  {
    if i == |runs| then None
    else if runs[i].project == project && runs[i].externalId == Some(externalId) then Some(i)
    else FirstRun(runs, project, externalId, i + 1)
  }

  function InsertRun(db: Db, project: string, externalId: Option<string>, name: string): Db {
    db.(runs := db.runs + [Cycle(project, externalId, name, None)])
  }

  datatype Submission = Submission(status: string, retryCount: Option<nat>)

  function Overwrite(e: Execution, submission: Submission): Execution {
    e.(status := submission.status,
       retryCount := if submission.retryCount.Some? then submission.retryCount.value
                     else if e.status != UNTESTED then e.retryCount + 1
                     else e.retryCount)
  }

  predicate Targets(db: Db, e: Execution, run: nat, testcase: nat) {
    e.item < |db.items| && db.items[e.item].run == run && db.items[e.item].testcase == testcase && !e.deleted
  }

  function Updated(db: Db, run: nat, testcase: nat, submission: Submission): Db {
    db.(executions := seq(|db.executions|, i requires 0 <= i < |db.executions| =>
          if Targets(db, db.executions[i], run, testcase) then Overwrite(db.executions[i], submission)
          else db.executions[i]))
  }

  predicate HasTarget(db: Db, run: nat, testcase: nat) {
    exists i :: 0 <= i < |db.executions| && Targets(db, db.executions[i], run, testcase)
  }

  predicate RunOf(db: Db, run: nat, project: string) {
    run < |db.runs| && db.runs[run].project == project
  }

  predicate GoodRetryCount(retryCount: Option<nat>) {
    retryCount.Some? ==> retryCount.value <= MAX_RETRY_COUNT
  }

  // One posted result: nothing is written unless the run, the status word, the case and the retry
  // count are good; the case is attached first, and the one live result row is overwritten.
  function Record(db: Db, project: string, run: nat, caseId: string, status: string, retryCount: Option<nat>)
    : (Db, Result<Submission, Error>)
  {
    if !RunOf(db, run, project) then (db, Err(RunNotFound))
    else if NormalizeWireStatus(status).None? then (db, Err(BadStatus))
    else if Known(db, project, caseId).None? then (db, Err(CaseNotFound))
    else if !GoodRetryCount(retryCount) then (db, Err(BadRetryCount))
    else
      var testcase := Known(db, project, caseId).value;
      var submission := Submission(NormalizeWireStatus(status).value, retryCount);
      var d := Attach(db, run, project, [db.cases[testcase].externalId]);
      if HasTarget(d, run, testcase) then (Updated(d, run, testcase, submission), Ok(submission))
      else (d, Err(ResultGone))
  }

  function Close(db: Db, project: string, run: nat, closeStatus: string): Db {
    if RunOf(db, run, project) && db.runs[run].closeStatus.None? then
      db.(runs := db.runs[run := db.runs[run].(closeStatus := Some(closeStatus))])
    else db
  }

  function SoftDelete(db: Db, execution: nat): Db {
    if execution < |db.executions| then
      db.(executions := db.executions[execution := db.executions[execution].(deleted := true)])
    else db
  }

  // ---------------------------------------------------------------------------------------
  // What every statement keeps
  // ---------------------------------------------------------------------------------------

  predicate RunsUnique(db: Db) {
    forall i, j :: 0 <= i < j < |db.runs| && db.runs[i].externalId.Some? ==>
      db.runs[i].project != db.runs[j].project || db.runs[i].externalId != db.runs[j].externalId
  }

  // Each (run, case) has at most one item, and no two items of a run share a position.
  predicate ItemsUnique(db: Db) {
    forall i, j :: 0 <= i < j < |db.items| && db.items[i].run == db.items[j].run ==>
      db.items[i].testcase != db.items[j].testcase && db.items[i].position != db.items[j].position
  }

  // Each item has exactly one execution: its own.
  predicate OneResultEach(db: Db) {
    |db.executions| == |db.items| && forall i :: 0 <= i < |db.executions| ==> db.executions[i].item == i
  }

  predicate VocabularyKept(db: Db) {
    forall i :: 0 <= i < |db.executions| ==> Stored(db.executions[i].status)
  }

  predicate ItemsReferToRows(db: Db) {
    forall i :: 0 <= i < |db.items| ==> db.items[i].run < |db.runs| && db.items[i].testcase < |db.cases|
  }

  predicate DbOk(db: Db) {
    RunsUnique(db) && ItemsUnique(db) && OneResultEach(db) && VocabularyKept(db) && ItemsReferToRows(db)
  }

  lemma InsertOneKeeps(db: Db, run: nat, testcase: nat, position: nat)
    requires DbOk(db) && run < |db.runs|
    requires forall i :: 0 <= i < |db.items| && db.items[i].run == run ==> db.items[i].position < position
    ensures DbOk(InsertOne(db, run, testcase, position))
  {
  }

  // Inserting leaves the tables sound, and places what it adds above `base`.
  lemma {:induction false} InsertedKeeps(db: Db, run: nat, testcases: seq<nat>, base: nat)
    requires DbOk(db) && run < |db.runs|
    requires forall i :: 0 <= i < |db.items| && db.items[i].run == run ==> db.items[i].position <= base
    ensures var d := Inserted(db, run, testcases, base);
            && DbOk(d) && d.runs == db.runs
            && forall i :: 0 <= i < |d.items| && d.items[i].run == run ==> d.items[i].position <= base + |testcases|
  {
    if testcases != [] {
      var front := testcases[..|testcases| - 1];
      InsertedKeeps(db, run, front, base);
      InsertOneKeeps(Inserted(db, run, front, base), run, testcases[|testcases| - 1], base + |testcases|);
    }
  }

  // Inserting only adds rows: an item of this run for a listed case, under the case's title, with an
  // Untested result.
  lemma {:induction false} InsertedAdds(db: Db, run: nat, testcases: seq<nat>, base: nat)
    requires |db.items| == |db.executions|
    ensures var d := Inserted(db, run, testcases, base);
            && d.cases == db.cases && d.runs == db.runs
            && db.items <= d.items && db.executions <= d.executions && |d.items| == |d.executions|
            && (forall i :: |db.items| <= i < |d.items| ==>
                  d.items[i].run == run && d.items[i].testcase in testcases && d.items[i].testcase < |db.cases|
                  && d.items[i].title == db.cases[d.items[i].testcase].title
                  && d.executions[i] == Execution(i, UNTESTED, 0, false))
  {
    if testcases != [] {
      var front := testcases[..|testcases| - 1];
      InsertedAdds(db, run, front, base);
      assert testcases == front + [testcases[|testcases| - 1]];
    }
  }

  lemma AttachedStays(db: Db, after: Db, run: nat, t: nat)
    requires db.items <= after.items && Attached(db, run, t)
    ensures Attached(after, run, t)
  {
    var i :| 0 <= i < |db.items| && db.items[i].run == run && db.items[i].testcase == t;
    assert after.items[i] == db.items[i];
  }

  // Every listed case that exists is attached afterwards.
  lemma {:induction false} InsertedAttaches(db: Db, run: nat, testcases: seq<nat>, base: nat, t: nat)
    requires |db.items| == |db.executions| && t in testcases && t < |db.cases|
    ensures Attached(Inserted(db, run, testcases, base), run, t)
  {
    var front := testcases[..|testcases| - 1];
    var last := testcases[|testcases| - 1];
    var d := Inserted(db, run, front, base);
    var after := Inserted(db, run, testcases, base);
    InsertedAdds(db, run, front, base);
    assert testcases == front + [last];
    if t in front {
      InsertedAttaches(db, run, front, base, t);
      AttachedStays(d, after, run, t);
    } else if !Attached(d, run, last) {
      assert after.items[|d.items|].testcase == t;
    }
  }

  lemma AttachKeeps(db: Db, run: nat, project: string, caseIds: seq<string>)
    requires DbOk(db) && run < |db.runs|
    ensures var d := Attach(db, run, project, caseIds);
            DbOk(d) && d.cases == db.cases && d.runs == db.runs && db.items <= d.items && db.executions <= d.executions
  {
    InsertedKeeps(db, run, Resolved(db.cases, project, caseIds), MaxPosition(db.items, run));
    InsertedAdds(db, run, Resolved(db.cases, project, caseIds), MaxPosition(db.items, run));
  }

  lemma UpdatedKeeps(db: Db, run: nat, testcase: nat, submission: Submission)
    requires DbOk(db) && Stored(submission.status)
    ensures DbOk(Updated(db, run, testcase, submission))
  {
  }

  lemma RecordKeeps(db: Db, project: string, run: nat, caseId: string, status: string, retryCount: Option<nat>)
    requires DbOk(db)
    ensures var after := Record(db, project, run, caseId, status, retryCount).0;
            DbOk(after) && after.cases == db.cases && after.runs == db.runs && db.items <= after.items
  {
    if RunOf(db, run, project) && NormalizeWireStatus(status).Some? && Known(db, project, caseId).Some? {
      var testcase := Known(db, project, caseId).value;
      var ids := [db.cases[testcase].externalId];
      AttachKeeps(db, run, project, ids);
      UpdatedKeeps(Attach(db, run, project, ids), run, testcase,
                   Submission(NormalizeWireStatus(status).value, retryCount));
    }
  }

  // ---------------------------------------------------------------------------------------
  // Resolving and attaching case ids
  // ---------------------------------------------------------------------------------------

  lemma {:induction false} MatchOfRow(cases: seq<TestCase>, project: string, i: nat)
    requires i < |cases| && cases[i].project == project && !cases[i].deleted
    ensures Match(cases, project, Lower(cases[i].externalId)).Some?
  {
    if i < |cases| - 1 {
      MatchOfRow(cases[..|cases| - 1], project, i);
    }
  }

  // A live row of the project with this id, ignoring case.
  predicate Bears(cases: seq<TestCase>, t: nat, project: string, caseId: string) {
    t < |cases| && cases[t].project == project && !cases[t].deleted && Lower(cases[t].externalId) == Lower(caseId)
  }

  // An id stands for the last live row of the project that bears it, and for none if none does.
  lemma {:induction false} MatchIsLast(cases: seq<TestCase>, project: string, caseId: string)
    ensures var r := Match(cases, project, Lower(caseId));
            && (r.Some? ==> Bears(cases, r.value, project, caseId)
                            && forall k :: r.value < k < |cases| ==> !Bears(cases, k, project, caseId))
            && (r.None? ==> forall k :: 0 <= k < |cases| ==> !Bears(cases, k, project, caseId))
  {
    if cases != [] {
      var front := cases[..|cases| - 1];
      MatchIsLast(front, project, caseId);
      assert forall k :: 0 <= k < |front| ==> Bears(front, k, project, caseId) == Bears(cases, k, project, caseId);
    }
  }

  lemma {:induction false} ResolvedIsWanted(all: seq<TestCase>, rows: seq<TestCase>, project: string,
                                            caseIds: seq<string>, t: nat)
    requires rows <= all && t in ResolvedRows(all, rows, project, caseIds)
    ensures t < |all| && Wanted(all[t], project, caseIds)
    ensures Match(all, project, Lower(all[t].externalId)) == Some(t)
  {
    var front, row := rows[..|rows| - 1], rows[|rows| - 1];
    if t in ResolvedRows(all, front, project, caseIds) {
      ResolvedIsWanted(all, front, project, caseIds, t);
    } else {
      assert Match(all, project, Lower(row.externalId)) == Some(t);
    }
  }

  lemma {:induction false} WantedIsResolved(all: seq<TestCase>, rows: seq<TestCase>, project: string,
                                            caseIds: seq<string>, i: nat)
    requires rows <= all && i < |rows| && Wanted(rows[i], project, caseIds)
    ensures var latest := Match(all, project, Lower(rows[i].externalId));
            latest.Some? && latest.value in ResolvedRows(all, rows, project, caseIds)
  {
    var front, row := rows[..|rows| - 1], rows[|rows| - 1];
    if i < |front| {
      WantedIsResolved(all, front, project, caseIds, i);
    } else {
      assert all[i] == row;
      MatchOfRow(all, project, i);
      var earlier := Match(front, project, Lower(row.externalId));
      if earlier.Some? {
        WantedIsResolved(all, front, project, caseIds, earlier.value);
      }
    }
  }

  lemma ResolvedRowsAre(all: seq<TestCase>, rows: seq<TestCase>, project: string, caseIds: seq<string>)
    requires rows <= all
    ensures forall t :: t in ResolvedRows(all, rows, project, caseIds) ==>
              t < |all| && Wanted(all[t], project, caseIds) && Match(all, project, Lower(all[t].externalId)) == Some(t)
    ensures forall i :: 0 <= i < |rows| && Wanted(rows[i], project, caseIds) ==>
              Match(all, project, Lower(rows[i].externalId)).Some?
              && Match(all, project, Lower(rows[i].externalId)).value in ResolvedRows(all, rows, project, caseIds)
  {
    forall t | t in ResolvedRows(all, rows, project, caseIds)
      ensures t < |all| && Wanted(all[t], project, caseIds)
              && Match(all, project, Lower(all[t].externalId)) == Some(t)
    {
      ResolvedIsWanted(all, rows, project, caseIds, t);
    }
    forall i | 0 <= i < |rows| && Wanted(rows[i], project, caseIds)
      ensures Match(all, project, Lower(rows[i].externalId)).Some?
              && Match(all, project, Lower(rows[i].externalId)).value in ResolvedRows(all, rows, project, caseIds)
    {
      WantedIsResolved(all, rows, project, caseIds, i);
    }
  }

  // Resolving finds exactly the ids' known cases: an id is unknown when it matches no live case
  // of this project, whatever another project holds.
  lemma ResolvedAreTheKnown(db: Db, project: string, caseIds: seq<string>, t: nat)
    ensures t in Resolved(db.cases, project, caseIds)
       <==> exists i :: 0 <= i < |caseIds| && Known(db, project, caseIds[i]) == Some(t)
  {
    ResolvedRowsAre(db.cases, db.cases, project, caseIds);
    if t in Resolved(db.cases, project, caseIds) {
      assert Wanted(db.cases[t], project, caseIds);
      var i :| 0 <= i < |caseIds| && Lower(caseIds[i]) == Lower(db.cases[t].externalId);
      assert Known(db, project, caseIds[i]) == Some(t);
    }
    if i :| 0 <= i < |caseIds| && Known(db, project, caseIds[i]) == Some(t) {
      assert Wanted(db.cases[t], project, caseIds);
    }
  }

  // After attaching, the run holds what it held and the known cases among the ids, nothing else.
  lemma AttachHoldsTheKnown(db: Db, run: nat, project: string, caseIds: seq<string>, t: nat)
    requires |db.items| == |db.executions|
    ensures Attached(Attach(db, run, project, caseIds), run, t)
       <==> Attached(db, run, t) || exists i :: 0 <= i < |caseIds| && Known(db, project, caseIds[i]) == Some(t)
  {
    var testcases := Resolved(db.cases, project, caseIds);
    var d := Attach(db, run, project, caseIds);
    InsertedAdds(db, run, testcases, MaxPosition(db.items, run));
    ResolvedAreTheKnown(db, project, caseIds, t);
    if Attached(db, run, t) {
      AttachedStays(db, d, run, t);
    } else if t in testcases {
      ResolvedRowsAre(db.cases, db.cases, project, caseIds);
      InsertedAttaches(db, run, testcases, MaxPosition(db.items, run), t);
    }
    if Attached(d, run, t) {
      var i :| 0 <= i < |d.items| && d.items[i].run == run && d.items[i].testcase == t;
      if i < |db.items| {
        assert db.items[i] == d.items[i];
      } else {
        assert t in testcases;
      }
    }
  }

  // A case in the run before keeps its result, and one that was not gets a live one.
  lemma OneInserted(db: Db, run: nat, testcases: seq<nat>, base: nat, t: nat)
    requires OneResultEach(db) && Attached(Inserted(db, run, testcases, base), run, t)
    ensures HasTarget(Inserted(db, run, testcases, base), run, t)
         || (Attached(db, run, t) && !HasTarget(db, run, t))
  {
    var d := Inserted(db, run, testcases, base);
    InsertedAdds(db, run, testcases, base);
    var i :| 0 <= i < |d.items| && d.items[i].run == run && d.items[i].testcase == t;
    if i < |db.items| {
      assert db.items[i] == d.items[i];
      if j :| 0 <= j < |db.executions| && Targets(db, db.executions[j], run, t) {
        assert Targets(d, d.executions[j], run, t);
      }
    } else {
      assert Targets(d, d.executions[i], run, t);
    }
  }

  lemma NoneRevived(db: Db, run: nat, testcases: seq<nat>, base: nat, t: nat)
    requires DbOk(db) && run < |db.runs| && MaxPosition(db.items, run) <= base
    requires Attached(db, run, t) && HasTarget(Inserted(db, run, testcases, base), run, t)
    ensures HasTarget(db, run, t)
  {
    var d := Inserted(db, run, testcases, base);
    InsertedAdds(db, run, testcases, base);
    InsertedKeeps(db, run, testcases, base);
    var j :| 0 <= j < |d.executions| && Targets(d, d.executions[j], run, t);
    var i :| 0 <= i < |db.items| && db.items[i].run == run && db.items[i].testcase == t;
    assert d.items[i] == db.items[i] && d.executions[j].item == j;
    assert i == j;
    assert Targets(db, db.executions[j], run, t);
  }

  // Attaching the one case an id stands for leaves the run without a live result for it only if the
  // case was in the run already and its result there is removed.
  lemma OneAttached(db: Db, run: nat, project: string, caseId: string, t: nat)
    requires DbOk(db) && run < |db.runs| && Known(db, project, caseId) == Some(t)
    ensures HasTarget(Attach(db, run, project, [db.cases[t].externalId]), run, t)
       <==> HasTarget(db, run, t) || !Attached(db, run, t)
  {
    var ids := [db.cases[t].externalId];
    var testcases, base := Resolved(db.cases, project, ids), MaxPosition(db.items, run);
    assert Known(db, project, ids[0]) == Some(t);
    AttachHoldsTheKnown(db, run, project, ids, t);
    OneInserted(db, run, testcases, base, t);
    if Attached(db, run, t) && HasTarget(Inserted(db, run, testcases, base), run, t) {
      NoneRevived(db, run, testcases, base, t);
    }
  }

  // When a posted result is refused, and with which error; otherwise it is stored.
  lemma RefusedIff(db: Db, project: string, run: nat, caseId: string, status: string, retryCount: Option<nat>)
    requires DbOk(db)
    ensures var r := Record(db, project, run, caseId, status, retryCount).1;
            var word, known := NormalizeWireStatus(status), Known(db, project, caseId);
            && (r == Err(RunNotFound) <==> !RunOf(db, run, project))
            && (r == Err(BadStatus) <==> RunOf(db, run, project) && word.None?)
            && (r == Err(CaseNotFound) <==> RunOf(db, run, project) && word.Some? && known.None?)
            && (r == Err(BadRetryCount)
                <==> RunOf(db, run, project) && word.Some? && known.Some? && retryCount.GetOr(0) > 1000)
            && (r == Err(ResultGone)
                <==> && RunOf(db, run, project) && word.Some? && known.Some? && retryCount.GetOr(0) <= 1000
                     && Attached(db, run, known.value) && !HasTarget(db, run, known.value))
            && (r.Ok? ==> word.Some? && r == Ok(Submission(word.value, retryCount)))
  {
    if RunOf(db, run, project) && Known(db, project, caseId).Some? {
      OneAttached(db, run, project, caseId, Known(db, project, caseId).value);
    }
  }

  lemma AttachElsewhere(db: Db, run: nat, project: string, caseIds: seq<string>, other: nat, t: nat)
    requires |db.items| == |db.executions| && other != run
    ensures Attached(Attach(db, run, project, caseIds), other, t) <==> Attached(db, other, t)
  {
    var d := Attach(db, run, project, caseIds);
    InsertedAdds(db, run, Resolved(db.cases, project, caseIds), MaxPosition(db.items, run));
    if Attached(db, other, t) {
      AttachedStays(db, d, other, t);
    }
    if i :| 0 <= i < |d.items| && d.items[i].run == other && d.items[i].testcase == t {
      assert db.items[i] == d.items[i];
    }
  }

  lemma {:induction false} NothingInserted(db: Db, run: nat, testcases: seq<nat>, base: nat)
    requires forall t :: t in testcases && t < |db.cases| ==> Attached(db, run, t)
    ensures Inserted(db, run, testcases, base) == db
  {
    if testcases != [] {
      NothingInserted(db, run, testcases[..|testcases| - 1], base);
    }
  }

  // Attaching the same ids again attaches nothing and changes nothing.
  lemma AttachTwiceIsOnce(db: Db, run: nat, project: string, caseIds: seq<string>)
    requires |db.items| == |db.executions|
    ensures var once := Attach(db, run, project, caseIds);
            Attach(once, run, project, caseIds) == once
  {
    var testcases := Resolved(db.cases, project, caseIds);
    var base := MaxPosition(db.items, run);
    var once := Attach(db, run, project, caseIds);
    InsertedAdds(db, run, testcases, base);
    forall t | t in testcases && t < |db.cases|
      ensures Attached(once, run, t)
    {
      InsertedAttaches(db, run, testcases, base, t);
    }
    NothingInserted(once, run, testcases, MaxPosition(once.items, run));
  }
}
