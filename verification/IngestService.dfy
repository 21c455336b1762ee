/**
 The ingest as a service over its tables. Each method is one call with nobody in between; the
 interleavings of createRun are the business of RunRace.
 */
module IngestService {
  import opened Wrappers
  import opened Text
  import opened Sequences
  import opened AutomationStatus
  import opened Ingest
  import opened IngestRuns

  const MAX_CASE_ID_LENGTH := 32
  const MAX_CASE_IDS_PER_CALL := 2000

  // The `caseIds` of a request body: missing or null, something else than an array, or an array
  // with each entry as text.
  datatype RawIds = Absent | NotAnArray | Entries(ids: seq<string>)

  datatype IdError = NotArray | TooMany(count: nat) | TooLong(id: string)

  // The ids an array names: trimmed, blanks dropped.
  function Named(entries: seq<string>): seq<string> {
    if entries == [] then []
    else
      var id := Trim(entries[|entries| - 1]);
      Named(entries[..|entries| - 1]) + if id == "" then [] else [id]
  }

  predicate Overlong(entry: string) {
    |Trim(entry)| > MAX_CASE_ID_LENGTH
  }

  predicate Acceptable(entries: seq<string>) {
    |entries| <= MAX_CASE_IDS_PER_CALL && forall i :: 0 <= i < |entries| ==> !Overlong(entries[i])
  }

  // The requested ids that no live case of the project has.
  function Unknown(db: Db, project: string, caseIds: seq<string>): seq<string> {
    if caseIds == [] then []
    else
      var last := caseIds[|caseIds| - 1];
      Unknown(db, project, caseIds[..|caseIds| - 1]) + if Known(db, project, last).None? then [last] else []
  }

  lemma {:induction false} NamedAreTheTrimmed(entries: seq<string>, id: string)
    ensures id in Named(entries) <==> id != "" && exists i :: 0 <= i < |entries| && Trim(entries[i]) == id
  {
    if entries != [] {
      NamedAreTheTrimmed(entries[..|entries| - 1], id);
      if id != "" && Trim(entries[|entries| - 1]) == id {
        assert id in Named(entries);
      }
      if i :| 0 <= i < |entries| && Trim(entries[i]) == id {
        assert i < |entries| - 1 ==> Trim(entries[..|entries| - 1][i]) == id;
      }
    }
  }

  // Sending the ids a call accepted gives the same ids: what is kept is trimmed, not blank, not
  // too long and free of duplicates.
  lemma AcceptedIdsStay(entries: seq<string>)
    requires Acceptable(entries)
    ensures Acceptable(Distinct(Named(entries)))
            && Distinct(Named(Distinct(Named(entries)))) == Distinct(Named(entries))
  {
    var ids := Distinct(Named(entries));
    DistinctIsTheSet(Named(entries));
    NamedAreFewer(entries);
    forall i | 0 <= i < |ids|
      ensures Trim(ids[i]) == ids[i] && ids[i] != "" && !Overlong(ids[i])
    {
      assert ids[i] in Named(entries);
      NamedAreTheTrimmed(entries, ids[i]);
      var j :| 0 <= j < |entries| && Trim(entries[j]) == ids[i];
      TrimIdempotent(entries[j]);
    }
    NamedOfTrimmed(ids);
    DistinctOfDistinct(ids);
  }

  lemma {:induction false} NamedAreFewer(entries: seq<string>)
    ensures |Named(entries)| <= |entries|
  {
    if entries != [] {
      NamedAreFewer(entries[..|entries| - 1]);
    }
  }

  lemma {:induction false} NamedOfTrimmed(ids: seq<string>)
    requires forall i :: 0 <= i < |ids| ==> Trim(ids[i]) == ids[i] && ids[i] != ""
    ensures Named(ids) == ids
  {
    if ids != [] {
      NamedOfTrimmed(ids[..|ids| - 1]);
      assert ids == ids[..|ids| - 1] + [ids[|ids| - 1]];
    }
  }

  // An id is answered as unknown exactly when it was sent and no live case of the project has it.
  lemma {:induction false} UnknownAre(db: Db, project: string, caseIds: seq<string>, id: string)
    ensures id in Unknown(db, project, caseIds) <==> id in caseIds && Known(db, project, id).None?
  {
    if caseIds != [] {
      var front, last := caseIds[..|caseIds| - 1], caseIds[|caseIds| - 1];
      UnknownAre(db, project, front, id);
      assert caseIds == front + [last];
    }
  }

  // They are answered in the order in which they were sent.
  lemma {:induction false} UnknownKeepsOrder(db: Db, project: string, first: seq<string>, second: seq<string>)
    ensures Unknown(db, project, first + second) == Unknown(db, project, first) + Unknown(db, project, second)
    decreases |second|
  {
    if second == [] {
      assert first + second == first;
    } else {
      var all := first + second;
      assert all[..|all| - 1] == first + second[..|second| - 1];
      UnknownKeepsOrder(db, project, first, second[..|second| - 1]);
    }
  }

  // Opening a run, or getting the one there already, leaves each id sent either attached to it or
  // answered as unknown, and never both.
  lemma AttachedOrUnknown(db: Db, project: string, externalId: Option<string>, name: string, caseIds: seq<string>,
                          id: string)
    requires DbOk(db) && id in caseIds
    ensures var (after, run, reused) := OpenRun(db, project, externalId, name, caseIds);
            id in Unknown(db, project, caseIds)
            <==> !exists t :: Known(db, project, id) == Some(t) && Attached(after, run, t)
  {
    UnknownAre(db, project, caseIds, id);
    var (after, run, reused) := OpenRun(db, project, externalId, name, caseIds);
    if Known(db, project, id).Some? {
      var t := Known(db, project, id).value;
      var found := if reused then db else InsertRun(db, project, externalId, name);
      var i :| 0 <= i < |caseIds| && caseIds[i] == id;
      assert Known(found, project, caseIds[i]) == Some(t);
      AttachHoldsTheKnown(found, run, project, caseIds, t);
    }
  }

  // The first entry that is too long to be a case id is `id`.
  ghost predicate FirstOverlong(entries: seq<string>, id: string) {
    exists i :: 0 <= i < |entries| && Overlong(entries[i]) && id == Trim(entries[i])
                && forall j :: 0 <= j < i ==> !Overlong(entries[j])
  }

  // The Set after the first `k` entries.
  ghost predicate SeenSoFar(entries: seq<string>, k: nat, seen: seq<string>)
    requires k <= |entries|
  {
    seen == Distinct(Named(entries[..k])) && forall i :: 0 <= i < k ==> !Overlong(entries[i])
  }

  // Adding to a Set keeps it the distinct elements.
  lemma DistinctOneMore<T>(s: seq<T>, x: T)
    ensures Distinct(s + [x]) == if x in Distinct(s) then Distinct(s) else Distinct(s) + [x]
  {
    DistinctIsTheSet(s);
    assert (s + [x])[..|s|] == s;
  }

  lemma EntrySeen(entries: seq<string>, k: nat, seen: seq<string>)
    requires k < |entries| && SeenSoFar(entries, k, seen)
    ensures var id := Trim(entries[k]);
            if |id| > MAX_CASE_ID_LENGTH then FirstOverlong(entries, id)
            else SeenSoFar(entries, k + 1, if id == "" || id in seen then seen else seen + [id])
  {
    assert entries[..k + 1][..k] == entries[..k];
    DistinctOneMore(Named(entries[..k]), Trim(entries[k]));
    assert Named(entries[..k]) + [] == Named(entries[..k]);
  }

  method NormalizeCaseIds(raw: RawIds) returns (r: Result<seq<string>, IdError>)
    ensures r.Ok?
       <==> raw.Absent?
            || (raw.Entries? && |raw.ids| <= 2000 && forall i :: 0 <= i < |raw.ids| ==> |Trim(raw.ids[i])| <= 32)
    ensures r.Ok? ==> r.value == if raw.Absent? then [] else Distinct(Named(raw.ids))
    ensures raw.NotAnArray? ==> r == Err(NotArray)
    ensures raw.Entries? && |raw.ids| > 2000 ==> r == Err(TooMany(|raw.ids|))
    ensures r.Err? && r.error.TooLong? ==> raw.Entries? && FirstOverlong(raw.ids, r.error.id)
  {
    if raw.Absent? {
      return Ok([]);
    }
    if raw.NotAnArray? {
      return Err(NotArray);
    }
    if |raw.ids| > MAX_CASE_IDS_PER_CALL {
      return Err(TooMany(|raw.ids|));
    }
    var seen: seq<string> := [];
    for k := 0 to |raw.ids|
      invariant SeenSoFar(raw.ids, k, seen)
    {
      EntrySeen(raw.ids, k, seen);
      var id := Trim(raw.ids[k]);
      if id != "" {
        if |id| > MAX_CASE_ID_LENGTH {
          return Err(TooLong(id));
        }
        if id !in seen {
          seen := seen + [id];
        }
      }
    }
    assert raw.ids[..|raw.ids|] == raw.ids;
    return Ok(seen);
  }

  datatype Difference = Difference(reported: real, stored: nat)

  // The numbers an SDK sent when closing: a field it left out is not a key, and one that is not a
  // finite number has no value.
  type Summary = map<string, Option<real>>

  function StoredCount(counts: Counts, field: string): Option<nat> {
    if field == "total" then Some(counts.total)
    else if field == "passed" then Some(counts.passed)
    else if field == "failed" then Some(counts.failed)
    else if field == "skipped" then Some(counts.skipped)
    else None
  }

  predicate Disagrees(summary: Summary, counts: Counts, field: string) {
    && StoredCount(counts, field).Some?
    && field in summary && summary[field].Some?
    && summary[field].value != StoredCount(counts, field).value as real
  }

  // Each field is compared with the rows it is named after, and no field but these four.
  lemma FieldsAreCounts(db: Db, run: nat, field: string)
    ensures var c := ResultCounts(db, run);
            && StoredCount(c, "total") == Some(|Rows(db, run)|)
            && StoredCount(c, "passed") == Some(CountOf(db, run, "Passed"))
            && StoredCount(c, "failed") == Some(CountOf(db, run, "Failed"))
            && StoredCount(c, "skipped") == Some(CountOf(db, run, "Skipped"))
            && (StoredCount(c, field).Some? <==> field in ["total", "passed", "failed", "skipped"])
  {
    CountsAreRows(db, run);
  }

  // A report names exactly the supplied fields that differ from the rows, each with both numbers.
  ghost predicate Reports(mismatch: map<string, Difference>, summary: Summary, counts: Counts) {
    && (forall field :: field in mismatch <==> field in summary && Disagrees(summary, counts, field))
    && forall field :: field in mismatch ==>
         field in summary && Disagrees(summary, counts, field)
         && mismatch[field] == Difference(summary[field].value, StoredCount(counts, field).value)
  }

  method SummaryMismatch(summary: Option<Summary>, counts: Counts) returns (r: Option<map<string, Difference>>)
    ensures r.None?
            <==> summary.None? || forall field :: field in summary.value ==> !Disagrees(summary.value, counts, field)
    ensures r.Some? ==> summary.Some? && Reports(r.value, summary.value, counts)
  {
    if summary.None? {
      return None;
    }
    var reported := summary.value;
    var pairs := [("total", counts.total), ("passed", counts.passed), ("failed", counts.failed),
                  ("skipped", counts.skipped)];
    var diff: map<string, Difference> := map[];
    for k := 0 to |pairs|
      invariant forall field :: field in diff <==>
                  exists i :: 0 <= i < k && pairs[i].0 == field && Disagrees(reported, counts, field)
      invariant forall field :: field in diff ==>
                  field in reported && Disagrees(reported, counts, field)
                  && diff[field] == Difference(reported[field].value, StoredCount(counts, field).value)
    {
      var (field, stored) := pairs[k];
      assert StoredCount(counts, field) == Some(stored);
      if field in reported && reported[field].Some? && reported[field].value != stored as real {
        diff := diff[field := Difference(reported[field].value, stored)];
      }
    }
    assert pairs[0].0 == "total" && pairs[1].0 == "passed" && pairs[2].0 == "failed" && pairs[3].0 == "skipped";
    return if diff == map[] then None else Some(diff);
  }

  datatype CloseError = NoSuchRun | BadCloseStatus

  datatype CloseReport = CloseReport(alreadyClosed: bool, mismatch: Option<map<string, Difference>>)

  function CloseWord(status: Option<string>): string {
    if status.None? then "completed" else Lower(Trim(status.value))
  }

  predicate IsCloseWord(word: string) {
    word == "completed" || word == "incomplete"
  }

  // Closing without a word completes the run, and either word closes it as itself.
  lemma CloseWords(word: string)
    ensures CloseWord(None) == "completed" && IsCloseWord(CloseWord(None))
    ensures IsCloseWord(word) ==> CloseWord(Some(word)) == word
  {
    if IsCloseWord(word) {
      assert Letters(word);
      TrimmedStays(word);
      forall i | 0 <= i < |word|
        ensures LowerChar(word[i]) == word[i]
      {
        LetterStays(word[i]);
      }
      LoweredStays(word);
    }
  }

  class AutomationService {
    var cases: seq<TestCase>
    var runs: seq<Cycle>
    var items: seq<Item>
    var executions: seq<Execution>

    ghost function Tables(): Db
      reads this
    {
      Db(cases, runs, items, executions)
    }

    constructor (cases: seq<TestCase>)
      ensures Tables() == Db(cases, [], [], []) && DbOk(Tables())
    {
      this.cases, runs, items, executions := cases, [], [], [];
    }

    // Reads the matching rows in order into a map from lower-cased id to case.
    method ResolveCases(project: string, caseIds: seq<string>)
      returns (found: map<string, nat>, values: seq<nat>, unknown: seq<string>)
      ensures values == Resolved(cases, project, caseIds)
      ensures unknown == Unknown(Tables(), project, caseIds)
      ensures forall i :: 0 <= i < |caseIds| ==>
                Known(Tables(), project, caseIds[i])
                == if Lower(caseIds[i]) in found then Some(found[Lower(caseIds[i])]) else None
    {
      var keys: seq<string>;
      found, keys := ReadRows(project, caseIds);
      assert cases[..|cases|] == cases;
      values := ListValues(found, keys);
      unknown := Unmatched(project, caseIds, found);
    }

    // Each matching row in order, into the map from lower-cased id to case.
    method ReadRows(project: string, caseIds: seq<string>) returns (found: map<string, nat>, keys: seq<string>)
      ensures ReadSoFar(cases, |cases|, project, caseIds, keys, found)
    {
      found, keys := map[], [];
      for k := 0 to |cases|
        invariant ReadSoFar(cases, k, project, caseIds, keys, found)
      {
        found, keys := ReadRow(k, project, caseIds, found, keys);
      }
    }

    method ReadRow(k: nat, project: string, caseIds: seq<string>, found: map<string, nat>, keys: seq<string>)
      returns (after: map<string, nat>, seen: seq<string>)
      requires k < |cases| && ReadSoFar(cases, k, project, caseIds, keys, found)
      ensures ReadSoFar(cases, k + 1, project, caseIds, seen, after)
    {
      RowRead(cases, k, project, caseIds, keys, found);
      after, seen := found, keys;
      if Wanted(cases[k], project, caseIds) {
        var key := Lower(cases[k].externalId);
        if key !in keys {
          seen := keys + [key];
        }
        after := found[key := k];
      }
    }

    // The map's values in the order its keys were first set.
    static method ListValues(found: map<string, nat>, keys: seq<string>) returns (values: seq<nat>)
      requires forall i :: 0 <= i < |keys| ==> keys[i] in found
      ensures |values| == |keys| && forall i :: 0 <= i < |keys| ==> values[i] == found[keys[i]]
    {
      values := [];
      for i := 0 to |keys|
        invariant |values| == i && forall j :: 0 <= j < i ==> values[j] == found[keys[j]]
      {
        values := values + [found[keys[i]]];
      }
    }

    method Unmatched(project: string, caseIds: seq<string>, found: map<string, nat>) returns (unknown: seq<string>)
      requires Finds(cases, project, caseIds, found)
      ensures unknown == Unknown(Tables(), project, caseIds)
    {
      unknown := [];
      for n := 0 to |caseIds|
        invariant unknown == Unknown(Tables(), project, caseIds[..n])
      {
        assert caseIds[..n + 1][..n] == caseIds[..n];
        assert Asked(caseIds, Lower(caseIds[n]));
        if Lower(caseIds[n]) !in found {
          unknown := unknown + [caseIds[n]];
        }
      }
      assert caseIds[..|caseIds|] == caseIds;
    }

    method AttachCases(run: nat, project: string, caseIds: seq<string>) returns (attached: nat, unknown: seq<string>)
      requires |items| == |executions|
      modifies this
      ensures Tables() == Attach(old(Tables()), run, project, caseIds)
      ensures |executions| == old(|executions|) + attached
      ensures unknown == Unknown(old(Tables()), project, caseIds)
    {
      if caseIds == [] {
        NobodyWanted(cases, cases, project);
        return 0, [];
      }
      var found, values, missing := ResolveCases(project, caseIds);
      if values == [] {
        return 0, missing;
      }
      var base := MaxPosition(items, run);
      InsertedAdds(Tables(), run, values, base);
      var after := Inserted(Db(cases, runs, items, executions), run, values, base);
      attached := |after.executions| - |executions|;
      items, executions := after.items, after.executions;
      return attached, missing;
    }

    // The INSERT into cycles, which the unique index on (project, external id) may refuse.
    method InsertCycle(project: string, externalId: Option<string>, name: string) returns (run: Option<nat>)
      modifies this
      ensures run.None? <==> externalId.Some? && FindRun(old(Tables()), project, externalId.value).Some?
      ensures run.None? ==> Tables() == old(Tables())
      ensures run.Some? ==> run.value == old(|runs|) && Tables() == InsertRun(old(Tables()), project, externalId, name)
    {
      if externalId.Some? && FirstRun(runs, project, externalId.value, 0).Some? {
        return None;
      }
      runs := runs + [Cycle(project, externalId, name, None)];
      return Some(|runs| - 1);
    }

    method CreateRun(project: string, externalId: Option<string>, name: string, caseIds: seq<string>)
      returns (run: nat, reused: bool, attached: nat, unknown: seq<string>)
      requires DbOk(Tables())
      modifies this
      ensures DbOk(Tables())
      ensures (Tables(), run, reused) == OpenRun(old(Tables()), project, externalId, name, caseIds)
      ensures |executions| == old(|executions|) + attached
      ensures unknown == Unknown(old(Tables()), project, caseIds)
    {
      StepKeeps(Tables(), RunOpened(project, externalId, name, caseIds));
      if externalId.Some? {
        var existing := FirstRun(runs, project, externalId.value, 0);
        if existing.Some? {
          attached, unknown := AttachCases(existing.value, project, caseIds);
          return existing.value, true, attached, unknown;
        }
      }
      var inserted := InsertCycle(project, externalId, name);
      UnknownReadsCases(old(Tables()), Tables(), project, caseIds);
      attached, unknown := AttachCases(inserted.value, project, caseIds);
      return inserted.value, false, attached, unknown;
    }

    method RecordResult(project: string, run: nat, caseId: string, status: string, retryCount: Option<nat>)
      returns (r: Result<Execution, Error>)
      requires DbOk(Tables())
      modifies this
      ensures DbOk(Tables())
      ensures Tables() == Record(old(Tables()), project, run, caseId, status, retryCount).0
      ensures var recorded := Record(old(Tables()), project, run, caseId, status, retryCount).1;
              r.Ok? == recorded.Ok? && (r.Err? ==> r.error == recorded.error)
      ensures r.Ok? ==>
                View(r.value.status, r.value.retryCount)
                  == ViewOf(Tables(), run, Known(old(Tables()), project, caseId).value)
      ensures r.Ok? ==> Some(r.value.status) == NormalizeWireStatus(status)
      ensures r.Ok? && Stored(status) ==> r.value.status == status
      ensures r.Ok? && retryCount.Some? ==> r.value.retryCount == retryCount.value
    {
      RecordKeeps(Tables(), project, run, caseId, status, retryCount);
      if !RunOf(Db(cases, runs, items, executions), run, project) {
        return Err(RunNotFound);
      }
      var stored := NormalizeWireStatus(status);
      if stored.None? {
        return Err(BadStatus);
      }
      var found, values, missing := ResolveCases(project, [caseId]);
      assert [caseId][0] == caseId;
      if Lower(caseId) !in found {
        return Err(CaseNotFound);
      }
      if retryCount.Some? && retryCount.value > MAX_RETRY_COUNT {
        return Err(BadRetryCount);
      }
      var testcase := found[Lower(caseId)];
      AttachKeeps(Tables(), run, project, [cases[testcase].externalId]);
      var attached, none := AttachCases(run, project, [cases[testcase].externalId]);
      var db := Db(cases, runs, items, executions);
      if !HasTarget(db, run, testcase) {
        return Err(ResultGone);
      }
      UpdateMovesView(db, run, testcase, Submission(stored.value, retryCount), run, testcase);
      if Stored(status) {
        StoredIsItself(status);
      }
      executions := Updated(db, run, testcase, Submission(stored.value, retryCount)).executions;
      var item := ItemIndex(items, run, testcase);
      return Ok(executions[item.value]);
    }

    method CloseRun(project: string, run: nat, status: Option<string>, summary: Option<Summary>)
      returns (r: Result<CloseReport, CloseError>)
      modifies this`runs
      ensures var before := old(Tables());
              && (r == Err(NoSuchRun) <==> !RunOf(before, run, project))
              && (r == Err(BadCloseStatus) <==> RunOf(before, run, project) && !IsCloseWord(CloseWord(status)))
              && Tables() == (if r.Ok? then Close(before, project, run, CloseWord(status)) else before)
      ensures r.Ok? ==> r.value.alreadyClosed == old(runs)[run].closeStatus.Some?
      ensures r.Ok? && !r.value.alreadyClosed && summary.Some? ==>
                var counts := ResultCounts(Tables(), run);
                if r.value.mismatch.None? then
                  forall field :: field in summary.value ==> !Disagrees(summary.value, counts, field)
                else r.value.mismatch.value != map[] && Reports(r.value.mismatch.value, summary.value, counts)
      ensures r.Ok? && (r.value.alreadyClosed || summary.None?) ==> r.value.mismatch.None?
    {
      if !RunOf(Db(cases, runs, items, executions), run, project) {
        return Err(NoSuchRun);
      }
      var requested := CloseWord(status);
      if !IsCloseWord(requested) {
        return Err(BadCloseStatus);
      }
      if runs[run].closeStatus.Some? {
        return Ok(CloseReport(true, None));
      }
      var counts := ResultCounts(Db(cases, runs, items, executions), run);
      runs := runs[run := runs[run].(closeStatus := Some(requested))];
      ClosingKeepsCounts(old(Tables()), Tables(), run);
      var mismatch := SummaryMismatch(summary, counts);
      return Ok(CloseReport(false, mismatch));
    }
  }

  predicate Asked(caseIds: seq<string>, key: string) {
    exists i :: 0 <= i < |caseIds| && Lower(caseIds[i]) == key
  }

  // The listed cases are the keys' cases, key by key.
  predicate Lists(keys: seq<string>, listed: seq<nat>, cases: seq<TestCase>, project: string) {
    |keys| == |listed| && forall i :: 0 <= i < |keys| ==> Match(cases, project, keys[i]) == Some(listed[i])
  }

  // The map answers for every id asked about.
  ghost predicate Finds(cases: seq<TestCase>, project: string, caseIds: seq<string>, found: map<string, nat>) {
    forall key :: Asked(caseIds, key) ==> Match(cases, project, key) == if key in found then Some(found[key]) else None
  }

  // The map's keys, all of them asked about.
  ghost predicate KeysAre(keys: seq<string>, found: map<string, nat>, caseIds: seq<string>) {
    (forall key :: key in found <==> key in keys) && forall key :: key in found ==> Asked(caseIds, key)
  }

  // The map and its key order after the first `k` rows.
  ghost predicate ReadSoFar(cases: seq<TestCase>, k: nat, project: string, caseIds: seq<string>,
                            keys: seq<string>, found: map<string, nat>)
    requires k <= |cases|
  {
    && KeysAre(keys, found, caseIds) && Finds(cases[..k], project, caseIds, found)
    && Lists(keys, ResolvedRows(cases, cases[..k], project, caseIds), cases, project)
  }

  lemma MatchOneMore(cases: seq<TestCase>, k: nat, project: string, key: string)
    requires k < |cases|
    ensures var row := cases[k];
            Match(cases[..k + 1], project, key)
            == if row.project == project && !row.deleted && Lower(row.externalId) == key then Some(k)
               else Match(cases[..k], project, key)
  {
    assert cases[..k + 1][..k] == cases[..k];
  }

  lemma ResolvedOneMore(cases: seq<TestCase>, k: nat, project: string, caseIds: seq<string>)
    requires k < |cases|
    ensures var key := Lower(cases[k].externalId);
            var before := ResolvedRows(cases, cases[..k], project, caseIds);
            ResolvedRows(cases, cases[..k + 1], project, caseIds)
            == if !Wanted(cases[k], project, caseIds) || Match(cases[..k], project, key).Some? then before
               else if Match(cases, project, key).Some? then before + [Match(cases, project, key).value]
               else before
  {
    assert cases[..k + 1][..k] == cases[..k];
  }

  lemma WantedIsAsked(row: TestCase, project: string, caseIds: seq<string>)
    ensures Wanted(row, project, caseIds)
       <==> row.project == project && !row.deleted && Asked(caseIds, Lower(row.externalId))
  {
  }

  lemma RowSkipped(cases: seq<TestCase>, k: nat, project: string, caseIds: seq<string>, found: map<string, nat>)
    requires k < |cases| && Finds(cases[..k], project, caseIds, found) && !Wanted(cases[k], project, caseIds)
    ensures Finds(cases[..k + 1], project, caseIds, found)
  {
    WantedIsAsked(cases[k], project, caseIds);
    forall key | Asked(caseIds, key)
      ensures Match(cases[..k + 1], project, key) == Match(cases[..k], project, key)
    {
      MatchOneMore(cases, k, project, key);
    }
  }

  lemma RowTaken(cases: seq<TestCase>, k: nat, project: string, caseIds: seq<string>, found: map<string, nat>)
    requires k < |cases| && Finds(cases[..k], project, caseIds, found) && Wanted(cases[k], project, caseIds)
    ensures Finds(cases[..k + 1], project, caseIds, found[Lower(cases[k].externalId) := k])
  {
    forall key | Asked(caseIds, key)
      ensures Match(cases[..k + 1], project, key)
           == if key == Lower(cases[k].externalId) then Some(k) else Match(cases[..k], project, key)
    {
      MatchOneMore(cases, k, project, key);
    }
  }

  lemma KeyAdded(keys: seq<string>, found: map<string, nat>, caseIds: seq<string>, key: string, k: nat)
    requires KeysAre(keys, found, caseIds) && Asked(caseIds, key)
    ensures KeysAre(if key in keys then keys else keys + [key], found[key := k], caseIds)
  {
  }

  lemma ListExtended(cases: seq<TestCase>, k: nat, project: string, caseIds: seq<string>, keys: seq<string>,
                     found: map<string, nat>)
    requires k < |cases| && ReadSoFar(cases, k, project, caseIds, keys, found) && Wanted(cases[k], project, caseIds)
    ensures var key := Lower(cases[k].externalId);
            Lists(if key in keys then keys else keys + [key], ResolvedRows(cases, cases[..k + 1], project, caseIds),
                  cases, project)
  {
    ResolvedOneMore(cases, k, project, caseIds);
    WantedIsAsked(cases[k], project, caseIds);
    MatchOfRow(cases, project, k);
  }

  lemma RowRead(cases: seq<TestCase>, k: nat, project: string, caseIds: seq<string>, keys: seq<string>,
                found: map<string, nat>)
    requires k < |cases| && ReadSoFar(cases, k, project, caseIds, keys, found)
    ensures var key := Lower(cases[k].externalId);
            if Wanted(cases[k], project, caseIds) then
              ReadSoFar(cases, k + 1, project, caseIds, if key in keys then keys else keys + [key], found[key := k])
            else ReadSoFar(cases, k + 1, project, caseIds, keys, found)
  {
    WantedIsAsked(cases[k], project, caseIds);
    if Wanted(cases[k], project, caseIds) {
      KeyAdded(keys, found, caseIds, Lower(cases[k].externalId), k);
      ListExtended(cases, k, project, caseIds, keys, found);
      RowTaken(cases, k, project, caseIds, found);
    } else {
      ResolvedOneMore(cases, k, project, caseIds);
      RowSkipped(cases, k, project, caseIds, found);
    }
  }

  lemma {:induction false} NobodyWanted(all: seq<TestCase>, rows: seq<TestCase>, project: string)
    requires rows <= all
    ensures ResolvedRows(all, rows, project, []) == []
  {
    if rows != [] {
      NobodyWanted(all, rows[..|rows| - 1], project);
    }
  }

  lemma {:induction false} UnknownReadsCases(db: Db, after: Db, project: string, caseIds: seq<string>)
    requires db.cases == after.cases
    ensures Unknown(db, project, caseIds) == Unknown(after, project, caseIds)
  {
    if caseIds != [] {
      UnknownReadsCases(db, after, project, caseIds[..|caseIds| - 1]);
    }
  }

  lemma ClosingKeepsCounts(db: Db, after: Db, run: nat)
    requires after.items == db.items && after.executions == db.executions
    ensures ResultCounts(after, run) == ResultCounts(db, run)
  {
    assert forall e :: Counted(db, e, run) == Counted(after, e, run);
    assert Rows(after, run) == Rows(db, run);
    assert forall b :: RowsIn(after, run, b) == RowsIn(db, run, b);
  }
}
