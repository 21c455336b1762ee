/**
 CI shards racing to open one run. Each call of createRun is cut at its SQL statements: the
 idempotency SELECT, the INSERT that the unique index may refuse, the SELECT after a refusal, and
 the attach; any number of calls interleave at those cuts in any order.
 */
module RunRace {
  import opened Wrappers
  import opened Ingest
  import opened IngestRuns

  datatype Pc =
    | Checking
    | Inserting
    | Reselecting
    | Attaching(run: nat, reused: bool)
    | Done(run: nat, reused: bool)
    | GaveUp

  datatype Caller = Caller(project: string, externalId: Option<string>, name: string, caseIds: seq<string>, pc: Pc)

  datatype World = World(db: Db, callers: seq<Caller>)

  function Existing(db: Db, caller: Caller): Option<nat> {
    if caller.externalId.Some? then FindRun(db, caller.project, caller.externalId.value) else None
  }

  // One statement of one caller.
  function Statement(db: Db, caller: Caller): (Db, Pc) {
    match caller.pc
    case Checking =>
      var existing := Existing(db, caller);
      (db, if existing.Some? then Attaching(existing.value, true) else Inserting)
    case Inserting =>
      if Existing(db, caller).Some? then (db, Reselecting)
      else (InsertRun(db, caller.project, caller.externalId, caller.name), Attaching(|db.runs|, false))
    case Reselecting =>
      var raced := Existing(db, caller);
      (db, if raced.Some? then Attaching(raced.value, true) else GaveUp)
    case Attaching(run, reused) => (Attach(db, run, caller.project, caller.caseIds), Done(run, reused))
    case Done(_, _) => (db, caller.pc)
    case GaveUp => (db, GaveUp)
  }

  function Step(w: World, c: nat): World
    requires c < |w.callers|
  {
    var (db, pc) := Statement(w.db, w.callers[c]);
    World(db, w.callers[c := w.callers[c].(pc := pc)])
  }

  predicate Schedule(w: World, schedule: seq<nat>) {
    forall i :: 0 <= i < |schedule| ==> schedule[i] < |w.callers|
  }

  function Run(w: World, schedule: seq<nat>): (r: World)
    requires Schedule(w, schedule)
    ensures |r.callers| == |w.callers|
  {
    if schedule == [] then w else Step(Run(w, schedule[..|schedule| - 1]), schedule[|schedule| - 1])
  }

  predicate Initial(w: World) {
    DbOk(w.db) && forall c :: 0 <= c < |w.callers| ==> w.callers[c].pc == Checking
  }

  predicate Shares(caller: Caller, project: string, externalId: string) {
    caller.project == project && caller.externalId == Some(externalId)
  }

  predicate Holds(caller: Caller, run: nat) {
    (caller.pc.Attaching? || caller.pc.Done?) && caller.pc.run == run
  }

  predicate Created(caller: Caller) {
    (caller.pc.Attaching? || caller.pc.Done?) && !caller.pc.reused
  }

  // ---------------------------------------------------------------------------------------

  // Every caller past its lookup works on a run of its own project and key, and nobody failed.
  predicate CallersOk(w: World) {
    forall c :: 0 <= c < |w.callers| ==> CallerOk(w.db, w.callers[c])
  }

  predicate CallerOk(db: Db, caller: Caller) {
    && caller.pc != GaveUp
    && (caller.pc.Reselecting? ==> Existing(db, caller).Some?)
    && (caller.pc.Attaching? || caller.pc.Done? ==>
          caller.pc.run < |db.runs| && db.runs[caller.pc.run].project == caller.project
          && db.runs[caller.pc.run].externalId == caller.externalId)
  }

  // Runs are only added.
  predicate Grows(db: Db, after: Db) {
    db.runs <= after.runs && after.cases == db.cases
  }

  lemma StatementGrows(db: Db, caller: Caller)
    requires DbOk(db) && CallerOk(db, caller)
    ensures DbOk(Statement(db, caller).0) && Grows(db, Statement(db, caller).0)
    ensures Statement(db, caller).0.runs == db.runs || caller.pc.Inserting?
  {
    if caller.pc.Inserting? && Existing(db, caller).None? {
      InsertRunKeeps(db, caller.project, caller.externalId, caller.name);
    }
    if caller.pc.Attaching? {
      AttachKeeps(db, caller.pc.run, caller.project, caller.caseIds);
    }
  }

  // With the unique index, the run of a key is the one a lookup finds, and it stays that one.
  lemma FindRunIs(db: Db, project: string, externalId: string, run: nat)
    requires RunsUnique(db) && run < |db.runs|
    requires db.runs[run].project == project && db.runs[run].externalId == Some(externalId)
    ensures FindRun(db, project, externalId) == Some(run)
  {
    var found := FindRun(db, project, externalId).value;
    assert db.runs[found].project == project && db.runs[found].externalId == Some(externalId);
  }

  lemma FoundStays(db: Db, after: Db, project: string, externalId: string)
    requires RunsUnique(after) && Grows(db, after) && FindRun(db, project, externalId).Some?
    ensures FindRun(after, project, externalId) == FindRun(db, project, externalId)
  {
    var run := FindRun(db, project, externalId).value;
    assert after.runs[run] == db.runs[run];
    FindRunIs(after, project, externalId, run);
  }

  lemma CallerStaysOk(db: Db, after: Db, caller: Caller)
    requires CallerOk(db, caller) && Grows(db, after) && RunsUnique(after)
    ensures CallerOk(after, caller)
  {
    if caller.pc.Reselecting? {
      FoundStays(db, after, caller.project, caller.externalId.value);
    }
    if caller.pc.Attaching? || caller.pc.Done? {
      assert after.runs[caller.pc.run] == db.runs[caller.pc.run];
    }
  }

  lemma StepKeepsCallers(w: World, c: nat)
    requires DbOk(w.db) && CallersOk(w) && c < |w.callers|
    ensures DbOk(Step(w, c).db) && Grows(w.db, Step(w, c).db) && CallersOk(Step(w, c))
  {
    var caller := w.callers[c];
    var after := Step(w, c);
    StatementGrows(w.db, caller);
    forall k | 0 <= k < |w.callers|
      ensures CallerOk(after.db, after.callers[k])
    {
      CallerStaysOk(w.db, after.db, w.callers[k]);
    }
  }

  // ---------------------------------------------------------------------------------------
  // One key
  // ---------------------------------------------------------------------------------------

  // Among the callers of this key: whoever created its run is alone, and the run exists exactly
  // if someone did.
  ghost predicate OneCreator(w: World, project: string, externalId: string) {
    && (forall c, d ::
          0 <= c < d < |w.callers|
          && Shares(w.callers[c], project, externalId) && Shares(w.callers[d], project, externalId)
          ==> !(Created(w.callers[c]) && Created(w.callers[d])))
    && (FindRun(w.db, project, externalId).Some?
        <==> exists c :: 0 <= c < |w.callers| && Shares(w.callers[c], project, externalId) && Created(w.callers[c]))
  }

  lemma OtherRunsAreNotFound(db: Db, caller: Caller, project: string, externalId: string)
    requires DbOk(db) && CallerOk(db, caller) && !Shares(caller, project, externalId)
    ensures FindRun(Statement(db, caller).0, project, externalId) == FindRun(db, project, externalId)
  {
    StatementGrows(db, caller);
    var after := Statement(db, caller).0;
    if FindRun(db, project, externalId).Some? {
      FoundStays(db, after, project, externalId);
    }
  }

  lemma StepKeepsOneCreator(w: World, c: nat, project: string, externalId: string)
    requires DbOk(w.db) && CallersOk(w) && c < |w.callers|
    requires OneCreator(w, project, externalId)
    ensures OneCreator(Step(w, c), project, externalId)
  {
    var caller := w.callers[c];
    var after := Step(w, c);
    StepKeepsCallers(w, c);
    if !Shares(caller, project, externalId) {
      OtherRunsAreNotFound(w.db, caller, project, externalId);
      assert forall k :: 0 <= k < |w.callers| && Shares(w.callers[k], project, externalId) ==>
               after.callers[k] == w.callers[k];
      if k :| 0 <= k < |w.callers| && Shares(w.callers[k], project, externalId) && Created(w.callers[k]) {
        assert Created(after.callers[k]);
      }
      if k :| 0 <= k < |after.callers| && Shares(after.callers[k], project, externalId) && Created(after.callers[k]) {
        assert Created(w.callers[k]);
      }
    } else if caller.pc.Inserting? && Existing(w.db, caller).None? {
      assert Created(after.callers[c]);
      assert after.db.runs[|w.db.runs|].project == project;
      FindRunIs(after.db, project, externalId, |w.db.runs|);
    } else {
      StatementGrows(w.db, caller);
      assert FindRun(after.db, project, externalId) == FindRun(w.db, project, externalId);
      assert forall k :: 0 <= k < |w.callers| ==>
        Created(after.callers[k]) == Created(w.callers[k])
        && Shares(after.callers[k], project, externalId) == Shares(w.callers[k], project, externalId);
      if k :| 0 <= k < |w.callers| && Shares(w.callers[k], project, externalId) && Created(w.callers[k]) {
        assert Created(after.callers[k]) && Shares(after.callers[k], project, externalId);
      }
    }
  }

  // ---------------------------------------------------------------------------------------
  // The cases of the run
  // ---------------------------------------------------------------------------------------

  // `t` is one of the known cases the caller sent.
  predicate Sent(db: Db, caller: Caller, t: nat) {
    exists i :: 0 <= i < |caller.caseIds| && Known(db, caller.project, caller.caseIds[i]) == Some(t)
  }

  predicate SentByDone(w: World, project: string, externalId: string, t: nat) {
    exists c :: 0 <= c < |w.callers| && Shares(w.callers[c], project, externalId) && w.callers[c].pc.Done?
                && Sent(w.db, w.callers[c], t)
  }

  // The key's run holds the known cases its finished callers sent, and no others.
  ghost predicate HoldsWhatWasSent(w: World, project: string, externalId: string) {
    forall run, t: nat :: FindRun(w.db, project, externalId) == Some(run) ==>
      (Attached(w.db, run, t) <==> SentByDone(w, project, externalId, t))
  }

  lemma SentByDoneUnder(w: World, after: World, c: nat, project: string, externalId: string, t: nat)
    requires c < |w.callers| && after == Step(w, c) && after.db.cases == w.db.cases
    ensures SentByDone(after, project, externalId, t)
       <==> || SentByDone(w, project, externalId, t)
            || (Shares(w.callers[c], project, externalId) && w.callers[c].pc.Attaching? && Sent(w.db, w.callers[c], t))
  {
    assert forall k :: 0 <= k < |w.callers| ==> Sent(after.db, after.callers[k], t) == Sent(w.db, w.callers[k], t);
    if k :|
      0 <= k < |w.callers| && Shares(w.callers[k], project, externalId) && w.callers[k].pc.Done?
      && Sent(w.db, w.callers[k], t) {
      assert after.callers[k].pc.Done?;
    }
    if Shares(w.callers[c], project, externalId) && w.callers[c].pc.Attaching? && Sent(w.db, w.callers[c], t) {
      assert after.callers[c].pc.Done? && Sent(after.db, after.callers[c], t);
    }
  }

  // Once the key has its run, a step attaches to it exactly what a caller of the key attaching then
  // sent.
  lemma AttachedUnder(w: World, c: nat, project: string, externalId: string, run: nat, t: nat)
    requires DbOk(w.db) && CallersOk(w) && c < |w.callers|
    requires FindRun(w.db, project, externalId) == Some(run)
    ensures var caller := w.callers[c];
            Attached(Step(w, c).db, run, t)
            <==> || Attached(w.db, run, t)
                 || (Shares(caller, project, externalId) && caller.pc.Attaching? && Sent(w.db, caller, t))
  {
    var caller := w.callers[c];
    if caller.pc.Attaching? {
      assert CallerOk(w.db, caller);
      if caller.pc.run == run {
        AttachHoldsTheKnown(w.db, run, project, caller.caseIds, t);
      } else {
        AttachElsewhere(w.db, caller.pc.run, caller.project, caller.caseIds, run, t);
        if Shares(caller, project, externalId) {
          FindRunIs(w.db, project, externalId, caller.pc.run);
        }
      }
    } else {
      assert Step(w, c).db.items == w.db.items;
    }
  }

  lemma StepKeepsCases(w: World, c: nat, project: string, externalId: string)
    requires DbOk(w.db) && CallersOk(w) && c < |w.callers|
    requires OneCreator(w, project, externalId) && HoldsWhatWasSent(w, project, externalId)
    ensures HoldsWhatWasSent(Step(w, c), project, externalId)
  {
    var caller := w.callers[c];
    var after := Step(w, c);
    StepKeepsCallers(w, c);
    forall run, t: nat | FindRun(after.db, project, externalId) == Some(run)
      ensures Attached(after.db, run, t) <==> SentByDone(after, project, externalId, t)
    {
      SentByDoneUnder(w, after, c, project, externalId, t);
      if FindRun(w.db, project, externalId).None? {
        NothingSentYet(w, project, externalId, t);
        StatementGrows(w.db, caller);
        assert caller.pc.Inserting? && after.db.items == w.db.items;
        FindRunIs(after.db, project, externalId, run);
        assert run == |w.db.runs|;
      } else {
        FoundStays(w.db, after.db, project, externalId);
        AttachedUnder(w, c, project, externalId, run, t);
      }
    }
  }

  // Before the run exists nobody of its key has finished.
  lemma NothingSentYet(w: World, project: string, externalId: string, t: nat)
    requires DbOk(w.db) && CallersOk(w) && FindRun(w.db, project, externalId).None?
    ensures !SentByDone(w, project, externalId, t)
    ensures forall c :: 0 <= c < |w.callers| && Shares(w.callers[c], project, externalId) ==>
              !w.callers[c].pc.Attaching? && !w.callers[c].pc.Done?
  {
    forall c | 0 <= c < |w.callers| && Shares(w.callers[c], project, externalId)
      ensures !w.callers[c].pc.Attaching? && !w.callers[c].pc.Done?
    {
      assert CallerOk(w.db, w.callers[c]);
    }
  }

  lemma {:induction false} RaceInvariant(w: World, schedule: seq<nat>, project: string, externalId: string)
    requires Initial(w) && Schedule(w, schedule) && FindRun(w.db, project, externalId).None?
    ensures var r := Run(w, schedule);
            && DbOk(r.db) && r.db.cases == w.db.cases && CallersOk(r)
            && OneCreator(r, project, externalId) && HoldsWhatWasSent(r, project, externalId)
  {
    if schedule != [] {
      var front := schedule[..|schedule| - 1];
      var c := schedule[|schedule| - 1];
      var before := Run(w, front);
      RaceInvariant(w, front, project, externalId);
      StepKeepsCallers(before, c);
      StepKeepsOneCreator(before, c, project, externalId);
      StepKeepsCases(before, c, project, externalId);
    }
  }

  predicate KeyIsUnique(db: Db, project: string, externalId: string) {
    forall i, j ::
      0 <= i < j < |db.runs| && db.runs[i].project == project && db.runs[j].project == project
      ==> !(db.runs[i].externalId == Some(externalId) && db.runs[j].externalId == Some(externalId))
  }

  // Finished callers of the key return one run, and at most one of them says it created it.
  predicate FinishedAgree(w: World, project: string, externalId: string) {
    forall c, d ::
      0 <= c < |w.callers| && 0 <= d < |w.callers|
      && Shares(w.callers[c], project, externalId) && Shares(w.callers[d], project, externalId)
      && w.callers[c].pc.Done? && w.callers[d].pc.Done?
      ==> (w.callers[c].pc.run == w.callers[d].pc.run
           && (!w.callers[c].pc.reused && !w.callers[d].pc.reused ==> c == d))
  }

  // The run a finished caller returns holds the known cases the finished callers sent, no others.
  ghost predicate FinishedHoldTheUnion(w: World, project: string, externalId: string) {
    forall c, t: nat ::
      0 <= c < |w.callers| && Shares(w.callers[c], project, externalId) && w.callers[c].pc.Done?
      ==> (Attached(w.db, w.callers[c].pc.run, t) <==> SentByDone(w, project, externalId, t))
  }

  // However many callers share a key that had no run, and however their statements interleave:
  // nobody fails, the key has at most one run, at most one caller is told it created it, all
  // finished callers return that run, and it holds exactly the known cases they sent.
  lemma ShardsAgree(w: World, schedule: seq<nat>, project: string, externalId: string)
    requires Initial(w) && Schedule(w, schedule) && FindRun(w.db, project, externalId).None?
    ensures var r := Run(w, schedule);
            && (forall c :: 0 <= c < |r.callers| ==> r.callers[c].pc != GaveUp)
            && KeyIsUnique(r.db, project, externalId)
            && FinishedAgree(r, project, externalId)
            && FinishedHoldTheUnion(r, project, externalId)
  {
    var r := Run(w, schedule);
    RaceInvariant(w, schedule, project, externalId);
    forall c | 0 <= c < |r.callers| && Shares(r.callers[c], project, externalId) && r.callers[c].pc.Done?
      ensures FindRun(r.db, project, externalId) == Some(r.callers[c].pc.run)
    {
      assert CallerOk(r.db, r.callers[c]);
      FindRunIs(r.db, project, externalId, r.callers[c].pc.run);
    }
    assert forall c :: 0 <= c < |r.callers| ==> CallerOk(r.db, r.callers[c]);
  }

  // Once everyone of the key has finished, exactly one of them created the run.
  lemma OneCreatorInTheEnd(w: World, schedule: seq<nat>, project: string, externalId: string, c: nat)
    requires Initial(w) && Schedule(w, schedule) && FindRun(w.db, project, externalId).None?
    requires c < |w.callers| && Shares(w.callers[c], project, externalId)
    requires forall k :: 0 <= k < |w.callers| && Shares(w.callers[k], project, externalId) ==>
               Run(w, schedule).callers[k].pc.Done?
    ensures exists k ::
              0 <= k < |w.callers| && Shares(w.callers[k], project, externalId)
              && !Run(w, schedule).callers[k].pc.reused
              && forall d :: 0 <= d < |w.callers| && d != k && Shares(w.callers[d], project, externalId)
                             ==> Run(w, schedule).callers[d].pc.reused
  {
    var r := Run(w, schedule);
    RaceInvariant(w, schedule, project, externalId);
    CallersKeepTheirRequest(w, schedule);
    assert CallerOk(r.db, r.callers[c]);
    FindRunIs(r.db, project, externalId, r.callers[c].pc.run);
    var k :| 0 <= k < |r.callers| && Shares(r.callers[k], project, externalId) && Created(r.callers[k]);
    forall d | 0 <= d < |w.callers| && d != k && Shares(w.callers[d], project, externalId)
      ensures r.callers[d].pc.reused
    {
      assert d < k || k < d;
    }
  }

  // A key that already had its run: nobody creates another, and every finished caller is given
  // that run and told it was reused.
  lemma {:induction false} ExistingIsReused(w: World, schedule: seq<nat>, project: string, externalId: string)
    requires Initial(w) && Schedule(w, schedule) && FindRun(w.db, project, externalId).Some?
    ensures var r := Run(w, schedule);
            && FindRun(r.db, project, externalId) == FindRun(w.db, project, externalId)
            && forall c :: 0 <= c < |r.callers| && Shares(r.callers[c], project, externalId) ==>
                 !Created(r.callers[c])
                 && (r.callers[c].pc.Done? ==> Some(r.callers[c].pc.run) == FindRun(w.db, project, externalId))
  {
    if schedule != [] {
      var front, c := schedule[..|schedule| - 1], schedule[|schedule| - 1];
      var before := Run(w, front);
      ExistingIsReused(w, front, project, externalId);
      CallersNeverFail(w, front);
      StepKeepsCallers(before, c);
      FoundStays(before.db, Step(before, c).db, project, externalId);
    }
    var r := Run(w, schedule);
    CallersNeverFail(w, schedule);
    forall c | 0 <= c < |r.callers| && Shares(r.callers[c], project, externalId) && r.callers[c].pc.Done?
      ensures Some(r.callers[c].pc.run) == FindRun(r.db, project, externalId)
    {
      assert CallerOk(r.db, r.callers[c]);
      FindRunIs(r.db, project, externalId, r.callers[c].pc.run);
    }
  }

  // The existing run holds what it held before and the known cases its finished callers sent, and
  // no others.
  lemma {:induction false} ExistingHoldsTheUnion(w: World, schedule: seq<nat>, project: string, externalId: string,
                                                 run: nat, t: nat)
    requires Initial(w) && Schedule(w, schedule) && FindRun(w.db, project, externalId) == Some(run)
    ensures var r := Run(w, schedule);
            Attached(r.db, run, t) <==> Attached(w.db, run, t) || SentByDone(r, project, externalId, t)
  {
    if schedule != [] {
      var front, c := schedule[..|schedule| - 1], schedule[|schedule| - 1];
      var before := Run(w, front);
      ExistingHoldsTheUnion(w, front, project, externalId, run, t);
      ExistingIsReused(w, front, project, externalId);
      CallersNeverFail(w, front);
      StepKeepsCallers(before, c);
      SentByDoneUnder(before, Step(before, c), c, project, externalId, t);
      AttachedUnder(before, c, project, externalId, run, t);
    }
  }

  lemma {:induction false} CallersKeepTheirRequest(w: World, schedule: seq<nat>)
    requires Schedule(w, schedule)
    ensures forall k :: 0 <= k < |w.callers| ==> Run(w, schedule).callers[k].(pc := w.callers[k].pc) == w.callers[k]
  {
    if schedule != [] {
      CallersKeepTheirRequest(w, schedule[..|schedule| - 1]);
    }
  }

  function Rank(pc: Pc): nat {
    match pc
    case Checking => 4
    case Inserting => 3
    case Reselecting => 2
    case Attaching(_, _) => 1
    case Done(_, _) => 0
    case GaveUp => 0
  }

  function Turns(schedule: seq<nat>, c: nat): nat {
    if schedule == [] then 0
    else Turns(schedule[..|schedule| - 1], c) + if schedule[|schedule| - 1] == c then 1 else 0
  }

  lemma {:induction false} RankFalls(w: World, schedule: seq<nat>, c: nat)
    requires Initial(w) && Schedule(w, schedule) && c < |w.callers|
    ensures var pc := Run(w, schedule).callers[c].pc;
            Rank(pc) == 0 || Rank(pc) + Turns(schedule, c) <= 4
  {
    if schedule != [] {
      RankFalls(w, schedule[..|schedule| - 1], c);
    }
  }

  // Nobody waits for anybody: four turns of its own finish a call, whatever the others do.
  lemma FourTurnsFinish(w: World, schedule: seq<nat>, c: nat)
    requires Initial(w) && Schedule(w, schedule) && c < |w.callers| && Turns(schedule, c) >= 4
    ensures Run(w, schedule).callers[c].pc.Done?
  {
    RankFalls(w, schedule, c);
    CallersNeverFail(w, schedule);
    assert CallerOk(Run(w, schedule).db, Run(w, schedule).callers[c]);
  }

  lemma {:induction false} CallersNeverFail(w: World, schedule: seq<nat>)
    requires Initial(w) && Schedule(w, schedule)
    ensures DbOk(Run(w, schedule).db) && CallersOk(Run(w, schedule))
  {
    if schedule != [] {
      CallersNeverFail(w, schedule[..|schedule| - 1]);
      StepKeepsCallers(Run(w, schedule[..|schedule| - 1]), schedule[|schedule| - 1]);
    }
  }

  // Alone, the four statements are the whole of createRun as one step.
  lemma AloneIsOpenRun(db: Db, caller: Caller)
    requires DbOk(db) && caller.pc == Checking
    ensures var (after, run, reused) := OpenRun(db, caller.project, caller.externalId, caller.name, caller.caseIds);
            var w := World(db, [caller]);
            Step(Step(Step(Step(w, 0), 0), 0), 0) == World(after, [caller.(pc := Done(run, reused))])
  {
  }
}
