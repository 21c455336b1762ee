/**
 Shards posting results at once. Each call of recordResult is cut at its SQL statements: the SELECT
 of the run, the SELECT of the case, the attach, and the one UPDATE; any number of calls interleave
 at those cuts with each other and with everything else the ingest does.
 */
module ResultRace {
  import opened Wrappers
  import opened AutomationStatus
  import opened Ingest
  import opened IngestRuns

  datatype Pc =
    | Checking
    | Resolving(status: string)
    | Attaching(status: string, testcase: nat, externalId: string)
    | Updating(status: string, testcase: nat)
    | Done(answer: Result<View, Error>)

  datatype Poster = Poster(project: string, run: nat, caseId: string, status: string, retryCount: Option<nat>, pc: Pc)

  datatype World = World(db: Db, posters: seq<Poster>)

  // A statement of one poster, or a whole step of somebody else.
  datatype Turn = Of(poster: nat) | Other(step: IngestRuns.Step)

  function SubmissionOf(poster: Poster): Submission
    requires poster.pc.Updating?
  {
    Submission(poster.pc.status, poster.retryCount)
  }

  // The status word is checked once the run is known, and the retry count once the case is, without
  // another statement.
  function Statement(db: Db, poster: Poster): (Db, Pc) {
    match poster.pc
    case Checking =>
      var status := NormalizeWireStatus(poster.status);
      (db, if !RunOf(db, poster.run, poster.project) then Done(Err(RunNotFound))
           else if status.None? then Done(Err(BadStatus)) else Resolving(status.value))
    case Resolving(status) =>
      var found := Known(db, poster.project, poster.caseId);
      (db, if found.None? then Done(Err(CaseNotFound))
           else if !GoodRetryCount(poster.retryCount) then Done(Err(BadRetryCount))
           else Attaching(status, found.value, db.cases[found.value].externalId))
    case Attaching(status, testcase, externalId) =>
      (Attach(db, poster.run, poster.project, [externalId]), Updating(status, testcase))
    case Updating(status, testcase) =>
      if HasTarget(db, poster.run, testcase) then
        var after := Updated(db, poster.run, testcase, SubmissionOf(poster));
        (after, Done(Ok(Returned(after, poster.run, testcase))))
      else (db, Done(Err(ResultGone)))
    case Done(_) => (db, poster.pc)
  }

  // RETURNING status, retry_count.
  function Returned(db: Db, run: nat, testcase: nat): View {
    if |db.items| == |db.executions| then ViewOf(db, run, testcase) else FIRST
  }

  predicate Possible(w: World, turn: Turn) {
    turn.Of? ==> turn.poster < |w.posters|
  }

  function Take(w: World, turn: Turn): World
    requires Possible(w, turn)
  {
    match turn
    case Of(p) =>
      var (db, pc) := Statement(w.db, w.posters[p]);
      World(db, w.posters[p := w.posters[p].(pc := pc)])
    case Other(step) => w.(db := Advance(w.db, step))
  }

  predicate Schedule(w: World, turns: seq<Turn>) {
    forall i :: 0 <= i < |turns| ==> Possible(w, turns[i])
  }

  function Run(w: World, turns: seq<Turn>): (r: World)
    requires Schedule(w, turns)
    ensures |r.posters| == |w.posters|
  {
    if turns == [] then w else Take(Run(w, turns[..|turns| - 1]), turns[|turns| - 1])
  }

  // What a poster knows past its lookups.
  predicate PosterOk(db: Db, poster: Poster) {
    match poster.pc
    case Checking => true
    case Resolving(status) => poster.run < |db.runs| && Stored(status)
    case Attaching(status, testcase, _) => poster.run < |db.runs| && Stored(status)
    case Updating(status, testcase) => poster.run < |db.runs| && Stored(status)
    case Done(_) => true
  }

  predicate WorldOk(w: World) {
    DbOk(w.db) && forall p :: 0 <= p < |w.posters| ==> PosterOk(w.db, w.posters[p])
  }

  predicate Initial(w: World) {
    DbOk(w.db) && forall p :: 0 <= p < |w.posters| ==> w.posters[p].pc == Checking
  }

  lemma StatementKeeps(db: Db, poster: Poster)
    requires DbOk(db) && PosterOk(db, poster)
    ensures var (after, pc) := Statement(db, poster);
            DbOk(after) && after.runs == db.runs && PosterOk(after, poster.(pc := pc))
  {
    match poster.pc
    case Attaching(_, _, externalId) => AttachKeeps(db, poster.run, poster.project, [externalId]);
    case Updating(_, testcase) => UpdatedKeeps(db, poster.run, testcase, SubmissionOf(poster));
    case _ =>
  }

  lemma TakeKeeps(w: World, turn: Turn)
    requires WorldOk(w) && Possible(w, turn)
    ensures WorldOk(Take(w, turn))
  {
    match turn
    case Of(p) => StatementKeeps(w.db, w.posters[p]);
    case Other(step) => StepKeeps(w.db, step);
  }

  // The tables stay sound in every interleaving.
  lemma {:induction false} PostsKeep(w: World, turns: seq<Turn>)
    requires Initial(w) && Schedule(w, turns)
    ensures WorldOk(Run(w, turns))
  {
    if turns != [] {
      PostsKeep(w, turns[..|turns| - 1]);
      TakeKeeps(Run(w, turns[..|turns| - 1]), turns[|turns| - 1]);
    }
  }

  // ---------------------------------------------------------------------------------------
  // The order of the UPDATEs
  // ---------------------------------------------------------------------------------------

  // The turn is the UPDATE of a poster, which finds its result row.
  predicate Lands(w: World, p: nat) {
    p < |w.posters| && w.posters[p].pc.Updating? && HasTarget(w.db, w.posters[p].run, w.posters[p].pc.testcase)
  }

  // The submission a turn writes for this case of this run, if it writes one.
  function WrittenBy(w: World, turn: Turn, run: nat, testcase: nat): Option<Submission> {
    match turn
    case Of(p) =>
      if Lands(w, p) && w.posters[p].run == run && w.posters[p].pc.testcase == testcase then
        Some(SubmissionOf(w.posters[p]))
      else None
    case Other(step) => AcceptedBy(w.db, step, run, testcase)
  }

  // All submissions written for the case, in the order of their UPDATEs.
  function Written(w: World, turns: seq<Turn>, run: nat, testcase: nat): seq<Submission>
    requires Schedule(w, turns)
  {
    if turns == [] then []
    else
      var front := turns[..|turns| - 1];
      var s := WrittenBy(Run(w, front), turns[|turns| - 1], run, testcase);
      Written(w, front, run, testcase) + if s.Some? then [s.value] else []
  }

  lemma StatementMovesView(w: World, p: nat, run: nat, testcase: nat)
    requires WorldOk(w) && p < |w.posters|
    ensures OneResultEach(Take(w, Of(p)).db)
    ensures var s := WrittenBy(w, Of(p), run, testcase);
            ViewOf(Take(w, Of(p)).db, run, testcase)
            == if s.Some? then IngestRuns.Take(ViewOf(w.db, run, testcase), s.value) else ViewOf(w.db, run, testcase)
  {
    var poster := w.posters[p];
    assert PosterOk(w.db, poster);
    StatementKeeps(w.db, poster);
    match poster.pc
    case Attaching(_, _, externalId) =>
      AttachKeepsView(w.db, poster.run, poster.project, [externalId], run, testcase);
    case Updating(_, target) =>
      if HasTarget(w.db, poster.run, target) {
        UpdateMovesView(w.db, poster.run, target, SubmissionOf(poster), run, testcase);
      }
    case _ =>
  }

  lemma TurnMovesView(w: World, turn: Turn, run: nat, testcase: nat)
    requires WorldOk(w) && Possible(w, turn)
    ensures OneResultEach(Take(w, turn).db)
    ensures var s := WrittenBy(w, turn, run, testcase);
            ViewOf(Take(w, turn).db, run, testcase)
            == if s.Some? then IngestRuns.Take(ViewOf(w.db, run, testcase), s.value) else ViewOf(w.db, run, testcase)
  {
    match turn
    case Of(p) => StatementMovesView(w, p, run, testcase);
    case Other(step) => StepMovesView(w.db, step, run, testcase);
  }

  // However the posts interleave, a case that was not in the run before shows the fold of the
  // submissions written for it, in the order of the UPDATEs: no read and write of two shards ever
  // mix.
  lemma {:induction false} ViewFoldsUpdates(w: World, turns: seq<Turn>, run: nat, testcase: nat)
    requires Initial(w) && Schedule(w, turns) && ItemIndex(w.db.items, run, testcase).None?
    ensures OneResultEach(Run(w, turns).db)
    ensures ViewOf(Run(w, turns).db, run, testcase) == Fold(Written(w, turns, run, testcase))
  {
    if turns != [] {
      var front, turn := turns[..|turns| - 1], turns[|turns| - 1];
      ViewFoldsUpdates(w, front, run, testcase);
      PostsKeep(w, front);
      TurnMovesView(Run(w, front), turn, run, testcase);
      FoldOfMore(Written(w, front, run, testcase), WrittenBy(Run(w, front), turn, run, testcase));
    }
  }

  lemma FoldOfMore(subs: seq<Submission>, s: Option<Submission>)
    ensures Fold(subs + if s.Some? then [s.value] else [])
         == if s.Some? then IngestRuns.Take(Fold(subs), s.value) else Fold(subs)
  {
    if s.Some? {
      assert (subs + [s.value])[..|subs|] == subs;
    } else {
      assert subs + [] == subs;
    }
  }

  // What a poster is answered at its UPDATE is the fold of everything written up to and including
  // its own submission: the count it sees is its own, whoever posts next.
  lemma AnswerIsItsOwnFold(w: World, turns: seq<Turn>, p: nat, i: nat)
    requires Initial(w) && Schedule(w, turns) && i < |turns| && turns[i] == Of(p)
    requires var before := Run(w, turns[..i]);
             Lands(before, p) && ItemIndex(w.db.items, before.posters[p].run, before.posters[p].pc.testcase).None?
    ensures var before, after := Run(w, turns[..i]), Run(w, turns[..i + 1]);
            var run, testcase := before.posters[p].run, before.posters[p].pc.testcase;
            && after.posters[p].pc == Done(Ok(Fold(Written(w, turns[..i + 1], run, testcase))))
            && Written(w, turns[..i + 1], run, testcase)
               == Written(w, turns[..i], run, testcase) + [SubmissionOf(before.posters[p])]
  {
    var before := Run(w, turns[..i]);
    var poster := before.posters[p];
    assert turns[..i + 1][..i] == turns[..i];
    PostsKeep(w, turns[..i]);
    ViewFoldsUpdates(w, turns[..i + 1], poster.run, poster.pc.testcase);
    var after := Updated(before.db, poster.run, poster.pc.testcase, SubmissionOf(poster));
    assert Run(w, turns[..i + 1]).db == after;
  }

  // ---------------------------------------------------------------------------------------
  // Each submission once
  // ---------------------------------------------------------------------------------------

  lemma {:induction false} AnswersStay(w: World, turns: seq<Turn>, i: nat, p: nat)
    requires Schedule(w, turns) && i <= |turns| && p < |w.posters| && Run(w, turns[..i]).posters[p].pc.Done?
    ensures Run(w, turns).posters[p].pc == Run(w, turns[..i]).posters[p].pc
    decreases |turns|
  {
    if i == |turns| {
      assert turns[..i] == turns;
    } else {
      assert turns[..|turns| - 1][..i] == turns[..i];
      AnswersStay(w, turns[..|turns| - 1], i, p);
    }
  }

  lemma {:induction false} LandedAt(w: World, turns: seq<Turn>, p: nat) returns (i: nat)
    requires Initial(w) && Schedule(w, turns) && p < |w.posters|
    requires Run(w, turns).posters[p].pc.Done? && Run(w, turns).posters[p].pc.answer.Ok?
    ensures i < |turns| && turns[i] == Of(p) && Lands(Run(w, turns[..i]), p)
  {
    var last := |turns| - 1;
    var before := Run(w, turns[..last]);
    if before.posters[p].pc.Done? {
      i := LandedAt(w, turns[..last], p);
      assert turns[..last][..i] == turns[..i];
    } else {
      i := last;
    }
  }

  lemma LandsOnce(w: World, turns: seq<Turn>, p: nat, i: nat)
    requires Initial(w) && Schedule(w, turns) && i < |turns| && turns[i] == Of(p) && Lands(Run(w, turns[..i]), p)
    ensures Run(w, turns).posters[p].pc.Done? && Run(w, turns).posters[p].pc.answer.Ok?
  {
    assert turns[..i + 1][..i] == turns[..i];
    AnswersStay(w, turns, i + 1, p);
  }

  // A call is answered with success if and only if one of its turns wrote its submission, and it
  // writes its submission once.
  lemma AnsweredIff(w: World, turns: seq<Turn>, p: nat)
    requires Initial(w) && Schedule(w, turns) && p < |w.posters|
    ensures var pc := Run(w, turns).posters[p].pc;
            (pc.Done? && pc.answer.Ok?)
            <==> exists i :: 0 <= i < |turns| && turns[i] == Of(p) && Lands(Run(w, turns[..i]), p)
  {
    var pc := Run(w, turns).posters[p].pc;
    if pc.Done? && pc.answer.Ok? {
      var i := LandedAt(w, turns, p);
    }
    if i :| 0 <= i < |turns| && turns[i] == Of(p) && Lands(Run(w, turns[..i]), p) {
      LandsOnce(w, turns, p, i);
    }
  }

  lemma NeverWrittenTwice(w: World, turns: seq<Turn>, p: nat, i: nat, j: nat)
    requires Initial(w) && Schedule(w, turns) && i < j < |turns|
    requires turns[i] == Of(p) && Lands(Run(w, turns[..i]), p)
    ensures !Lands(Run(w, turns[..j]), p)
  {
    assert turns[..j][..i] == turns[..i];
    LandsOnce(w, turns[..j], p, i);
  }

  // `n` statements of one poster with nobody in between.
  function Statements(db: Db, poster: Poster, n: nat): (Db, Poster)
    decreases n
  {
    if n == 0 then (db, poster)
    else
      var (after, pc) := Statement(db, poster);
      Statements(after, poster.(pc := pc), n - 1)
  }

  lemma {:induction false} AnsweredStays(db: Db, poster: Poster, n: nat)
    requires poster.pc.Done?
    ensures Statements(db, poster, n) == (db, poster)
    decreases n
  {
    if n > 0 {
      AnsweredStays(db, poster, n - 1);
    }
  }

  // Alone, the four statements are the whole of recordResult as one step.
  lemma AloneIsRecord(db: Db, poster: Poster)
    requires DbOk(db) && poster.pc == Checking
    ensures var (after, answer) := Record(db, poster.project, poster.run, poster.caseId, poster.status,
                                          poster.retryCount);
            var (done, answered) := Statements(db, poster, 4);
            && done == after && answered.pc.Done? && answered.pc.answer.Ok? == answer.Ok?
            && (answer.Err? ==> answered.pc.answer == Err(answer.error))
  {
    var checked := poster.(pc := Statement(db, poster).1);
    assert Statements(db, poster, 4) == Statements(db, checked, 3);
    if checked.pc.Done? {
      AnsweredStays(db, checked, 3);
    } else {
      var resolved := checked.(pc := Statement(db, checked).1);
      assert Statements(db, checked, 3) == Statements(db, resolved, 2);
      if resolved.pc.Done? {
        AnsweredStays(db, resolved, 2);
      } else {
        var (attached, pc) := Statement(db, resolved);
        assert Statements(db, resolved, 2) == Statements(attached, resolved.(pc := pc), 1);
        assert Statements(attached, resolved.(pc := pc), 1) == (Statement(attached, resolved.(pc := pc)).0,
          resolved.(pc := Statement(attached, resolved.(pc := pc)).1));
      }
    }
  }
}
