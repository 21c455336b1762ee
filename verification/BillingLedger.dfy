/** The plan ledger: upgrades and downgrades in a workspace's history, over every run. */
module BillingLedger {
  import opened Wrappers
  import opened BillingModel
  import opened BillingRuns

  // The plan changes among `actions`, oldest first: true for an upgrade, false for a downgrade.
  function PlanTrail(actions: seq<Action>): seq<bool> {
    if actions == [] then []
    else
      var last := actions[|actions| - 1];
      PlanTrail(actions[..|actions| - 1])
      + if last.Upgraded? then [true] else if last.Downgraded? || last.GrantExpired? then [false] else []
  }

  function Count(trail: seq<bool>, kind: bool): nat {
    if trail == [] then 0
    else Count(trail[..|trail| - 1], kind) + if trail[|trail| - 1] == kind then 1 else 0
  }

  // Starts with an upgrade and never records two of a kind in a row.
  predicate Alternates(trail: seq<bool>) {
    forall i :: 0 <= i < |trail| ==> trail[i] == (i % 2 == 0)
  }

  lemma {:induction false} PlanTrailAppends(first: seq<Action>, second: seq<Action>)
    ensures PlanTrail(first + second) == PlanTrail(first) + PlanTrail(second)
    decreases |second|
  {
    if second == [] {
      assert first + second == first;
    } else {
      var all := first + second;
      assert all[..|all| - 1] == first + second[..|second| - 1];
      PlanTrailAppends(first, second[..|second| - 1]);
    }
  }

  lemma {:induction false} AlternatingCounts(trail: seq<bool>)
    requires Alternates(trail)
    ensures Count(trail, true) - Count(trail, false) == |trail| % 2
  {
    if trail != [] {
      AlternatingCounts(trail[..|trail| - 1]);
    }
  }

  // A handler records an upgrade exactly when it moves the plan to Pro, and a downgrade exactly
  // when it moves it to Launch.
  predicate RecordsPlanChange(row: Row, effect: Effect) {
    PlanTrail(effect.actions) == if row.plan == effect.row.plan then [] else [effect.row.plan == Pro]
  }

  lemma PlanTrailOfOne(a: Action)
    ensures PlanTrail([a]) == if a.Upgraded? then [true] else if a.Downgraded? || a.GrantExpired? then [false] else []
  {
    assert [a][..0] == [];
  }

  lemma SubscriptionRecordsPlanChange(config: Config, row: Row, sub: Subscription, now: Time)
    ensures RecordsPlanChange(row, SubscriptionEffect(config, row, sub, now))
  {
    var actions := SubscriptionEffect(config, row, sub, now).actions;
    if |actions| == 2 {
      assert actions == [actions[0]] + [actions[1]];
      PlanTrailAppends([actions[0]], [actions[1]]);
      PlanTrailOfOne(actions[1]);
    }
    if |actions| > 0 {
      PlanTrailOfOne(actions[0]);
      assert |actions| == 1 ==> actions == [actions[0]];
    }
  }

  lemma EventRecordsPlanChange(config: Config, row: Row, body: EventBody, workspace: Id, now: Time)
    ensures RecordsPlanChange(row, HandledOn(config, row, body, workspace, now))
  {
    if body.SubscriptionChanged? {
      SubscriptionRecordsPlanChange(config, row, body.changed, now);
    }
    var actions := HandledOn(config, row, body, workspace, now).actions;
    if |actions| == 1 {
      PlanTrailOfOne(actions[0]);
      assert actions == [actions[0]];
    }
  }

  lemma StepRecordsPlanChange(config: Config, s: State, t: Timed, workspace: Id)
    requires workspace in s.rows && !ByOperator(t, workspace)
    ensures RecordsPlanChange(s.rows[workspace], EffectOn(config, s, t, workspace))
  {
    if t.step.Delivered? {
      EventRecordsPlanChange(config, s.rows[workspace], t.step.event.body, workspace, t.now);
    } else if AppliedTo(s, t, workspace).Some? {
      AppliedEffect(config, s, t, workspace);
      SubscriptionRecordsPlanChange(config, s.rows[workspace], AppliedTo(s, t, workspace).value, t.now);
    }
  }

  // From a workspace that starts on Launch with no plan changes recorded, and with no operator
  // change to it, every run keeps upgrades minus downgrades at 1 on Pro and 0 on Launch, and the
  // two kinds strictly alternate: checkout and the subscription handler never both record the
  // same upgrade.
  lemma {:induction false} UpgradeLedger(config: Config, s: State, steps: seq<Timed>, workspace: Id)
    requires workspace in s.rows && s.rows[workspace].plan == Launch
    requires PlanTrail(OwnActions(s.history, workspace)) == []
    requires forall i :: 0 <= i < |steps| ==> !ByOperator(steps[i], workspace)
    ensures var after := Run(config, s, steps);
            var trail := PlanTrail(OwnActions(after.history, workspace));
            && workspace in after.rows
            && Alternates(trail)
            && Count(trail, true) - Count(trail, false) == (if after.rows[workspace].plan == Pro then 1 else 0)
  {
    LedgerInvariant(config, s, steps, workspace);
    AlternatingCounts(PlanTrail(OwnActions(Run(config, s, steps).history, workspace)));
  }

  predicate Balanced(s: State, workspace: Id) {
    && workspace in s.rows
    && Alternates(PlanTrail(OwnActions(s.history, workspace)))
    && (|PlanTrail(OwnActions(s.history, workspace))| % 2 == 1 <==> s.rows[workspace].plan == Pro)
  }

  lemma TrailGrows(trail: seq<bool>, from: Plan, to: Plan)
    requires Alternates(trail) && (|trail| % 2 == 1 <==> from == Pro)
    ensures var grown := trail + if from == to then [] else [to == Pro];
            Alternates(grown) && (|grown| % 2 == 1 <==> to == Pro)
  {
  }

  lemma StepKeepsBalance(s: State, after: State, effect: Effect, workspace: Id)
    requires Balanced(s, workspace) && ChangedBy(s, after, workspace, effect)
    requires RecordsPlanChange(s.rows[workspace], effect)
    ensures Balanced(after, workspace)
  {
    PlanTrailAppends(OwnActions(s.history, workspace), effect.actions);
    TrailGrows(PlanTrail(OwnActions(s.history, workspace)), s.rows[workspace].plan, effect.row.plan);
    assert OwnActions(after.history, workspace) == OwnActions(s.history, workspace) + effect.actions;
  }

  lemma {:induction false} LedgerInvariant(config: Config, s: State, steps: seq<Timed>, workspace: Id)
    requires Balanced(s, workspace)
    requires forall i :: 0 <= i < |steps| ==> !ByOperator(steps[i], workspace)
    ensures Balanced(Run(config, s, steps), workspace)
  {
    if steps != [] {
      var before := Run(config, s, steps[..|steps| - 1]);
      var t := steps[|steps| - 1];
      LedgerInvariant(config, s, steps[..|steps| - 1], workspace);
      StepIsLocal(config, before, t, workspace);
      StepRecordsPlanChange(config, before, t, workspace);
      StepKeepsBalance(before, Advance(config, before, t), EffectOn(config, before, t, workspace), workspace);
    }
  }
}
