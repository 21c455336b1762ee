/**
 The grace window after losing Pro: what opens it, what it is worth, and the one way a workspace
 loses Pro again without getting a window.
 */
module BillingGrace {
  import opened Wrappers
  import opened BillingModel
  import opened BillingRuns
  import opened BillingDeadlines

  // With no events, a workspace in its grace window only ever moves on to enforced limits, and
  // once there stays there.
  lemma GraceOnlyRunsOut(row: Row, now: Time, later: Time)
    requires now <= later
    ensures InGracePeriod(row, later) ==> InGracePeriod(row, now)
    ensures LimitsEnforced(row, now) ==> LimitsEnforced(row, later)
    ensures InGracePeriod(row, now) ==> InGracePeriod(row, later) != LimitsEnforced(row, later)
  {
  }

  // The window is whole days: none for a setting of zero or less, and 24 hours more for each day.
  lemma WindowIsDays(config: Config)
    ensures config.planGraceDays <= 0 ==> GraceWindow(config) == 0
    ensures config.planGraceDays >= 0 ==>
              GraceWindow(config.(planGraceDays := config.planGraceDays + 1)) == GraceWindow(config) + 86_400_000
  {
  }

  // Losing Pro starts a full window exactly when no deadline is left over on the row, or the
  // left-over one happens to be that very instant.
  lemma FullWindowIff(config: Config, s: State, t: Timed, workspace: Id)
    requires workspace in s.rows && DropsToLaunch(s, t, workspace)
    ensures workspace in Advance(config, s, t).rows
    ensures var leftOver := s.rows[workspace].graceEndsAt;
            var after := Advance(config, s, t).rows[workspace];
            var window := t.now + GraceWindow(config);
            && after.plan == Launch
            && (after.graceEndsAt == Some(window) <==> leftOver.None? || leftOver.value == window)
            && (InGracePeriod(after, t.now) <==> leftOver.GetOr(window) > t.now)
  {
    DropKeepsDeadline(config, s, t, workspace);
  }

  lemma DropKeepsDeadline(config: Config, s: State, t: Timed, workspace: Id)
    requires workspace in s.rows && DropsToLaunch(s, t, workspace)
    ensures workspace in Advance(config, s, t).rows
    ensures Advance(config, s, t).rows[workspace].plan == Launch
    ensures Advance(config, s, t).rows[workspace].graceEndsAt
         == Coalesce(s.rows[workspace].graceEndsAt, Some(t.now + GraceWindow(config)))
  {
    AppliedRow(config, s, t, workspace);
  }

  // On Pro with the deadline of an earlier loss of Pro still on the row.
  predicate LeftOver(row: Row) {
    row.plan == Pro && row.graceEndsAt.Some?
  }

  lemma LeftOverStep(config: Config, s: State, t: Timed, workspace: Id)
    requires workspace in s.rows && !ByOperator(t, workspace)
    ensures workspace in Advance(config, s, t).rows
    ensures LeftOver(Advance(config, s, t).rows[workspace])
       <==> || (CheckoutFor(s, t, workspace).Some? && s.rows[workspace].graceEndsAt.Some?)
            || (LeftOver(s.rows[workspace]) && !AppliesRunning(s, t, workspace) && !DropsToLaunch(s, t, workspace))
  {
    ColumnStep(GraceEndsAt, config, s, t, workspace);
    PlanStep(config, s, t, workspace);
  }

  ghost predicate LeavesOver(config: Config, s: State, steps: seq<Timed>, workspace: Id, i: nat)
    requires workspace in s.rows && i < |steps|
  {
    && CheckoutFor(Before(config, s, steps, i), steps[i], workspace).Some?
    && RowAfter(config, s, steps[..i], workspace).graceEndsAt.Some?
  }

  ghost predicate SettlesDeadline(config: Config, s: State, steps: seq<Timed>, workspace: Id, k: nat)
    requires workspace in s.rows && k < |steps|
  {
    RunKeepsWorkspaces(config, s, steps[..k]);
    var before := Before(config, s, steps, k);
    AppliesRunning(before, steps[k], workspace) || DropsToLaunch(before, steps[k], workspace)
  }

  // Some checkout among the first `j` steps left a deadline over, and none of them settled it since.
  ghost predicate LeftOverSince(config: Config, s: State, steps: seq<Timed>, workspace: Id, j: nat)
    requires workspace in s.rows && j <= |steps|
  {
    exists i: nat :: i < j && LeavesOver(config, s, steps, workspace, i)
                     && forall k :: i < k < j ==> !SettlesDeadline(config, s, steps, workspace, k)
  }

  lemma LeftOverSinceStep(config: Config, s: State, steps: seq<Timed>, workspace: Id, j: nat)
    requires workspace in s.rows && 0 < j <= |steps|
    ensures LeftOverSince(config, s, steps, workspace, j)
       <==> || LeavesOver(config, s, steps, workspace, j - 1)
            || (LeftOverSince(config, s, steps, workspace, j - 1)
                && !SettlesDeadline(config, s, steps, workspace, j - 1))
  {
  }

  // Over any run without operator changes to it, from a row with nothing left over: a workspace is
  // on Pro with a left-over deadline exactly when some checkout completed while a deadline stood,
  // and since then neither has a running subscription been applied nor Pro been lost.
  lemma {:induction false} LeftOverOrigin(config: Config, s: State, steps: seq<Timed>, workspace: Id, j: nat)
    requires workspace in s.rows && !LeftOver(s.rows[workspace]) && j <= |steps|
    requires forall k :: 0 <= k < |steps| ==> !ByOperator(steps[k], workspace)
    ensures LeftOver(RowAfter(config, s, steps[..j], workspace))
       <==> LeftOverSince(config, s, steps, workspace, j)
    decreases j
  {
    if j == 0 {
      assert steps[..0] == [];
    } else {
      LeftOverSinceStep(config, s, steps, workspace, j);
      LeftOverOrigin(config, s, steps, workspace, j - 1);
      RunKeepsWorkspaces(config, s, steps[..j - 1]);
      assert steps[..j][..j - 1] == steps[..j - 1];
      LeftOverStep(config, Run(config, s, steps[..j - 1]), steps[j - 1], workspace);
    }
  }

  function PlanAfter(s: State, t: Timed, workspace: Id): Plan
    requires workspace in s.rows
  {
    if CheckoutFor(s, t, workspace).Some? || AppliesRunning(s, t, workspace) then Pro
    else if DropsToLaunch(s, t, workspace) then Launch
    else s.rows[workspace].plan
  }

  // Where one step leaves the plan.
  lemma PlanStep(config: Config, s: State, t: Timed, workspace: Id)
    requires workspace in s.rows && !ByOperator(t, workspace)
    ensures workspace in Advance(config, s, t).rows
    ensures Advance(config, s, t).rows[workspace].plan == PlanAfter(s, t, workspace)
  {
    StepIsLocal(config, s, t, workspace);
    EffectPlan(config, s, t, workspace);
  }

  lemma EffectPlan(config: Config, s: State, t: Timed, workspace: Id)
    requires workspace in s.rows && !ByOperator(t, workspace)
    ensures EffectOn(config, s, t, workspace).row.plan == PlanAfter(s, t, workspace)
  {
    if AppliedTo(s, t, workspace).Some? {
      AppliedEffect(config, s, t, workspace);
    }
  }

  predicate LeadsToPro(s: State, t: Timed, workspace: Id) {
    CheckoutFor(s, t, workspace).Some? || AppliesRunning(s, t, workspace)
  }

  // Some step among the first `j` led to Pro, and none of them lost it since.
  ghost predicate ProSince(config: Config, s: State, steps: seq<Timed>, workspace: Id, j: nat)
    requires workspace in s.rows && j <= |steps|
  {
    exists i: nat :: i < j && LeadsToPro(Before(config, s, steps, i), steps[i], workspace)
                     && forall k :: i < k < j ==> !LosesPro(config, s, steps, workspace, k)
  }

  ghost predicate LosesPro(config: Config, s: State, steps: seq<Timed>, workspace: Id, k: nat)
    requires workspace in s.rows && k < |steps|
  {
    RunKeepsWorkspaces(config, s, steps[..k]);
    DropsToLaunch(Before(config, s, steps, k), steps[k], workspace)
  }

  lemma ProSinceStep(config: Config, s: State, steps: seq<Timed>, workspace: Id, j: nat)
    requires workspace in s.rows && 0 < j <= |steps|
    ensures ProSince(config, s, steps, workspace, j)
       <==> || LeadsToPro(Before(config, s, steps, j - 1), steps[j - 1], workspace)
            || (ProSince(config, s, steps, workspace, j - 1) && !LosesPro(config, s, steps, workspace, j - 1))
  {
  }

  // Over any run without operator changes to it, from Launch: a workspace is on Pro exactly when a
  // checkout completed or a subscription that has not ended was applied, in whatever status, and
  // Pro was not lost since.
  lemma {:induction false} ProOrigin(config: Config, s: State, steps: seq<Timed>, workspace: Id, j: nat)
    requires workspace in s.rows && s.rows[workspace].plan == Launch && j <= |steps|
    requires forall k :: 0 <= k < |steps| ==> !ByOperator(steps[k], workspace)
    ensures RowAfter(config, s, steps[..j], workspace).plan == Pro <==> ProSince(config, s, steps, workspace, j)
    decreases j
  {
    if j == 0 {
      assert steps[..0] == [];
    } else {
      ProSinceStep(config, s, steps, workspace, j);
      ProOrigin(config, s, steps, workspace, j - 1);
      RunKeepsWorkspaces(config, s, steps[..j - 1]);
      assert steps[..j][..j - 1] == steps[..j - 1];
      PlanStep(config, Run(config, s, steps[..j - 1]), steps[j - 1], workspace);
    }
  }

  // So nothing need ever be paid: a subscription reported incomplete, its first invoice unpaid, gives
  // Pro, and its expiry then a full window at Pro's limits.
  lemma NeverPaidGetsProAndWindow(config: Config, s: State, ids: seq<Id>, incomplete: Subscription, workspace: Id)
    requires workspace in s.rows && s.rows[workspace].plan == Launch && s.rows[workspace].source == FromStripe
    requires |ids| == 2 && ids[0] != ids[1] && ids[0] !in s.processed && ids[1] !in s.processed
    requires incomplete.status == Incomplete && incomplete.organization == Some(workspace)
    ensures var first := At(1, Delivered(Event(ids[0], SubscriptionChanged(incomplete))), Everything);
            var expired := incomplete.(status := IncompleteExpired);
            var second := At(2, Delivered(Event(ids[1], SubscriptionChanged(expired))), Everything);
            var half := Advance(config, s, first);
            var after := Advance(config, half, second);
            && workspace in half.rows && half.rows[workspace].plan == Pro
            && workspace in after.rows && after.rows[workspace].plan == Launch
            && after.rows[workspace].graceEndsAt == Some(2 + GraceWindow(config))
  {
    var first := At(1, Delivered(Event(ids[0], SubscriptionChanged(incomplete))), Everything);
    var expired := incomplete.(status := IncompleteExpired);
    var second := At(2, Delivered(Event(ids[1], SubscriptionChanged(expired))), Everything);
    var half := Advance(config, s, first);
    AppliedRow(config, s, first, workspace);
    DeliveryMarks(config, s, first);
    DropKeepsDeadline(config, half, second, workspace);
  }

  // A workspace loses Pro, buys it back at checkout after the window has closed, and its new
  // subscription ends before any subscription event for it is applied: Launch limits apply at
  // once, although the workspace has only now lost Pro.
  lemma RebuyerGetsNoWindow(config: Config, s: State, ids: seq<Id>, lapsed: Subscription, rebought: Subscription,
                            workspace: Id)
    requires workspace in s.rows && s.rows[workspace].plan == Pro && s.rows[workspace].source == FromStripe
    requires s.rows[workspace].graceEndsAt.None?
    requires |ids| == 3 && ids[0] != ids[1] && ids[0] != ids[2] && ids[1] != ids[2]
    requires ids[0] !in s.processed && ids[1] !in s.processed && ids[2] !in s.processed
    requires lapsed.status == Canceled && lapsed.organization == Some(workspace)
    requires rebought.status == Canceled && rebought.organization == Some(workspace)
    ensures var deadline := GraceWindow(config);
            var bought := Event(ids[1], CheckoutCompleted(Some(workspace), Some(rebought.id)));
            var steps := [At(0, Delivered(Event(ids[0], SubscriptionChanged(lapsed))), Everything),
                          At(deadline + 1, Delivered(bought), Everything),
                          At(deadline + 2, Delivered(Event(ids[2], SubscriptionChanged(rebought))), Everything)];
            var row := RowAfter(config, s, steps, workspace);
            && row.plan == Launch && row.graceEndsAt == Some(deadline)
            && LimitsEnforced(row, deadline + 2)
  {
    var deadline := GraceWindow(config);
    var t1 := At(0, Delivered(Event(ids[0], SubscriptionChanged(lapsed))), Everything);
    var bought := Event(ids[1], CheckoutCompleted(Some(workspace), Some(rebought.id)));
    var t2 := At(deadline + 1, Delivered(bought), Everything);
    var t3 := At(deadline + 2, Delivered(Event(ids[2], SubscriptionChanged(rebought))), Everything);
    var s1 := Advance(config, s, t1);
    var s2 := Advance(config, s1, t2);
    RunOfThree(config, s, [t1, t2, t3]);
    DeliveryMarks(config, s, t1);
    DeliveryMarks(config, s1, t2);
    DropKeepsDeadline(config, s, t1, workspace);
    SourceAfterCheckout(config, s1, t2, workspace);
    DropKeepsDeadline(config, s2, t3, workspace);
  }

  // A completed checkout hands the plan to Stripe: Pro, and every override field cleared.
  lemma SourceAfterCheckout(config: Config, s: State, t: Timed, workspace: Id)
    requires workspace in s.rows && CheckoutFor(s, t, workspace).Some?
    ensures workspace in Advance(config, s, t).rows
    ensures var after := Advance(config, s, t).rows[workspace];
            && after.plan == Pro && after.source == FromStripe && after.override == NO_OVERRIDE
            && after.subscription == CheckoutFor(s, t, workspace)
            && s.rows[workspace] == after.(plan := s.rows[workspace].plan, source := s.rows[workspace].source,
                                           override := s.rows[workspace].override,
                                           subscription := s.rows[workspace].subscription)
  {
    StepIsLocal(config, s, t, workspace);
  }
}
