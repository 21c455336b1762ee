/**
 The two timestamps a handler may set and another must not move: plan_grace_ends_at, opened by
 losing Pro, and payment_failed_at, opened by a failed invoice. Both are first-write-wins columns
 that only a clearing step can empty; this module says which steps open and clear each, and what
 each holds after any run.
 */
module BillingDeadlines {
  import opened Wrappers
  import opened BillingModel
  import opened BillingRuns

  datatype Column = GraceEndsAt | PaymentFailedAt

  function Read(column: Column, row: Row): Option<Time> {
    if column.GraceEndsAt? then row.graceEndsAt else row.paymentFailedAt
  }

  predicate AppliesRunning(s: State, t: Timed, workspace: Id) {
    AppliedTo(s, t, workspace).Some? && !Ended(AppliedTo(s, t, workspace).value.status)
  }

  // The step takes the workspace off Pro because its subscription ended.
  predicate DropsToLaunch(s: State, t: Timed, workspace: Id)
    requires workspace in s.rows
  {
    var sub := AppliedTo(s, t, workspace);
    sub.Some? && Ended(sub.value.status) && s.rows[workspace].plan == Pro && s.rows[workspace].source == FromStripe
  }

  predicate FailsInvoice(s: State, t: Timed, workspace: Id) {
    InvoiceFor(s, t, workspace).Some? && InvoiceFor(s, t, workspace).value.InvoicePaymentFailed?
  }

  predicate PaysInvoice(s: State, t: Timed, workspace: Id) {
    InvoiceFor(s, t, workspace).Some? && InvoiceFor(s, t, workspace).value.InvoicePaid?
  }

  predicate Opens(column: Column, s: State, t: Timed, workspace: Id)
    requires workspace in s.rows
  {
    && Read(column, s.rows[workspace]).None?
    && if column.GraceEndsAt? then DropsToLaunch(s, t, workspace) else FailsInvoice(s, t, workspace)
  }

  function OpenedValue(column: Column, config: Config, t: Timed): Time {
    if column.GraceEndsAt? then t.now + GraceWindow(config) else t.now
  }

  predicate Clears(column: Column, s: State, t: Timed, workspace: Id) {
    AppliesRunning(s, t, workspace) || (column.PaymentFailedAt? && PaysInvoice(s, t, workspace))
  }

  lemma SubscriptionColumn(column: Column, config: Config, row: Row, sub: Subscription, now: Time)
    ensures Read(column, SubscriptionEffect(config, row, sub, now).row)
         == if !Ended(sub.status) then None
            else if column.GraceEndsAt? && row.graceEndsAt.None? && row.plan == Pro && row.source == FromStripe
              then Some(now + GraceWindow(config))
            else Read(column, row)
  {
  }

  // No step both opens and clears a column.
  lemma OpensOrClears(column: Column, s: State, t: Timed, workspace: Id)
    requires workspace in s.rows
    ensures !(Opens(column, s, t, workspace) && Clears(column, s, t, workspace))
  {
  }

  // The whole story of one step for either column: emptied exactly by a clearing step, filled
  // exactly by an opening one, and otherwise left as it was.
  lemma ColumnStep(column: Column, config: Config, s: State, t: Timed, workspace: Id)
    requires workspace in s.rows
    ensures workspace in Advance(config, s, t).rows
    ensures Read(column, Advance(config, s, t).rows[workspace])
         == if Clears(column, s, t, workspace) then None
            else if Opens(column, s, t, workspace) then Some(OpenedValue(column, config, t))
            else Read(column, s.rows[workspace])
  {
    StepIsLocal(config, s, t, workspace);
    EffectColumn(column, config, s, t, workspace);
  }

  lemma EffectColumn(column: Column, config: Config, s: State, t: Timed, workspace: Id)
    requires workspace in s.rows
    ensures Read(column, EffectOn(config, s, t, workspace).row)
         == if Clears(column, s, t, workspace) then None
            else if Opens(column, s, t, workspace) then Some(OpenedValue(column, config, t))
            else Read(column, s.rows[workspace])
  {
    var sub := AppliedTo(s, t, workspace);
    if sub.Some? {
      AppliedEffect(config, s, t, workspace);
      SubscriptionColumn(column, config, s.rows[workspace], sub.value, t.now);
      assert InvoiceFor(s, t, workspace).None?;
    } else if InvoiceFor(s, t, workspace).Some? {
      assert EffectOn(config, s, t, workspace).row
             == HandledOn(config, s.rows[workspace], t.step.event.body, workspace, t.now).row;
    } else {
      assert !Clears(column, s, t, workspace) && !Opens(column, s, t, workspace);
      if t.step.Delivered? {
        assert Read(column, EffectOn(config, s, t, workspace).row) == Read(column, s.rows[workspace]);
      }
    }
  }

  function Before(config: Config, s: State, steps: seq<Timed>, i: nat): State
    requires i <= |steps|
  {
    Run(config, s, steps[..i])
  }

  ghost predicate OpensAt(column: Column, config: Config, s: State, steps: seq<Timed>, workspace: Id, i: nat)
    requires workspace in s.rows && i < |steps|
  {
    RunKeepsWorkspaces(config, s, steps[..i]);
    Opens(column, Before(config, s, steps, i), steps[i], workspace)
  }

  ghost predicate ClearsAt(column: Column, config: Config, s: State, steps: seq<Timed>, workspace: Id, i: nat)
    requires i < |steps|
  {
    Clears(column, Before(config, s, steps, i), steps[i], workspace)
  }

  // `i` opened the column and nothing has cleared it since.
  ghost predicate OpenSince(column: Column, config: Config, s: State, steps: seq<Timed>, workspace: Id, i: nat)
    requires workspace in s.rows && i < |steps|
  {
    && OpensAt(column, config, s, steps, workspace, i)
    && forall k :: i < k < |steps| ==> !ClearsAt(column, config, s, steps, workspace, k)
  }

  lemma OpenSincePrefix(column: Column, config: Config, s: State, steps: seq<Timed>, workspace: Id, i: nat)
    requires workspace in s.rows && i < |steps| - 1
    ensures OpenSince(column, config, s, steps, workspace, i)
       <==> OpenSince(column, config, s, steps[..|steps| - 1], workspace, i)
            && !ClearsAt(column, config, s, steps, workspace, |steps| - 1)
  {
    var front := steps[..|steps| - 1];
    assert forall k :: 0 <= k <= |front| ==> front[..k] == steps[..k];
    assert forall k :: i < k < |front| ==>
      ClearsAt(column, config, s, front, workspace, k) == ClearsAt(column, config, s, steps, workspace, k);
  }

  // Some step of the run opened the column with `d` and nothing has cleared it since.
  ghost predicate Held(column: Column, config: Config, s: State, steps: seq<Timed>, workspace: Id, d: Time)
    requires workspace in s.rows
  {
    exists i: nat | i < |steps| ::
      OpenSince(column, config, s, steps, workspace, i) && d == OpenedValue(column, config, steps[i])
  }

  lemma HeldEarlier(column: Column, config: Config, s: State, steps: seq<Timed>, workspace: Id, d: Time)
    requires workspace in s.rows && steps != []
    requires Held(column, config, s, steps, workspace, d)
    requires !OpensAt(column, config, s, steps, workspace, |steps| - 1)
          || d != OpenedValue(column, config, steps[|steps| - 1])
    ensures Held(column, config, s, steps[..|steps| - 1], workspace, d)
    ensures !ClearsAt(column, config, s, steps, workspace, |steps| - 1)
  {
    var i: nat :| i < |steps| && OpenSince(column, config, s, steps, workspace, i)
                  && d == OpenedValue(column, config, steps[i]);
    OpenSincePrefix(column, config, s, steps, workspace, i);
    assert steps[..|steps| - 1][i] == steps[i];
  }

  lemma HeldStill(column: Column, config: Config, s: State, steps: seq<Timed>, workspace: Id, d: Time)
    requires workspace in s.rows && steps != []
    requires Held(column, config, s, steps[..|steps| - 1], workspace, d)
    requires !ClearsAt(column, config, s, steps, workspace, |steps| - 1)
    ensures Held(column, config, s, steps, workspace, d)
  {
    var front := steps[..|steps| - 1];
    var i: nat :| i < |front| && OpenSince(column, config, s, front, workspace, i)
                  && d == OpenedValue(column, config, front[i]);
    OpenSincePrefix(column, config, s, steps, workspace, i);
    assert front[i] == steps[i];
  }

  // After any run from an empty column, the column holds a value exactly when some step opened
  // it and no later step cleared it, and the value is the one that step gave it.
  lemma {:induction false} ColumnOrigin(column: Column, config: Config, s: State, steps: seq<Timed>, workspace: Id,
                                        d: Time)
    requires workspace in s.rows && Read(column, s.rows[workspace]).None?
    ensures Read(column, RowAfter(config, s, steps, workspace)) == Some(d)
       <==> Held(column, config, s, steps, workspace, d)
  {
    if steps != [] {
      var last := |steps| - 1;
      var before := Run(config, s, steps[..last]);
      RunKeepsWorkspaces(config, s, steps[..last]);
      ColumnOrigin(column, config, s, steps[..last], workspace, d);
      ColumnStep(column, config, before, steps[last], workspace);
      OpensOrClears(column, before, steps[last], workspace);
      if Held(column, config, s, steps, workspace, d)
         && !(OpensAt(column, config, s, steps, workspace, last) && d == OpenedValue(column, config, steps[last])) {
        HeldEarlier(column, config, s, steps, workspace, d);
      }
      if Held(column, config, s, steps[..last], workspace, d) && !ClearsAt(column, config, s, steps, workspace, last) {
        HeldStill(column, config, s, steps, workspace, d);
      }
      if OpensAt(column, config, s, steps, workspace, last) {
        assert OpenSince(column, config, s, steps, workspace, last);
      }
    }
  }

  // A value never changes into a different one: between two points of a run that hold different
  // values there is a point where the column is empty.
  lemma {:induction false} NeverSlides(column: Column, config: Config, s: State, steps: seq<Timed>, workspace: Id,
                                       i: nat, j: nat)
    requires workspace in s.rows && i <= j <= |steps|
    requires forall k :: i <= k <= j ==> Read(column, RowAfter(config, s, steps[..k], workspace)).Some?
    ensures Read(column, RowAfter(config, s, steps[..j], workspace))
            == Read(column, RowAfter(config, s, steps[..i], workspace))
    decreases j - i
  {
    if i < j {
      NeverSlides(column, config, s, steps, workspace, i, j - 1);
      assert steps[..j][..j - 1] == steps[..j - 1];
      RunKeepsWorkspaces(config, s, steps[..j - 1]);
      assert Read(column, RowAfter(config, s, steps[..j - 1], workspace)).Some?;
      ColumnStep(column, config, Run(config, s, steps[..j - 1]), steps[j - 1], workspace);
    }
  }
}
