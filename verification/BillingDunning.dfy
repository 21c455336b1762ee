/** Failed payments: what is recorded and mailed over a run, and when a retry is announced again. */
module BillingDunning {
  import opened Wrappers
  import opened BillingModel
  import opened BillingRuns
  import opened BillingDeadlines

  function FailureEntries(actions: seq<Action>): nat {
    if actions == [] then 0
    else FailureEntries(actions[..|actions| - 1]) + if actions[|actions| - 1].PaymentFailed? then 1 else 0
  }

  function FailureNotices(notices: seq<Notice>): nat {
    if notices == [] then 0
    else FailureNotices(notices[..|notices| - 1]) + if notices[|notices| - 1].PaymentFailedNotice? then 1 else 0
  }

  lemma {:induction false} FailureEntriesAppend(first: seq<Action>, second: seq<Action>)
    ensures FailureEntries(first + second) == FailureEntries(first) + FailureEntries(second)
    decreases |second|
  {
    if second == [] {
      assert first + second == first;
    } else {
      var all := first + second;
      assert all[..|all| - 1] == first + second[..|second| - 1];
      FailureEntriesAppend(first, second[..|second| - 1]);
    }
  }

  lemma {:induction false} FailureNoticesAppend(first: seq<Notice>, second: seq<Notice>)
    ensures FailureNotices(first + second) == FailureNotices(first) + FailureNotices(second)
    decreases |second|
  {
    if second == [] {
      assert first + second == first;
    } else {
      var all := first + second;
      assert all[..|all| - 1] == first + second[..|second| - 1];
      FailureNoticesAppend(first, second[..|second| - 1]);
    }
  }

  // 1 when the change takes payment_failed_at from null to set.
  function Newly(row: Row, after: Row): nat {
    if row.paymentFailedAt.None? && after.paymentFailedAt.Some? then 1 else 0
  }

  // How often the run took payment_failed_at from null to set.
  function Openings(config: Config, s: State, steps: seq<Timed>, workspace: Id): nat
    requires workspace in s.rows
  {
    if steps == [] then 0
    else
      var front := steps[..|steps| - 1];
      Openings(config, s, front, workspace)
      + Newly(RowAfter(config, s, front, workspace), RowAfter(config, s, steps, workspace))
  }

  // How often it did so in a step that got as far as its mail, with an owner to send it to.
  function Announced(config: Config, s: State, steps: seq<Timed>, workspace: Id): nat
    requires workspace in s.rows
  {
    if steps == [] then 0
    else
      var front := steps[..|steps| - 1];
      var row := RowAfter(config, s, front, workspace);
      Announced(config, s, front, workspace)
      + if row.ownerEmail.Some? && steps[|steps| - 1].reach == Everything then
          Newly(row, RowAfter(config, s, steps, workspace))
        else 0
  }

  // An effect records and announces a failure exactly when it sets payment_failed_at.
  predicate AnnouncesOpening(row: Row, effect: Effect) {
    && FailureEntries(effect.actions) == Newly(row, effect.row)
    && FailureNotices(effect.notices) == Newly(row, effect.row)
  }

  lemma {:induction false} NoFailureEntries(actions: seq<Action>)
    requires forall a :: a in actions ==> !a.PaymentFailed?
    ensures FailureEntries(actions) == 0
  {
    if actions != [] {
      NoFailureEntries(actions[..|actions| - 1]);
    }
  }

  lemma SubscriptionActionsAreNotFailures(row: Row, after: Row, sub: Subscription)
    ensures FailureEntries(SubscriptionActions(row, after, sub)) == 0
  {
    NoFailureEntries(SubscriptionActions(row, after, sub));
  }

  lemma SubscriptionAnnouncesNothing(config: Config, row: Row, sub: Subscription, now: Time)
    ensures AnnouncesOpening(row, SubscriptionEffect(config, row, sub, now))
  {
    if !Defended(row, sub) {
      var after := SubscriptionRow(config, row, sub, now);
      SubscriptionActionsAreNotFailures(row, after, sub);
      assert FailureNotices([PlanDowngradedNotice(after.graceEndsAt)]) == 0;
      assert after.paymentFailedAt.Some? ==> row.paymentFailedAt.Some?;
    }
  }

  lemma EventAnnouncesOpening(config: Config, row: Row, body: EventBody, workspace: Id, now: Time)
    ensures AnnouncesOpening(row, HandledOn(config, row, body, workspace, now))
  {
    if body.SubscriptionChanged? {
      SubscriptionAnnouncesNothing(config, row, body.changed, now);
    }
    var effect := HandledOn(config, row, body, workspace, now);
    assert |effect.actions| == 1 ==> effect.actions[..0] == [];
    assert |effect.notices| == 1 ==> effect.notices[..0] == [];
  }

  lemma StepAnnouncesOpening(config: Config, s: State, t: Timed, workspace: Id)
    requires workspace in s.rows
    ensures AnnouncesOpening(s.rows[workspace], CompleteOn(config, s, t, workspace))
  {
    if t.step.Delivered? {
      EventAnnouncesOpening(config, s.rows[workspace], t.step.event.body, workspace, t.now);
    } else if Aims(s, t.step, workspace).Some? {
      SubscriptionAnnouncesNothing(config, s.rows[workspace], Aims(s, t.step, workspace).value, t.now);
    }
  }

  // One step's entries and mail about failed payments.
  lemma {:induction false} OpeningIsCounted(config: Config, s: State, t: Timed, workspace: Id)
    requires workspace in s.rows
    ensures var after := Advance(config, s, t);
            && workspace in after.rows
            && var newly := Newly(s.rows[workspace], after.rows[workspace]);
               && FailureEntries(OwnActions(after.history, workspace))
                  == FailureEntries(OwnActions(s.history, workspace)) + newly
               && FailureNotices(OwnNotices(after.mails, workspace))
                  == FailureNotices(OwnNotices(s.mails, workspace))
                     + (if s.rows[workspace].ownerEmail.Some? && t.reach == Everything then newly else 0)
  {
    var effect := EffectOn(config, s, t, workspace);
    StepIsLocal(config, s, t, workspace);
    StepAnnouncesOpening(config, s, t, workspace);
    FailureEntriesAppend(OwnActions(s.history, workspace), effect.actions);
    FailureNoticesAppend(OwnNotices(s.mails, workspace), effect.notices);
    assert OwnNotices(s.mails, workspace) + [] == OwnNotices(s.mails, workspace);
  }

  // Over any run, billing_payment_failed is recorded once for every time payment_failed_at goes
  // from null to set, and the workspace is mailed once for every such time at which it had an owner
  // and the handler got as far as its mail.
  lemma {:induction false} DunningLedger(config: Config, s: State, steps: seq<Timed>, workspace: Id)
    requires workspace in s.rows
    ensures var after := Run(config, s, steps);
            && FailureEntries(OwnActions(after.history, workspace))
               == FailureEntries(OwnActions(s.history, workspace)) + Openings(config, s, steps, workspace)
            && FailureNotices(OwnNotices(after.mails, workspace))
               == FailureNotices(OwnNotices(s.mails, workspace)) + Announced(config, s, steps, workspace)
  {
    if steps != [] {
      var front := steps[..|steps| - 1];
      DunningLedger(config, s, front, workspace);
      RunKeepsWorkspaces(config, s, front);
      OpeningIsCounted(config, Run(config, s, front), steps[|steps| - 1], workspace);
    }
  }

  // Whether `t`, taken after `steps`, mails the owner about a failed payment.
  ghost predicate MailsFailure(config: Config, s: State, steps: seq<Timed>, t: Timed, workspace: Id) {
    FailureNotices(OwnNotices(Run(config, s, steps + [t]).mails, workspace))
    > FailureNotices(OwnNotices(Run(config, s, steps).mails, workspace))
  }

  ghost predicate FailsAt(config: Config, s: State, steps: seq<Timed>, workspace: Id, i: nat)
    requires i < |steps|
  {
    FailsInvoice(Before(config, s, steps, i), steps[i], workspace)
  }

  lemma {:induction false} FailureMailedStep(config: Config, s: State, t: Timed, workspace: Id)
    requires workspace in s.rows && FailsInvoice(s, t, workspace)
    ensures FailureNotices(OwnNotices(Advance(config, s, t).mails, workspace))
            > FailureNotices(OwnNotices(s.mails, workspace))
       <==> t.reach == Everything && s.rows[workspace].ownerEmail.Some? && s.rows[workspace].paymentFailedAt.None?
  {
    OpeningIsCounted(config, s, t, workspace);
    ColumnStep(PaymentFailedAt, config, s, t, workspace);
    OpensOrClears(PaymentFailedAt, s, t, workspace);
  }

  // A failed invoice is mailed about exactly when its handler gets as far as the mail, the workspace
  // has an owner, and no earlier failure is still open.
  lemma {:induction false} FailureMailedIff(config: Config, s: State, steps: seq<Timed>, t: Timed, workspace: Id)
    requires workspace in s.rows
    requires FailsInvoice(Run(config, s, steps), t, workspace)
    ensures MailsFailure(config, s, steps, t, workspace)
       <==> && t.reach == Everything && RowAfter(config, s, steps, workspace).ownerEmail.Some?
            && RowAfter(config, s, steps, workspace).paymentFailedAt.None?
  {
    assert (steps + [t])[..|steps|] == steps;
    RunKeepsWorkspaces(config, s, steps);
    FailureMailedStep(config, Run(config, s, steps), t, workspace);
  }

  // The retry after the run's last failure, with no invoice paid in between, is mailed about
  // again, if it gets as far as its mail and there is an owner, exactly when a subscription that
  // has not ended was applied in between: each customer.subscription.updated, past_due included,
  // empties payment_failed_at.
  lemma {:induction false} RetryMailedIff(config: Config, s: State, steps: seq<Timed>, i: nat, t: Timed, workspace: Id)
    requires workspace in s.rows && i < |steps|
    requires FailsAt(config, s, steps, workspace, i)
    requires forall k :: i < k < |steps| ==>
      !FailsAt(config, s, steps, workspace, k) && !PaysInvoice(Before(config, s, steps, k), steps[k], workspace)
    requires FailsInvoice(Run(config, s, steps), t, workspace)
    ensures MailsFailure(config, s, steps, t, workspace)
       <==> && t.reach == Everything && RowAfter(config, s, steps, workspace).ownerEmail.Some?
            && exists k :: i < k < |steps| && AppliesRunning(Before(config, s, steps, k), steps[k], workspace)
  {
    FailureMailedIff(config, s, steps, t, workspace);
    assert !PaysInvoice(Before(config, s, steps, i), steps[i], workspace);
    OpenUntilRunningApplied(config, s, steps, i, |steps|, workspace);
    assert steps[..|steps|] == steps;
  }

  // One step after a failure that is the latest: payment_failed_at stays as it is unless a
  // subscription that has not ended is applied.
  lemma {:induction false} QuietStep(config: Config, s: State, steps: seq<Timed>, j: nat, workspace: Id)
    requires workspace in s.rows && 0 < j <= |steps|
    requires !PaysInvoice(Before(config, s, steps, j - 1), steps[j - 1], workspace)
    ensures FailsAt(config, s, steps, workspace, j - 1) ==>
              RowAfter(config, s, steps[..j], workspace).paymentFailedAt.Some?
    ensures !FailsAt(config, s, steps, workspace, j - 1) ==>
      (RowAfter(config, s, steps[..j], workspace).paymentFailedAt.None?
       <==> || RowAfter(config, s, steps[..j - 1], workspace).paymentFailedAt.None?
            || AppliesRunning(Before(config, s, steps, j - 1), steps[j - 1], workspace))
  {
    var before := Before(config, s, steps, j - 1);
    RunKeepsWorkspaces(config, s, steps[..j - 1]);
    assert steps[..j][..j - 1] == steps[..j - 1];
    ColumnStep(PaymentFailedAt, config, before, steps[j - 1], workspace);
  }

  lemma {:induction false} OpenUntilRunningApplied(config: Config, s: State, steps: seq<Timed>, i: nat, j: nat,
                                                   workspace: Id)
    requires workspace in s.rows && i < j <= |steps|
    requires FailsAt(config, s, steps, workspace, i)
    requires forall k :: i <= k < j ==> !PaysInvoice(Before(config, s, steps, k), steps[k], workspace)
    requires forall k :: i < k < j ==> !FailsAt(config, s, steps, workspace, k)
    ensures RowAfter(config, s, steps[..j], workspace).paymentFailedAt.None?
       <==> exists k :: i < k < j && AppliesRunning(Before(config, s, steps, k), steps[k], workspace)
    decreases j
  {
    QuietStep(config, s, steps, j, workspace);
    if i < j - 1 {
      OpenUntilRunningApplied(config, s, steps, i, j - 1, workspace);
    }
  }

  lemma EventKeepsOwner(config: Config, row: Row, body: EventBody, workspace: Id, now: Time)
    ensures HandledOn(config, row, body, workspace, now).row.ownerEmail == row.ownerEmail
  {
  }

  lemma OwnerStays(config: Config, s: State, t: Timed, workspace: Id)
    requires workspace in s.rows && t.step.Delivered?
    ensures workspace in Advance(config, s, t).rows
    ensures Advance(config, s, t).rows[workspace].ownerEmail == s.rows[workspace].ownerEmail
  {
    StepIsLocal(config, s, t, workspace);
    EventKeepsOwner(config, s.rows[workspace], t.step.event.body, workspace, t.now);
  }

  lemma {:induction false} FailureMails(config: Config, s: State, t: Timed, workspace: Id)
    requires workspace in s.rows && s.rows[workspace].ownerEmail.Some? && s.rows[workspace].paymentFailedAt.None?
    requires FailsInvoice(s, t, workspace)
    ensures var after := Advance(config, s, t);
            && workspace in after.rows && after.rows[workspace].ownerEmail.Some?
            && after.rows[workspace].paymentFailedAt.Some?
            && FailureEntries(OwnActions(after.history, workspace))
               == FailureEntries(OwnActions(s.history, workspace)) + 1
            && FailureNotices(OwnNotices(after.mails, workspace))
               == FailureNotices(OwnNotices(s.mails, workspace)) + (if t.reach == Everything then 1 else 0)
  {
    OwnerStays(config, s, t, workspace);
    OpeningIsCounted(config, s, t, workspace);
    ColumnStep(PaymentFailedAt, config, s, t, workspace);
    OpensOrClears(PaymentFailedAt, s, t, workspace);
  }

  lemma {:induction false} RunningEmptiesDunning(config: Config, s: State, t: Timed, workspace: Id)
    requires workspace in s.rows && s.rows[workspace].ownerEmail.Some? && AppliesRunning(s, t, workspace)
    requires t.step.Delivered?
    ensures var after := Advance(config, s, t);
            && workspace in after.rows && after.rows[workspace].ownerEmail.Some?
            && after.rows[workspace].paymentFailedAt.None?
            && FailureNotices(OwnNotices(after.mails, workspace)) == FailureNotices(OwnNotices(s.mails, workspace))
  {
    OwnerStays(config, s, t, workspace);
    OpeningIsCounted(config, s, t, workspace);
    ColumnStep(PaymentFailedAt, config, s, t, workspace);
  }

  // The first failure is recorded and its handler then throws at the owner lookup; the retry finds
  // the failure open. The owner is never told, though there is one and two invoices failed.
  lemma {:induction false} UnmailedFailureStaysUnmailed(config: Config, s: State, ids: seq<Id>, invoice: Invoice,
                                                        workspace: Id)
    requires workspace in s.rows && s.rows[workspace].ownerEmail.Some? && s.rows[workspace].paymentFailedAt.None?
    requires |ids| == 2 && ids[0] != ids[1] && ids[0] !in s.processed && ids[1] !in s.processed
    requires InvoiceOrganization(invoice) == Some(workspace)
    ensures var first := At(1, Delivered(Event(ids[0], InvoicePaymentFailed(invoice))), Unmailed);
            var retry := At(2, Delivered(Event(ids[1], InvoicePaymentFailed(invoice))), Everything);
            var after := Advance(config, Advance(config, s, first), retry);
            && FailureEntries(OwnActions(after.history, workspace))
               == FailureEntries(OwnActions(s.history, workspace)) + 1
            && FailureNotices(OwnNotices(after.mails, workspace)) == FailureNotices(OwnNotices(s.mails, workspace))
  {
    var first := At(1, Delivered(Event(ids[0], InvoicePaymentFailed(invoice))), Unmailed);
    var retry := At(2, Delivered(Event(ids[1], InvoicePaymentFailed(invoice))), Everything);
    assert FailsInvoice(s, first, workspace);
    FailureMails(config, s, first, workspace);
    OpeningIsCounted(config, Advance(config, s, first), retry, workspace);
  }

  // A delivery that writes, of an event not seen before.
  lemma FreshFailure(s: State, t: Timed, invoice: Invoice, workspace: Id)
    requires t.step.Delivered? && t.reach != Nothing && t.step.event.id !in s.processed
    requires t.step.event.body == InvoicePaymentFailed(invoice) && InvoiceOrganization(invoice) == Some(workspace)
    ensures FailsInvoice(s, t, workspace)
  {
  }

  lemma FreshRunning(s: State, t: Timed, sub: Subscription, workspace: Id)
    requires t.step.Delivered? && t.reach != Nothing && t.step.event.id !in s.processed
    requires t.step.event.body == SubscriptionChanged(sub) && !Ended(sub.status) && sub.organization == Some(workspace)
    ensures AppliesRunning(s, t, workspace)
  {
  }

  // A workspace with an owner, with no failure open, that has been mailed about `n` of them.
  predicate Told(s: State, workspace: Id, n: nat) {
    && workspace in s.rows && s.rows[workspace].ownerEmail.Some? && s.rows[workspace].paymentFailedAt.None?
    && FailureNotices(OwnNotices(s.mails, workspace)) == n
  }

  // A delivery of an event not seen before, with nothing thrown.
  predicate Fresh(s: State, t: Timed) {
    t.step.Delivered? && t.reach == Everything && t.step.event.id !in s.processed
  }

  // A workspace with an owner that has been mailed about `n` failures.
  predicate Mailed(s: State, workspace: Id, n: nat) {
    workspace in s.rows && s.rows[workspace].ownerEmail.Some? && FailureNotices(OwnNotices(s.mails, workspace)) == n
  }

  lemma {:induction false} TellsFailure(config: Config, s: State, t: Timed, invoice: Invoice, workspace: Id, n: nat)
    requires Told(s, workspace, n) && Fresh(s, t)
    requires t.step.event.body == InvoicePaymentFailed(invoice) && InvoiceOrganization(invoice) == Some(workspace)
    ensures Mailed(Advance(config, s, t), workspace, n + 1)
    ensures Advance(config, s, t).processed == s.processed + {t.step.event.id}
  {
    FreshFailure(s, t, invoice, workspace);
    FailureMails(config, s, t, workspace);
    DeliveryMarks(config, s, t);
  }

  lemma {:induction false} PastDueTellsNothing(config: Config, s: State, t: Timed, sub: Subscription, workspace: Id,
                                               n: nat)
    requires Mailed(s, workspace, n) && Fresh(s, t)
    requires t.step.event.body == SubscriptionChanged(sub) && sub.status == PastDue
             && sub.organization == Some(workspace)
    ensures Told(Advance(config, s, t), workspace, n)
    ensures Advance(config, s, t).processed == s.processed + {t.step.event.id}
  {
    FreshRunning(s, t, sub, workspace);
    RunningEmptiesDunning(config, s, t, workspace);
    DeliveryMarks(config, s, t);
  }

  // One dunning cycle as Stripe runs it: the invoice fails, the subscription moves to past_due,
  // the retry fails. The owner is mailed twice, with no invoice paid in between.
  lemma {:induction false} PastDueMailsTwice(config: Config, s: State, ids: seq<Id>, sub: Subscription,
                                             invoice: Invoice, workspace: Id, n: nat)
    requires Told(s, workspace, n)
    requires |ids| == 3 && ids[0] != ids[1] && ids[0] != ids[2] && ids[1] != ids[2]
    requires ids[0] !in s.processed && ids[1] !in s.processed && ids[2] !in s.processed
    requires sub.status == PastDue && sub.organization == Some(workspace)
    requires InvoiceOrganization(invoice) == Some(workspace)
    ensures var failed := At(1, Delivered(Event(ids[0], InvoicePaymentFailed(invoice))), Everything);
            var changed := At(2, Delivered(Event(ids[1], SubscriptionChanged(sub))), Everything);
            var retried := At(3, Delivered(Event(ids[2], InvoicePaymentFailed(invoice))), Everything);
            Mailed(Advance(config, Advance(config, Advance(config, s, failed), changed), retried), workspace, n + 2)
  {
    var failed := At(1, Delivered(Event(ids[0], InvoicePaymentFailed(invoice))), Everything);
    var changed := At(2, Delivered(Event(ids[1], SubscriptionChanged(sub))), Everything);
    var retried := At(3, Delivered(Event(ids[2], InvoicePaymentFailed(invoice))), Everything);
    var s1 := Advance(config, s, failed);
    TellsFailure(config, s, failed, invoice, workspace, n);
    PastDueTellsNothing(config, s1, changed, sub, workspace, n + 1);
    TellsFailure(config, Advance(config, s1, changed), retried, invoice, workspace, n + 1);
  }
}
