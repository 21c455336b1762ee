/**
 What the history entries and the mail say: the cancellation mark over a run, what is recorded and
 mailed about a paid invoice, whom an entry names, and to whom a mail goes.
 */
module BillingEntries {
  import opened Wrappers
  import opened BillingModel
  import opened BillingRuns
  import opened BillingDeadlines
  import opened BillingLedger

  // ---------------------------------------------------------------------------------------
  // One subscription
  // ---------------------------------------------------------------------------------------

  // The object an entry is about.
  function About(action: Action): Option<Id> {
    match action
    case Upgraded(id) => Some(id)
    case Downgraded(id, _) => Some(id)
    case GrantExpired => None
    case CancelScheduled(id) => Some(id)
    case CancelReverted(id) => Some(id)
    case PaymentFailed(id) => Some(id)
    case PaymentSucceeded(id) => Some(id)
  }

  // What is recorded when a subscription is applied, read off the row before and the row after: an
  // entry for each of the four changes exactly when it was made, all of them about this
  // subscription, and a notice exactly when Pro was lost.
  lemma SubscriptionEntries(config: Config, row: Row, sub: Subscription, now: Time)
    ensures var effect := SubscriptionEffect(config, row, sub, now);
            var after := effect.row;
            && (forall action :: action in effect.actions ==> About(action) == Some(sub.id))
            && (Upgraded(sub.id) in effect.actions <==> row.plan == Launch && after.plan == Pro)
            && (Downgraded(sub.id, after.graceEndsAt) in effect.actions <==> row.plan == Pro && after.plan == Launch)
            && (CancelScheduled(sub.id) in effect.actions
                <==> after.plan == Pro && after.cancelAtPeriodEnd && !row.cancelAtPeriodEnd)
            && (CancelReverted(sub.id) in effect.actions
                <==> after.plan == Pro && !after.cancelAtPeriodEnd && row.cancelAtPeriodEnd)
            && effect.notices
               == (if row.plan == Pro && after.plan == Launch then [PlanDowngradedNotice(after.graceEndsAt)] else [])
  {
  }

  // ---------------------------------------------------------------------------------------
  // The cancellation mark
  // ---------------------------------------------------------------------------------------

  // The changes of the mark among `actions`, oldest first: true for a scheduled cancellation, false
  // for a reverted one.
  function MarkTrail(actions: seq<Action>): seq<bool> {
    if actions == [] then []
    else
      var last := actions[|actions| - 1];
      MarkTrail(actions[..|actions| - 1])
      + if last.CancelScheduled? then [true] else if last.CancelReverted? then [false] else []
  }

  lemma {:induction false} MarkTrailAppends(first: seq<Action>, second: seq<Action>)
    ensures MarkTrail(first + second) == MarkTrail(first) + MarkTrail(second)
    decreases |second|
  {
    if second == [] {
      assert first + second == first;
    } else {
      var all := first + second;
      assert all[..|all| - 1] == first + second[..|second| - 1];
      MarkTrailAppends(first, second[..|second| - 1]);
    }
  }

  lemma MarkTrailOfOne(a: Action)
    ensures MarkTrail([a]) == if a.CancelScheduled? then [true] else if a.CancelReverted? then [false] else []
  {
    assert [a][..0] == [];
  }

  // A handler records a change of the mark exactly when it leaves the workspace on Pro.
  predicate RecordsMark(row: Row, effect: Effect) {
    MarkTrail(effect.actions)
    == if row.cancelAtPeriodEnd == effect.row.cancelAtPeriodEnd || effect.row.plan == Launch then []
       else [effect.row.cancelAtPeriodEnd]
  }

  lemma SubscriptionRecordsMark(config: Config, row: Row, sub: Subscription, now: Time)
    ensures RecordsMark(row, SubscriptionEffect(config, row, sub, now))
  {
    var actions := SubscriptionEffect(config, row, sub, now).actions;
    if |actions| == 2 {
      assert actions == [actions[0]] + [actions[1]];
      MarkTrailAppends([actions[0]], [actions[1]]);
      MarkTrailOfOne(actions[1]);
    }
    if |actions| > 0 {
      MarkTrailOfOne(actions[0]);
      assert |actions| == 1 ==> actions == [actions[0]];
    }
  }

  lemma EventRecordsMark(config: Config, row: Row, body: EventBody, workspace: Id, now: Time)
    ensures RecordsMark(row, HandledOn(config, row, body, workspace, now))
  {
    if body.SubscriptionChanged? {
      SubscriptionRecordsMark(config, row, body.changed, now);
    }
    var actions := HandledOn(config, row, body, workspace, now).actions;
    if |actions| == 1 {
      MarkTrailOfOne(actions[0]);
      assert actions == [actions[0]];
    }
  }

  lemma DirectRecordsMark(row: Row, step: Step, now: Time)
    requires !step.Delivered? && !step.DriftChecked? && !step.ListApplied?
    ensures RecordsMark(row, DirectWrite(row, step, now))
  {
    MarkTrailOfOne(GrantExpired);
  }

  lemma StepRecordsMark(config: Config, s: State, t: Timed, workspace: Id)
    requires workspace in s.rows
    ensures RecordsMark(s.rows[workspace], EffectOn(config, s, t, workspace))
  {
    if t.step.Delivered? {
      EventRecordsMark(config, s.rows[workspace], t.step.event.body, workspace, t.now);
    } else if AppliedTo(s, t, workspace).Some? {
      AppliedEffect(config, s, t, workspace);
      SubscriptionRecordsMark(config, s.rows[workspace], AppliedTo(s, t, workspace).value, t.now);
    } else if !t.step.DriftChecked? && !t.step.ListApplied? {
      DirectRecordsMark(s.rows[workspace], t.step, t.now);
    }
  }

  function Marked(row: Row): int {
    if row.cancelAtPeriodEnd then 1 else 0
  }

  // What a step changes of the mark without recording it: the change it makes on Launch.
  function Unrecorded(row: Row, after: Row): int {
    if after.plan == Launch then Marked(after) - Marked(row) else 0
  }

  function UnrecordedMarks(config: Config, s: State, steps: seq<Timed>, workspace: Id): int
    requires workspace in s.rows
  {
    if steps == [] then 0
    else
      var front := steps[..|steps| - 1];
      UnrecordedMarks(config, s, front, workspace)
      + Unrecorded(RowAfter(config, s, front, workspace), RowAfter(config, s, steps, workspace))
  }

  function MarksIn(history: seq<Entry>, workspace: Id): seq<bool> {
    MarkTrail(OwnActions(history, workspace))
  }

  function NetMarks(trail: seq<bool>): int {
    Count(trail, true) - Count(trail, false)
  }

  lemma NetOfOneMore(trail: seq<bool>, kind: bool)
    ensures NetMarks(trail + [kind]) == NetMarks(trail) + if kind then 1 else -1
  {
    assert (trail + [kind])[..|trail|] == trail;
  }

  lemma MarkStep(config: Config, s: State, t: Timed, workspace: Id)
    requires workspace in s.rows
    ensures var after := Advance(config, s, t);
            && workspace in after.rows
            && var row, next := s.rows[workspace], after.rows[workspace];
               MarksIn(after.history, workspace)
               == MarksIn(s.history, workspace)
                  + if row.cancelAtPeriodEnd == next.cancelAtPeriodEnd || next.plan == Launch then []
                    else [next.cancelAtPeriodEnd]
  {
    StepIsLocal(config, s, t, workspace);
    StepRecordsMark(config, s, t, workspace);
    MarkTrailAppends(OwnActions(s.history, workspace), EffectOn(config, s, t, workspace).actions);
  }

  lemma MarkStepCounts(config: Config, s: State, t: Timed, workspace: Id)
    requires workspace in s.rows
    ensures var after := Advance(config, s, t);
            && workspace in after.rows
            && NetMarks(MarksIn(after.history, workspace)) - Marked(after.rows[workspace])
               == NetMarks(MarksIn(s.history, workspace)) - Marked(s.rows[workspace])
                  - Unrecorded(s.rows[workspace], after.rows[workspace])
  {
    MarkStep(config, s, t, workspace);
    var trail := MarksIn(s.history, workspace);
    NetOfOneMore(trail, Advance(config, s, t).rows[workspace].cancelAtPeriodEnd);
    assert trail + [] == trail;
  }

  // Over every run: scheduled less reverted cancellations recorded are the change of the mark, less
  // what ended subscriptions changed of it without a word.
  lemma {:induction false} MarkLedger(config: Config, s: State, steps: seq<Timed>, workspace: Id)
    requires workspace in s.rows
    ensures var after := Run(config, s, steps);
            NetMarks(MarksIn(after.history, workspace)) - NetMarks(MarksIn(s.history, workspace))
            == Marked(RowAfter(config, s, steps, workspace)) - Marked(s.rows[workspace])
               - UnrecordedMarks(config, s, steps, workspace)
  {
    if steps != [] {
      var front := steps[..|steps| - 1];
      MarkLedger(config, s, front, workspace);
      RunKeepsWorkspaces(config, s, front);
      MarkStepCounts(config, Run(config, s, front), steps[|steps| - 1], workspace);
    }
  }

  // The trail alternates, beginning with a scheduled cancellation, and its last entry is the mark.
  predicate InStep(s: State, workspace: Id) {
    && workspace in s.rows
    && Alternates(MarksIn(s.history, workspace))
    && (|MarksIn(s.history, workspace)| % 2 == 1 <==> s.rows[workspace].cancelAtPeriodEnd)
  }

  ghost predicate SilentAt(config: Config, s: State, steps: seq<Timed>, workspace: Id, k: nat)
    requires workspace in s.rows && k < |steps|
  {
    Unrecorded(RowAfter(config, s, steps[..k], workspace), RowAfter(config, s, steps[..k + 1], workspace)) != 0
  }

  lemma MarkAdded(trail: seq<bool>, was: bool, marked: bool, recorded: bool)
    requires Alternates(trail) && (|trail| % 2 == 1 <==> was)
    ensures var grown := trail + if was == marked || !recorded then [] else [marked];
            Alternates(grown) && (|grown| % 2 == 1 <==> marked) <==> was == marked || recorded
  {
    assert trail + [] == trail;
  }

  lemma StepKeepsInStep(config: Config, s: State, t: Timed, workspace: Id)
    requires InStep(s, workspace)
    ensures workspace in Advance(config, s, t).rows
    ensures Unrecorded(s.rows[workspace], Advance(config, s, t).rows[workspace]) == 0
       <==> InStep(Advance(config, s, t), workspace)
  {
    MarkStep(config, s, t, workspace);
    var next := Advance(config, s, t).rows[workspace];
    MarkAdded(MarksIn(s.history, workspace), s.rows[workspace].cancelAtPeriodEnd, next.cancelAtPeriodEnd,
              next.plan == Pro);
    assert next.plan == Launch || next.plan == Pro;
  }

  // As long as no ended subscription changes the mark, scheduled and reverted cancellations
  // alternate with it; the first one that does puts the trail out of step.
  lemma {:induction false} MarksAlternate(config: Config, s: State, steps: seq<Timed>, workspace: Id)
    requires InStep(s, workspace)
    requires forall k :: 0 <= k < |steps| - 1 ==> !SilentAt(config, s, steps, workspace, k)
    ensures InStep(Run(config, s, steps), workspace)
       <==> steps == [] || !SilentAt(config, s, steps, workspace, |steps| - 1)
  {
    if steps != [] {
      var last := |steps| - 1;
      var front := steps[..last];
      assert forall k :: 0 <= k <= last ==> front[..k] == steps[..k];
      forall k | 0 <= k < last
        ensures SilentAt(config, s, front, workspace, k) == SilentAt(config, s, steps, workspace, k)
      {
        assert front[..k] == steps[..k] && front[..k + 1] == steps[..k + 1];
      }
      MarksAlternate(config, s, front, workspace);
      RunKeepsWorkspaces(config, s, front);
      assert steps[..last + 1] == steps;
      StepKeepsInStep(config, Run(config, s, front), steps[last], workspace);
    }
  }

  // At an input: a cancellation scheduled on Pro, whose subscription then ends unmarked. The mark is
  // gone and nothing says it was reverted.
  lemma EndUnmarksSilently(config: Config, row: Row, sub: Subscription, now: Time)
    requires row.plan == Pro && row.source == FromStripe && row.cancelAtPeriodEnd
    requires sub.status == Canceled && !sub.cancelAtPeriodEnd
    ensures var effect := SubscriptionEffect(config, row, sub, now);
            !effect.row.cancelAtPeriodEnd && CancelReverted(sub.id) !in effect.actions
              && Unrecorded(row, effect.row) == -1
  {
    SubscriptionEntries(config, row, sub, now);
  }

  // ---------------------------------------------------------------------------------------
  // Paid invoices
  // ---------------------------------------------------------------------------------------

  // The invoice names the workspace, or names none and the customer's workspace is this one.
  predicate Concerns(invoice: Invoice, workspace: Id) {
    invoice.fromMetadata == Some(workspace) || (invoice.fromMetadata.None? && invoice.byCustomer == Some(workspace))
  }

  // A paid invoice delivered for the first time closes an open failure, is recorded once, by its own
  // id, and receipted once if it has an owner to go to, for the one workspace it concerns; and does
  // nothing to any other.
  lemma PaidInvoiceRecorded(config: Config, s: State, event: Event, invoice: Invoice, now: Time, reach: Reach,
                            workspace: Id)
    requires workspace in s.rows && event.body == InvoicePaid(invoice) && event.id !in s.processed && reach != Nothing
    ensures var after := Advance(config, s, At(now, Delivered(event), reach));
            var row, mine := s.rows[workspace], Concerns(invoice, workspace);
            && workspace in after.rows
            && after.rows[workspace] == (if mine then row.(paymentFailedAt := None) else row)
            && OwnActions(after.history, workspace)
               == OwnActions(s.history, workspace) + (if mine then [PaymentSucceeded(invoice.id)] else [])
            && OwnNotices(after.mails, workspace)
               == OwnNotices(s.mails, workspace)
                  + (if mine && row.ownerEmail.Some? && reach == Everything then [PaymentSucceededNotice] else [])
  {
    StepIsLocal(config, s, At(now, Delivered(event), reach), workspace);
  }

  // A failed one: recorded by its own id, for the same workspace, unless a failure is open already.
  lemma FailedInvoiceRecorded(config: Config, s: State, event: Event, invoice: Invoice, now: Time, reach: Reach,
                              workspace: Id)
    requires workspace in s.rows && event.body == InvoicePaymentFailed(invoice) && event.id !in s.processed
    requires reach != Nothing
    ensures var after := Advance(config, s, At(now, Delivered(event), reach));
            var row := s.rows[workspace];
            var opens := Concerns(invoice, workspace) && row.paymentFailedAt.None?;
            && workspace in after.rows
            && after.rows[workspace] == (if opens then row.(paymentFailedAt := Some(now)) else row)
            && OwnActions(after.history, workspace)
               == OwnActions(s.history, workspace) + (if opens then [PaymentFailed(invoice.id)] else [])
            && OwnNotices(after.mails, workspace)
               == OwnNotices(s.mails, workspace)
                  + (if opens && row.ownerEmail.Some? && reach == Everything then [PaymentFailedNotice] else [])
  {
    StepIsLocal(config, s, At(now, Delivered(event), reach), workspace);
  }

  // ---------------------------------------------------------------------------------------
  // Addresses
  // ---------------------------------------------------------------------------------------

  // `after` has only added mail, each addressed to the owner its workspace then had.
  predicate OnlyToOwners(s: State, after: State) {
    && s.mails <= after.mails
    && forall k :: |s.mails| <= k < |after.mails| ==>
         var mail := after.mails[k];
         mail.organization in s.rows && s.rows[mail.organization].ownerEmail == Some(mail.to)
  }

  lemma CommitMailsOwner(s: State, workspace: Id, effect: Effect)
    requires workspace in s.rows
    ensures OnlyToOwners(s, Commit(s, workspace, effect))
  {
  }

  // No step mails anybody but the owner, as of that step, of the workspace the mail is about.
  lemma MailGoesToOwner(config: Config, s: State, t: Timed)
    ensures OnlyToOwners(s, Advance(config, s, t))
  {
    var marked := if t.step.Delivered? then s.(processed := s.processed + {t.step.event.id}) else s;
    forall workspace, effect | workspace in s.rows
      ensures OnlyToOwners(marked, Commit(marked, workspace, effect))
    {
      CommitMailsOwner(marked, workspace, effect);
    }
  }
}
