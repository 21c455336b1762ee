/**
 Runs of the billing lifecycle: any interleaving of webhook deliveries, drift checks,
 post-checkout reconciles, the other writes to the row, and operator changes, each at its own
 time. A step may fail before its first write, or after its writes and before its mail; nothing
 is assumed about the order or repetition of deliveries.
 */
module BillingRuns {
  import opened Wrappers
  import opened BillingModel

  datatype Step =
    | Delivered(event: Event)
    | DriftChecked(workspace: Id, world: World)
    | ListApplied(workspace: Id, world: World)
    | CustomerIssued(workspace: Id, customer: Id)
    | CurrencyMirrored(workspace: Id, currency: Currency)
    | GraceNoticeClaimed(workspace: Id)
    | OperatorSetsPlan(workspace: Id, plan: Plan, override: Override)
    | GrantExpires(workspace: Id)
    | OwnerChanges(workspace: Id, ownerEmail: Option<string>)

  // How far a step gets: it may throw before its first write, or between its writes and its mail,
  // where the owner is looked up. A delivery has recorded its event id in either case.
  datatype Reach = Nothing | Unmailed | Everything

  datatype Timed = At(now: Time, step: Step, reach: Reach)

  // The writes to the row that do not come from a Stripe object.
  function DirectWrite(row: Row, step: Step, now: Time): Effect
    requires !step.Delivered? && !step.DriftChecked? && !step.ListApplied?
  {
    match step
    case CustomerIssued(_, customer) => Effect(row.(customer := Some(customer), billingCurrency := None), [], [])
    case CurrencyMirrored(_, currency) => Effect(row.(billingCurrency := Some(currency)), [], [])
    case GraceNoticeClaimed(_) =>
      if row.plan == Launch && row.graceEndsAt.Some? && row.graceLockedNotifiedAt.None? then
        Effect(row.(graceLockedNotifiedAt := Some(now)), [], [])
      else Effect(row, [], [])
    case OperatorSetsPlan(_, plan, override) =>
      Effect(row.(plan := plan, source := FromAdmin, override := override), [], [])
    case GrantExpires(_) =>
      if row.source == FromAdmin && row.override.expiresAt.Some? && row.override.expiresAt.value <= now then
        Effect(row.(plan := Launch, source := FromStripe, override := NO_OVERRIDE), [GrantExpired], [])
      else Effect(row, [], [])
    case OwnerChanges(_, ownerEmail) => Effect(row.(ownerEmail := ownerEmail), [], [])
  }

  // The step with nothing thrown.
  function Complete(config: Config, s: State, t: Timed): State {
    match t.step
    case Delivered(event) => Deliver(config, s, event, t.now)
    case DriftChecked(workspace, world) => DriftCheck(config, s, workspace, world, t.now)
    case ListApplied(workspace, world) => ApplyListed(config, s, workspace, world, t.now)
    case _ =>
      if t.step.workspace in s.rows then
        Commit(s, t.step.workspace, DirectWrite(s.rows[t.step.workspace], t.step, t.now))
      else s
  }

  function Advance(config: Config, s: State, t: Timed): State {
    match t.reach
    case Nothing => if t.step.Delivered? then s.(processed := s.processed + {t.step.event.id}) else s
    case Unmailed => Complete(config, s, t).(mails := s.mails)
    case Everything => Complete(config, s, t)
  }

  function Run(config: Config, s: State, steps: seq<Timed>): State {
    if steps == [] then s
    else Advance(config, Run(config, s, steps[..|steps| - 1]), steps[|steps| - 1])
  }

  // ---------------------------------------------------------------------------------------
  // One workspace's view of a step
  // ---------------------------------------------------------------------------------------

  function OwnActions(history: seq<Entry>, workspace: Id): seq<Action> {
    if history == [] then []
    else
      var last := history[|history| - 1];
      OwnActions(history[..|history| - 1], workspace)
      + if last.organization == workspace then [last.action] else []
  }

  function OwnNotices(mails: seq<Mail>, workspace: Id): seq<Notice> {
    if mails == [] then []
    else
      var last := mails[|mails| - 1];
      OwnNotices(mails[..|mails| - 1], workspace)
      + if last.organization == workspace then [last.notice] else []
  }

  lemma OwnActionsOfMore(history: seq<Entry>, entry: Entry, workspace: Id)
    ensures OwnActions(history + [entry], workspace)
         == OwnActions(history, workspace) + if entry.organization == workspace then [entry.action] else []
  {
    assert (history + [entry])[..|history|] == history;
  }

  lemma OwnNoticesOfMore(mails: seq<Mail>, mail: Mail, workspace: Id)
    ensures OwnNotices(mails + [mail], workspace)
         == OwnNotices(mails, workspace) + if mail.organization == workspace then [mail.notice] else []
  {
    assert (mails + [mail])[..|mails|] == mails;
  }

  lemma OneMoreEntry(history: seq<Entry>, target: Id, actions: seq<Action>, last: Action)
    ensures history + Entries(target, actions + [last]) == history + Entries(target, actions) + [Entry(target, last)]
  {
  }

  lemma OneMoreMail(mails: seq<Mail>, target: Id, row: Row, notices: seq<Notice>, last: Notice)
    requires row.ownerEmail.Some?
    ensures mails + Addressed(target, row, notices + [last])
         == mails + Addressed(target, row, notices) + [Mail(target, row.ownerEmail.value, last)]
  {
  }

  lemma {:induction false} OwnActionsOfEntries(history: seq<Entry>, target: Id, actions: seq<Action>, workspace: Id)
    ensures OwnActions(history + Entries(target, actions), workspace)
         == OwnActions(history, workspace) + if target == workspace then actions else []
    decreases |actions|
  {
    if actions == [] {
      assert history + Entries(target, actions) == history;
    } else {
      var front, last := actions[..|actions| - 1], actions[|actions| - 1];
      assert actions == front + [last];
      OwnActionsOfEntries(history, target, front, workspace);
      OneMoreEntry(history, target, front, last);
      OwnActionsOfMore(history + Entries(target, front), Entry(target, last), workspace);
    }
  }

  lemma {:induction false} OwnNoticesOfMail(mails: seq<Mail>, target: Id, row: Row, notices: seq<Notice>, workspace: Id)
    ensures OwnNotices(mails + Addressed(target, row, notices), workspace)
         == OwnNotices(mails, workspace)
            + if target == workspace && row.ownerEmail.Some? then notices else []
    decreases |notices|
  {
    if notices == [] || row.ownerEmail.None? {
      assert mails + Addressed(target, row, notices) == mails;
    } else {
      var front, last := notices[..|notices| - 1], notices[|notices| - 1];
      assert notices == front + [last];
      OwnNoticesOfMail(mails, target, row, front, workspace);
      OneMoreMail(mails, target, row, front, last);
      OwnNoticesOfMore(mails + Addressed(target, row, front), Mail(target, row.ownerEmail.value, last), workspace);
    }
  }

  // The subscription a step is about to apply to this workspace, if any.
  function Aims(s: State, step: Step, workspace: Id): Option<Subscription> {
    var candidate :=
      match step
      case Delivered(event) =>
        if event.id !in s.processed && event.body.SubscriptionChanged? then Some(event.body.changed) else None
      case DriftChecked(checked, world) =>
        if checked !in s.rows then None
        else
          var choice := DriftChoice(s.rows[checked], world);
          if choice.Some? then Some(Routed(choice.value, checked)) else None
      case ListApplied(checked, world) =>
        if checked !in s.rows then None
        else
          var choice := ListedChoice(s.rows[checked], world);
          if choice.Some? then Some(Routed(choice.value, checked)) else None
      case _ => None;
    if candidate.Some? && candidate.value.organization == Some(workspace) then candidate else None
  }

  // The subscription a step applies to this workspace, if it applies one.
  function AppliedTo(s: State, t: Timed, workspace: Id): Option<Subscription> {
    if t.reach == Nothing then None else Aims(s, t.step, workspace)
  }

  // The step delivers an event not seen before, and gets as far as writing.
  predicate Handles(s: State, t: Timed) {
    t.step.Delivered? && t.reach != Nothing && t.step.event.id !in s.processed
  }

  // The invoice event a step newly handles for this workspace, if any.
  function InvoiceFor(s: State, t: Timed, workspace: Id): Option<EventBody> {
    if Handles(s, t) then
      var body := t.step.event.body;
      if body.InvoicePaymentFailed? && InvoiceOrganization(body.failed) == Some(workspace) then Some(body)
      else if body.InvoicePaid? && InvoiceOrganization(body.paid) == Some(workspace) then Some(body)
      else None
    else None
  }

  // The subscription id of a checkout a step newly completes for this workspace, if any.
  function CheckoutFor(s: State, t: Timed, workspace: Id): Option<Id> {
    if Handles(s, t)
       && t.step.event.body.CheckoutCompleted? && t.step.event.body.organization == Some(workspace)
    then t.step.event.body.subscription
    else None
  }

  predicate ByOperator(t: Timed, workspace: Id) {
    (t.step.OperatorSetsPlan? || t.step.GrantExpires?) && t.step.workspace == workspace
  }

  // What handling one event body does to this workspace.
  function HandledOn(config: Config, row: Row, body: EventBody, workspace: Id, now: Time): Effect {
    match body
    case CheckoutCompleted(organization, subscription) =>
      if organization == Some(workspace) && subscription.Some? then CheckoutEffect(row, subscription.value)
      else Effect(row, [], [])
    case SubscriptionChanged(sub) =>
      if sub.organization == Some(workspace) then SubscriptionEffect(config, row, sub, now) else Effect(row, [], [])
    case InvoicePaymentFailed(invoice) =>
      if InvoiceOrganization(invoice) == Some(workspace) then PaymentFailedEffect(row, invoice, now)
      else Effect(row, [], [])
    case InvoicePaid(invoice) =>
      if InvoiceOrganization(invoice) == Some(workspace) then PaymentSucceededEffect(row, invoice)
      else Effect(row, [], [])
    case OtherEvent => Effect(row, [], [])
  }

  // What a subscription found for workspace `checked` does to this workspace.
  function FoundOn(config: Config, row: Row, found: Option<Subscription>, checked: Id, workspace: Id,
                   now: Time): Effect
  {
    if found.Some? && Routed(found.value, checked).organization == Some(workspace) then
      SubscriptionEffect(config, row, Routed(found.value, checked), now)
    else Effect(row, [], [])
  }

  // What a step does to this workspace when nothing is thrown.
  function CompleteOn(config: Config, s: State, t: Timed, workspace: Id): Effect
    requires workspace in s.rows
  {
    var row := s.rows[workspace];
    match t.step
    case Delivered(event) =>
      if event.id in s.processed then Effect(row, [], []) else HandledOn(config, row, event.body, workspace, t.now)
    case DriftChecked(checked, world) =>
      if checked !in s.rows then Effect(row, [], [])
      else FoundOn(config, row, DriftChoice(s.rows[checked], world), checked, workspace, t.now)
    case ListApplied(checked, world) =>
      if checked !in s.rows then Effect(row, [], [])
      else FoundOn(config, row, ListedChoice(s.rows[checked], world), checked, workspace, t.now)
    case _ => if t.step.workspace == workspace then DirectWrite(row, t.step, t.now) else Effect(row, [], [])
  }

  // What is left of an effect when the step gets no further.
  function Cut(row: Row, effect: Effect, reach: Reach): Effect {
    match reach
    case Nothing => Effect(row, [], [])
    case Unmailed => effect.(notices := [])
    case Everything => effect
  }

  function EffectOn(config: Config, s: State, t: Timed, workspace: Id): Effect
    requires workspace in s.rows
  {
    Cut(s.rows[workspace], CompleteOn(config, s, t, workspace), t.reach)
  }

  // `after` differs from `s`, as far as `workspace` is concerned, by `effect` and nothing else.
  predicate ChangedBy(s: State, after: State, workspace: Id, effect: Effect)
    requires workspace in s.rows
  {
    && after.rows.Keys == s.rows.Keys
    && after.rows[workspace] == effect.row
    && OwnActions(after.history, workspace) == OwnActions(s.history, workspace) + effect.actions
    && OwnNotices(after.mails, workspace)
       == OwnNotices(s.mails, workspace) + if s.rows[workspace].ownerEmail.Some? then effect.notices else []
  }

  lemma CommitIsLocal(s: State, target: Id, effect: Effect, workspace: Id)
    requires target in s.rows && workspace in s.rows
    ensures ChangedBy(s, Commit(s, target, effect), workspace,
                      if target == workspace then effect else Effect(s.rows[workspace], [], []))
  {
    OwnActionsOfEntries(s.history, target, effect.actions, workspace);
    OwnNoticesOfMail(s.mails, target, s.rows[target], effect.notices, workspace);
  }

  lemma ApplyIsLocal(config: Config, s: State, sub: Subscription, now: Time, workspace: Id)
    requires workspace in s.rows
    ensures ChangedBy(s, ApplySubscription(config, s, sub, now), workspace,
                      if sub.organization == Some(workspace) then
                        SubscriptionEffect(config, s.rows[workspace], sub, now)
                      else Effect(s.rows[workspace], [], []))
  {
    if sub.organization.Some? && sub.organization.value in s.rows {
      var target := sub.organization.value;
      CommitIsLocal(s, target, SubscriptionEffect(config, s.rows[target], sub, now), workspace);
    }
  }

  lemma HandleIsLocal(config: Config, s: State, body: EventBody, now: Time, workspace: Id)
    requires workspace in s.rows
    ensures ChangedBy(s, Handle(config, s, body, now), workspace,
                      HandledOn(config, s.rows[workspace], body, workspace, now))
  {
    match body
    case CheckoutCompleted(organization, subscription) =>
      if organization.Some? && subscription.Some? && organization.value in s.rows {
        CommitIsLocal(s, organization.value, CheckoutEffect(s.rows[organization.value], subscription.value), workspace);
      }
    case SubscriptionChanged(sub) => ApplyIsLocal(config, s, sub, now, workspace);
    case InvoicePaymentFailed(invoice) =>
      var target := InvoiceOrganization(invoice);
      if target.Some? && target.value in s.rows {
        CommitIsLocal(s, target.value, PaymentFailedEffect(s.rows[target.value], invoice, now), workspace);
      }
    case InvoicePaid(invoice) =>
      var target := InvoiceOrganization(invoice);
      if target.Some? && target.value in s.rows {
        CommitIsLocal(s, target.value, PaymentSucceededEffect(s.rows[target.value], invoice), workspace);
      }
    case OtherEvent =>
  }

  lemma DeliverIsLocal(config: Config, s: State, event: Event, now: Time, workspace: Id)
    requires workspace in s.rows
    ensures ChangedBy(s, Deliver(config, s, event, now), workspace,
                      if event.id in s.processed then Effect(s.rows[workspace], [], [])
                      else HandledOn(config, s.rows[workspace], event.body, workspace, now))
  {
    if event.id !in s.processed {
      HandleIsLocal(config, s.(processed := s.processed + {event.id}), event.body, now, workspace);
    }
  }

  // A drift check changes the workspace its subscription names, whichever it was run for, by
  // exactly that subscription's effect, and every other not at all.
  lemma DriftIsLocal(config: Config, s: State, checked: Id, world: World, now: Time, workspace: Id)
    requires workspace in s.rows && checked in s.rows
    ensures ChangedBy(s, DriftCheck(config, s, checked, world, now), workspace,
                      FoundOn(config, s.rows[workspace], DriftChoice(s.rows[checked], world), checked, workspace, now))
  {
    var found := DriftChoice(s.rows[checked], world);
    if found.Some? {
      ApplyIsLocal(config, s, Routed(found.value, checked), now, workspace);
    }
  }

  lemma ListedIsLocal(config: Config, s: State, checked: Id, world: World, now: Time, workspace: Id)
    requires workspace in s.rows && checked in s.rows
    ensures ChangedBy(s, ApplyListed(config, s, checked, world, now), workspace,
                      FoundOn(config, s.rows[workspace], ListedChoice(s.rows[checked], world), checked, workspace, now))
  {
    var found := ListedChoice(s.rows[checked], world);
    if found.Some? {
      ApplyIsLocal(config, s, Routed(found.value, checked), now, workspace);
    }
  }

  lemma CompleteIsLocal(config: Config, s: State, t: Timed, workspace: Id)
    requires workspace in s.rows
    ensures ChangedBy(s, Complete(config, s, t), workspace, CompleteOn(config, s, t, workspace))
  {
    match t.step
    case Delivered(event) => DeliverIsLocal(config, s, event, t.now, workspace);
    case DriftChecked(checked, world) =>
      if checked in s.rows {
        DriftIsLocal(config, s, checked, world, t.now, workspace);
      }
    case ListApplied(checked, world) =>
      if checked in s.rows {
        ListedIsLocal(config, s, checked, world, t.now, workspace);
      }
    case _ =>
      if t.step.workspace in s.rows {
        CommitIsLocal(s, t.step.workspace, DirectWrite(s.rows[t.step.workspace], t.step, t.now), workspace);
      }
  }

  // Every step changes a workspace by exactly its effect on that workspace: its row, its
  // history and its mail. No step reaches a workspace it is not addressed to.
  lemma StepIsLocal(config: Config, s: State, t: Timed, workspace: Id)
    requires workspace in s.rows
    ensures ChangedBy(s, Advance(config, s, t), workspace, EffectOn(config, s, t, workspace))
  {
    if t.reach != Nothing {
      CompleteIsLocal(config, s, t, workspace);
    }
  }

  lemma {:induction false} RunKeepsWorkspaces(config: Config, s: State, steps: seq<Timed>)
    ensures Run(config, s, steps).rows.Keys == s.rows.Keys
  {
    if steps != [] {
      var before := Run(config, s, steps[..|steps| - 1]);
      RunKeepsWorkspaces(config, s, steps[..|steps| - 1]);
      if before.rows.Keys != {} {
        var workspace :| workspace in before.rows.Keys;
        StepIsLocal(config, before, steps[|steps| - 1], workspace);
      }
    }
  }

  // The workspace's row after a run.
  function RowAfter(config: Config, s: State, steps: seq<Timed>, workspace: Id): Row
    requires workspace in s.rows
  {
    RunKeepsWorkspaces(config, s, steps);
    Run(config, s, steps).rows[workspace]
  }

  lemma RunOfThree(config: Config, s: State, steps: seq<Timed>)
    requires |steps| == 3
    ensures Run(config, s, steps) == Advance(config, Advance(config, Advance(config, s, steps[0]), steps[1]), steps[2])
  {
    assert steps[..2][..1] == steps[..1] && steps[..1][..0] == [];
    assert Run(config, s, steps[..1]) == Advance(config, s, steps[0]);
    assert Run(config, s, steps[..2]) == Advance(config, Run(config, s, steps[..1]), steps[1]);
  }

  // Only a delivery marks an event id, and it marks its own.
  lemma DeliveryMarks(config: Config, s: State, t: Timed)
    ensures Advance(config, s, t).processed
         == s.processed + if t.step.Delivered? then {t.step.event.id} else {}
  {
  }

  lemma AppliedEffect(config: Config, s: State, t: Timed, workspace: Id)
    requires workspace in s.rows && AppliedTo(s, t, workspace).Some?
    ensures var row := s.rows[workspace];
            EffectOn(config, s, t, workspace)
            == Cut(row, SubscriptionEffect(config, row, AppliedTo(s, t, workspace).value, t.now), t.reach)
  {
  }

  lemma AppliedRow(config: Config, s: State, t: Timed, workspace: Id)
    requires workspace in s.rows && AppliedTo(s, t, workspace).Some?
    ensures workspace in Advance(config, s, t).rows
    ensures Advance(config, s, t).rows[workspace]
         == SubscriptionEffect(config, s.rows[workspace], AppliedTo(s, t, workspace).value, t.now).row
  {
    StepIsLocal(config, s, t, workspace);
    AppliedEffect(config, s, t, workspace);
  }
}
