/**
 Two handlers for one purchase at once. A completed checkout and a changed subscription are each cut
 at their SQL statements: the SELECT of the row, the UPDATE, and the history entry; any number of
 them interleave on one workspace, at those cuts, in any order.
 */
module BillingRace {
  import opened Wrappers
  import opened BillingModel

  datatype Job =
    | Checkout(subscription: Id)
    | Apply(sub: Subscription, now: Time)

  datatype Pc =
    | Selecting
    | Updating(seen: Row)
    | Recording(actions: seq<Action>)
    | Finished

  datatype Handler = Handler(job: Job, pc: Pc)

  // One workspace: its row, its history, and the handlers at work on it.
  datatype Race = Race(row: Row, history: seq<Action>, handlers: seq<Handler>)

  function Target(job: Job): Plan {
    match job
    case Checkout(_) => Pro
    case Apply(sub, _) => PlanFor(sub.status)
  }

  // The row after the UPDATE: most columns come from the row as it was selected, the customer, the
  // owner and what COALESCE keeps from the row as it now is.
  function Written(config: Config, row: Row, seen: Row, job: Job): Row {
    match job
    case Checkout(subscription) => CheckoutEffect(row, subscription).row
    case Apply(sub, now) =>
      SubscriptionRow(config, seen, sub, now).(
        customer := row.customer,
        ownerEmail := row.ownerEmail,
        billingInterval := Coalesce(IntervalOf(config, sub.priceId), row.billingInterval),
        billingCurrency := Coalesce(sub.currency, row.billingCurrency))
  }

  // The entries, which compare with the row as it was selected.
  function Entered(config: Config, seen: Row, job: Job): seq<Action> {
    match job
    case Checkout(subscription) => CheckoutEffect(seen, subscription).actions
    case Apply(sub, now) => SubscriptionActions(seen, SubscriptionRow(config, seen, sub, now), sub)
  }

  function Step(config: Config, r: Race, h: nat): Race
    requires h < |r.handlers|
  {
    var handler := r.handlers[h];
    match handler.pc
    case Selecting =>
      if handler.job.Apply? && Defended(r.row, handler.job.sub) then Moved(r, h, Finished)
      else Moved(r, h, Updating(r.row))
    case Updating(seen) =>
      Moved(r, h, Recording(Entered(config, seen, handler.job))).(row := Written(config, r.row, seen, handler.job))
    case Recording(actions) => Moved(r, h, Finished).(history := r.history + actions)
    case Finished => r
  }

  function Moved(r: Race, h: nat, pc: Pc): Race
    requires h < |r.handlers|
  {
    r.(handlers := r.handlers[h := r.handlers[h].(pc := pc)])
  }

  predicate Schedule(r: Race, schedule: seq<nat>) {
    forall i :: 0 <= i < |schedule| ==> schedule[i] < |r.handlers|
  }

  function Run(config: Config, r: Race, schedule: seq<nat>): (after: Race)
    requires Schedule(r, schedule)
    ensures |after.handlers| == |r.handlers|
  {
    if schedule == [] then r
    else Step(config, Run(config, r, schedule[..|schedule| - 1]), schedule[|schedule| - 1])
  }

  // Alone, the statements of a handler are its effect as one step.
  lemma AloneIsEffect(config: Config, row: Row, history: seq<Action>, job: Job)
    ensures var effect := if job.Checkout? then CheckoutEffect(row, job.subscription)
                          else SubscriptionEffect(config, row, job.sub, job.now);
            var r := Race(row, history, [Handler(job, Selecting)]);
            Step(config, Step(config, Step(config, r, 0), 0), 0)
            == Race(effect.row, history + effect.actions, [Handler(job, Finished)])
  {
    assert history + [] == history;
  }

  // ---------------------------------------------------------------------------------------
  // The ledger
  // ---------------------------------------------------------------------------------------

  // Upgrades minus downgrades.
  function Net(actions: seq<Action>): int {
    if actions == [] then 0
    else
      var last := actions[|actions| - 1];
      Net(actions[..|actions| - 1])
      + if last.Upgraded? then 1 else if last.Downgraded? || last.GrantExpired? then -1 else 0
  }

  lemma {:induction false} NetAppends(first: seq<Action>, second: seq<Action>)
    ensures Net(first + second) == Net(first) + Net(second)
    decreases |second|
  {
    if second == [] {
      assert first + second == first;
    } else {
      var all := first + second;
      assert all[..|all| - 1] == first + second[..|second| - 1];
      NetAppends(first, second[..|second| - 1]);
    }
  }

  function OnPro(plan: Plan): int {
    if plan == Pro then 1 else 0
  }

  function PendingOf(handler: Handler): int {
    if handler.pc.Recording? then Net(handler.pc.actions) else 0
  }

  // The entries of handlers between their UPDATE and their entry.
  function Pending(handlers: seq<Handler>): int {
    if handlers == [] then 0
    else Pending(handlers[..|handlers| - 1]) + PendingOf(handlers[|handlers| - 1])
  }

  lemma {:induction false} PendingMoves(handlers: seq<Handler>, h: nat, handler: Handler)
    requires h < |handlers|
    ensures Pending(handlers[h := handler]) == Pending(handlers) - PendingOf(handlers[h]) + PendingOf(handler)
  {
    var last := |handlers| - 1;
    if h < last {
      assert handlers[h := handler][..last] == handlers[..last][h := handler];
      PendingMoves(handlers[..last], h, handler);
    } else {
      assert handlers[h := handler][..last] == handlers[..last];
    }
  }

  lemma NetOfOne(action: Action)
    ensures Net([action])
         == if action.Upgraded? then 1 else if action.Downgraded? || action.GrantExpired? then -1 else 0
  {
    assert [action][..0] == [];
  }

  lemma NetOfTwo(first: Action, second: Action)
    ensures Net([first, second]) == Net([first]) + Net([second])
  {
    NetAppends([first], [second]);
    assert [first, second] == [first] + [second];
  }

  lemma NetOfSubscription(row: Row, after: Row, sub: Subscription)
    ensures Net(SubscriptionActions(row, after, sub)) == OnPro(after.plan) - OnPro(row.plan)
  {
    var actions := SubscriptionActions(row, after, sub);
    if |actions| == 1 {
      NetOfOne(actions[0]);
      assert actions == [actions[0]];
    } else if |actions| == 2 {
      NetOfOne(actions[0]);
      NetOfOne(actions[1]);
      NetOfTwo(actions[0], actions[1]);
      assert actions == [actions[0], actions[1]];
    }
  }

  lemma NetEntered(config: Config, seen: Row, job: Job)
    ensures Net(Entered(config, seen, job)) == OnPro(Target(job)) - OnPro(seen.plan)
  {
    match job
    case Checkout(subscription) => NetOfOne(Upgraded(subscription));
    case Apply(sub, now) => NetOfSubscription(seen, SubscriptionRow(config, seen, sub, now), sub);
  }

  // How far the ledger is ahead of the plan, entries still to come included.
  function Ahead(r: Race): int {
    Net(r.history) + Pending(r.handlers) - OnPro(r.row.plan)
  }

  // By how much one turn puts it out: a handler that replaces another plan than it saw.
  function Slip(r: Race, h: nat): int
    requires h < |r.handlers|
  {
    if r.handlers[h].pc.Updating? then OnPro(r.row.plan) - OnPro(r.handlers[h].pc.seen.plan) else 0
  }

  function Slips(config: Config, r: Race, schedule: seq<nat>): int
    requires Schedule(r, schedule)
  {
    if schedule == [] then 0
    else
      var front := schedule[..|schedule| - 1];
      Slips(config, r, front) + Slip(Run(config, r, front), schedule[|schedule| - 1])
  }

  lemma StepSlips(config: Config, r: Race, h: nat)
    requires h < |r.handlers|
    ensures Ahead(Step(config, r, h)) == Ahead(r) + Slip(r, h)
  {
    var after := Step(config, r, h);
    PendingMoves(r.handlers, h, after.handlers[h]);
    assert r.handlers[h := after.handlers[h]] == after.handlers;
    match r.handlers[h].pc
    case Updating(seen) => NetEntered(config, seen, r.handlers[h].job);
    case Recording(actions) => NetAppends(r.history, actions);
    case _ =>
  }

  // Over every interleaving: the recorded upgrades minus downgrades run ahead of the plan by exactly
  // one for every UPDATE that replaced Pro where its SELECT had seen Launch, less one for every
  // UPDATE that did the reverse.
  lemma {:induction false} LedgerSlips(config: Config, r: Race, schedule: seq<nat>)
    requires Schedule(r, schedule)
    ensures Ahead(Run(config, r, schedule)) == Ahead(r) + Slips(config, r, schedule)
  {
    if schedule != [] {
      var front := schedule[..|schedule| - 1];
      LedgerSlips(config, r, front);
      StepSlips(config, Run(config, r, front), schedule[|schedule| - 1]);
    }
  }

  // ---------------------------------------------------------------------------------------
  // One purchase
  // ---------------------------------------------------------------------------------------

  // A workspace on Launch, and handlers not yet begun that all put it on Pro.
  predicate Purchase(r: Race) {
    && r.row.plan == Launch && r.handlers != []
    && forall h :: 0 <= h < |r.handlers| ==> r.handlers[h].pc == Selecting && Target(r.handlers[h].job) == Pro
  }

  predicate AllFinished(r: Race) {
    forall h :: 0 <= h < |r.handlers| ==> r.handlers[h].pc.Finished?
  }

  // Turn `i` is an UPDATE that replaces Pro where its SELECT had seen Launch: another handler's came
  // between the two.
  predicate Overtaken(config: Config, r: Race, schedule: seq<nat>, i: nat)
    requires Schedule(r, schedule) && i < |schedule|
  {
    var before := Run(config, r, schedule[..i]);
    var pc := before.handlers[schedule[i]].pc;
    pc.Updating? && pc.seen.plan == Launch && before.row.plan == Pro
  }

  // While a purchase is handled the row goes from Launch to Pro, at the first UPDATE, and stays.
  ghost predicate Handling(r: Race) {
    && (forall h :: 0 <= h < |r.handlers| ==> Target(r.handlers[h].job) == Pro)
    && (forall h :: 0 <= h < |r.handlers| && r.handlers[h].pc.Updating? && r.handlers[h].pc.seen.plan == Pro ==>
          r.row.plan == Pro)
    && (forall h :: 0 <= h < |r.handlers| && r.handlers[h].pc.Recording? ==> r.row.plan == Pro)
    && (forall h :: 0 <= h < |r.handlers| && r.handlers[h].pc.Finished? ==> r.row.plan == Pro)
  }

  lemma StepKeepsHandling(config: Config, r: Race, h: nat)
    requires Handling(r) && h < |r.handlers|
    ensures Handling(Step(config, r, h))
    ensures var pc := r.handlers[h].pc;
            Slip(r, h) == if pc.Updating? && pc.seen.plan == Launch && r.row.plan == Pro then 1 else 0
  {
  }

  predicate NoneOvertaken(config: Config, r: Race, schedule: seq<nat>)
    requires Schedule(r, schedule)
  {
    forall i :: 0 <= i < |schedule| ==> !Overtaken(config, r, schedule, i)
  }

  lemma NoneOvertakenOfMore(config: Config, r: Race, schedule: seq<nat>)
    requires Schedule(r, schedule) && schedule != []
    ensures NoneOvertaken(config, r, schedule)
       <==> NoneOvertaken(config, r, schedule[..|schedule| - 1]) && !Overtaken(config, r, schedule, |schedule| - 1)
  {
    var front := schedule[..|schedule| - 1];
    forall i | 0 <= i < |front|
      ensures Overtaken(config, r, schedule, i) == Overtaken(config, r, front, i)
    {
      assert front[..i] == schedule[..i];
    }
  }

  lemma {:induction false} PurchaseHandled(config: Config, r: Race, schedule: seq<nat>)
    requires Purchase(r) && Schedule(r, schedule)
    ensures Handling(Run(config, r, schedule))
  {
    if schedule != [] {
      PurchaseHandled(config, r, schedule[..|schedule| - 1]);
      StepKeepsHandling(config, Run(config, r, schedule[..|schedule| - 1]), schedule[|schedule| - 1]);
    }
  }

  lemma {:induction false} PurchaseSlips(config: Config, r: Race, schedule: seq<nat>)
    requires Purchase(r) && Schedule(r, schedule)
    ensures Slips(config, r, schedule) >= 0
    ensures Slips(config, r, schedule) == 0 <==> NoneOvertaken(config, r, schedule)
  {
    if schedule != [] {
      var front, h := schedule[..|schedule| - 1], schedule[|schedule| - 1];
      PurchaseSlips(config, r, front);
      PurchaseHandled(config, r, front);
      StepKeepsHandling(config, Run(config, r, front), h);
      NoneOvertakenOfMore(config, r, schedule);
    }
  }

  lemma {:induction false} NothingPending(handlers: seq<Handler>)
    requires forall h :: 0 <= h < |handlers| ==> !handlers[h].pc.Recording?
    ensures Pending(handlers) == 0
  {
    if handlers != [] {
      NothingPending(handlers[..|handlers| - 1]);
    }
  }

  // The handlers of one purchase, however many and however interleaved, record between them one
  // upgrade more than downgrades, or further ones; and just that one if and only if none of them was
  // overtaken between its SELECT and its UPDATE.
  lemma OneUpgradeIff(config: Config, r: Race, schedule: seq<nat>)
    requires Purchase(r) && Schedule(r, schedule) && AllFinished(Run(config, r, schedule))
    ensures var recorded := Net(Run(config, r, schedule).history) - Net(r.history);
            && recorded >= 1
            && (recorded == 1 <==> NoneOvertaken(config, r, schedule))
  {
    var after := Run(config, r, schedule);
    LedgerSlips(config, r, schedule);
    PurchaseSlips(config, r, schedule);
    PurchaseHandled(config, r, schedule);
    NothingPending(r.handlers);
    NothingPending(after.handlers);
    assert after.handlers[0].pc.Finished?;
  }

  // They can be: a checkout and the subscription it bought, each selected before either is updated,
  // record the upgrade twice.
  lemma UpgradeRecordedTwice(config: Config, row: Row, sub: Subscription, now: Time)
    requires row.plan == Launch && sub.status == Active && !row.cancelAtPeriodEnd && !sub.cancelAtPeriodEnd
    ensures var r := Race(row, [], [Handler(Checkout(sub.id), Selecting), Handler(Apply(sub, now), Selecting)]);
            var selected := Step(config, Step(config, r, 0), 1);
            var updated := Step(config, Step(config, selected, 0), 1);
            Step(config, Step(config, updated, 0), 1).history == [Upgraded(sub.id), Upgraded(sub.id)]
  {
    var r := Race(row, [], [Handler(Checkout(sub.id), Selecting), Handler(Apply(sub, now), Selecting)]);
    var selected := Step(config, Step(config, r, 0), 1);
    var updated := Step(config, Step(config, selected, 0), 1);
    assert selected.handlers == [Handler(Checkout(sub.id), Updating(row)), Handler(Apply(sub, now), Updating(row))];
    assert Entered(config, row, Checkout(sub.id)) == [Upgraded(sub.id)] == Entered(config, row, Apply(sub, now));
    assert updated.handlers == [Handler(Checkout(sub.id), Recording([Upgraded(sub.id)])),
                                Handler(Apply(sub, now), Recording([Upgraded(sub.id)]))];
  }
}
