/** Reconciling against Stripe: stable, never a downgrade by inference, and bound by operator grants. */
module BillingReconcile {
  import opened Wrappers
  import opened BillingModel
  import opened BillingRuns
  import opened BillingDeadlines
  import opened BillingReplay

  // Listing a customer's subscriptions and retrieving one of them by id agree.
  predicate Coherent(world: World) {
    forall customer, sub ::
      customer in world.listing && sub in world.listing[customer] && sub.id in world.subscriptions
      ==> world.subscriptions[sub.id] == sub
  }

  lemma AppliedElsewhere(config: Config, s: State, sub: Subscription, now: Time, workspace: Id)
    requires workspace in s.rows && sub.organization != Some(workspace)
    ensures workspace in ApplySubscription(config, s, sub, now).rows
    ensures ApplySubscription(config, s, sub, now).rows[workspace] == s.rows[workspace]
  {
  }

  lemma AppliedHere(config: Config, s: State, sub: Subscription, now: Time, workspace: Id)
    requires workspace in s.rows && sub.organization == Some(workspace) && !Defended(s.rows[workspace], sub)
    ensures var after := ApplySubscription(config, s, sub, now);
            && workspace in after.rows
            && after.rows[workspace].subscription == Some(sub.id)
            && after.rows[workspace].plan == PlanFor(sub.status)
            && after.rows[workspace].source == FromStripe
            && after.rows[workspace].customer == s.rows[workspace].customer
  {
  }

  // With Stripe unchanged, a second drift check changes no workspace and records nothing, at any
  // later time, wherever the first one's subscription was routed.
  lemma DriftCheckIsStable(config: Config, s: State, workspace: Id, world: World, now: Time, later: Time)
    requires Coherent(world)
    ensures var once := DriftCheck(config, s, workspace, world, now);
            DriftCheck(config, once, workspace, world, later) == once
  {
    if workspace in s.rows && DriftChoice(s.rows[workspace], world).Some? {
      var sub := Routed(DriftChoice(s.rows[workspace], world).value, workspace);
      if sub.organization == Some(workspace) {
        AppliedHere(config, s, sub, now, workspace);
      } else {
        AppliedElsewhere(config, s, sub, now, workspace);
        ApplyTwiceIsOnce(config, s, sub, now, later);
      }
    }
  }

  // The listed subscription is this workspace's own, or nobody's until the reconcile names it.
  predicate ListsOwn(row: Row, workspace: Id, world: World) {
    var choice := ListedChoice(row, world);
    choice.Some? && Routed(choice.value, workspace).organization == Some(workspace)
  }

  // Once a subscription of its own was applied, the drift check behind it does nothing.
  lemma DriftQuietAfterListed(config: Config, s: State, workspace: Id, world: World, now: Time, later: Time)
    requires workspace in s.rows && Coherent(world) && ListsOwn(s.rows[workspace], workspace, world)
    ensures var listed := ApplyListed(config, s, workspace, world, now);
            && workspace in listed.rows
            && listed.rows[workspace].customer == s.rows[workspace].customer
            && DriftCheck(config, listed, workspace, world, later) == listed
  {
    var routed := Routed(ListedChoice(s.rows[workspace], world).value, workspace);
    if !Defended(s.rows[workspace], routed) {
      AppliedHere(config, s, routed, now, workspace);
    }
  }

  // The listed subscription runs and names another workspace, which the recorded one, ended, names
  // too: the first puts that workspace on Pro and the drift check behind it takes it off again.
  predicate TugsAtAnother(s: State, workspace: Id, world: World)
    requires workspace in s.rows
  {
    var row := s.rows[workspace];
    var listed := ListedChoice(row, world);
    && listed.Some? && !Ended(listed.value.status)
    && listed.value.organization.Some? && listed.value.organization.value != workspace
    && listed.value.organization.value in s.rows
    && row.source == FromStripe && row.plan == Pro && row.subscription.Some?
    && row.subscription.value in world.subscriptions
    && Ended(world.subscriptions[row.subscription.value].status)
    && world.subscriptions[row.subscription.value].organization == listed.value.organization
  }

  // Applying what a workspace's row already shows changes nothing.
  lemma AppliedStill(config: Config, s: State, after: State, sub: Subscription, now: Time, later: Time)
    requires sub.organization.Some? && (sub.organization.value in after.rows ==> sub.organization.value in s.rows)
    requires sub.organization.value in after.rows ==>
               after.rows[sub.organization.value]
               == SubscriptionEffect(config, s.rows[sub.organization.value], sub, now).row
    ensures ApplySubscription(config, after, sub, later) == after
  {
    if sub.organization.value in after.rows {
      SubscriptionRowIdempotent(config, s.rows[sub.organization.value], sub, now, later);
      CommitNothing(after, sub.organization.value);
    }
  }

  // One running and one ended subscription applied in turn to a workspace never settle: each
  // round adds an upgrade and a downgrade to the history again.
  lemma NeverSettles(config: Config, s: State, running: Subscription, ended: Subscription, now: Time, later: Time)
    requires running.organization.Some? && running.organization.value in s.rows
             && ended.organization == running.organization
    requires !Ended(running.status) && Ended(ended.status)
    ensures var once := ApplySubscription(config, ApplySubscription(config, s, running, now), ended, now);
            |ApplySubscription(config, ApplySubscription(config, once, running, later), ended, later).history|
            >= |once.history| + 2
  {
    var once := ApplySubscription(config, ApplySubscription(config, s, running, now), ended, now);
    var half := ApplySubscription(config, once, running, later);
    assert once.rows[running.organization.value].plan == Launch;
    assert |half.history| >= |once.history| + 1;
    assert |ApplySubscription(config, half, ended, later).history| >= |half.history| + 1;
  }

  // Two ended subscriptions applied in turn settle after one round.
  lemma BothEndedSettle(config: Config, row: Row, first: Subscription, second: Subscription, now: Time, later: Time)
    requires Ended(first.status) && Ended(second.status)
    ensures var once := SubscriptionEffect(config, SubscriptionEffect(config, row, first, now).row, second, now).row;
            var half := SubscriptionEffect(config, once, first, later);
            && half.actions == [] && half.notices == []
            && SubscriptionEffect(config, half.row, second, later) == Effect(once, [], [])
  {
  }

  lemma CommitTwice(config: Config, s: State, first: Subscription, second: Subscription, later: Time)
    requires first.organization.Some? && second.organization == first.organization && first.organization.value in s.rows
    requires var row := s.rows[first.organization.value];
             var half := SubscriptionEffect(config, row, first, later);
             half.actions == [] && half.notices == []
               && SubscriptionEffect(config, half.row, second, later) == Effect(row, [], [])
    ensures ApplySubscription(config, ApplySubscription(config, s, first, later), second, later) == s
  {
    var other := first.organization.value;
    var row := s.rows[other];
    var half := SubscriptionEffect(config, row, first, later).row;
    assert Entries(other, []) == [] && Addressed(other, row, []) == [] && Addressed(other, half, []) == [];
    assert s.rows[other := half][other := row] == s.rows;
    assert s.history + [] == s.history && s.mails + [] == s.mails;
  }

  // What a reconcile that is let through does, with the subscriptions it finds named.
  lemma ReconcileIs(config: Config, s: State, workspace: Id, world: World, now: Time)
    requires workspace in s.rows && ListedChoice(s.rows[workspace], world).Some?
             && !ReconcileFails(s.rows[workspace], world)
    ensures var listed := Routed(ListedChoice(s.rows[workspace], world).value, workspace);
            Reconcile(config, s, workspace, world, now)
            == DriftCheck(config, ApplySubscription(config, s, listed, now), workspace, world, now)
  {
  }

  // Where the listed subscription names another workspace and the drift check finds one for
  // somebody else than that, each round finds the rows as the one before left them.
  lemma DriftApart(config: Config, s: State, workspace: Id, world: World, listed: Subscription, found: Subscription,
                   now: Time, later: Time)
    requires workspace in s.rows && !ReconcileFails(s.rows[workspace], world) && Coherent(world)
    requires ListedChoice(s.rows[workspace], world) == Some(listed)
    requires listed.organization.Some? && listed.organization.value != workspace
    requires DriftChoice(s.rows[workspace], world).Some?
             && found == Routed(DriftChoice(s.rows[workspace], world).value, workspace)
    requires found.organization != listed.organization
    ensures var once := ApplySubscription(config, ApplySubscription(config, s, listed, now), found, now);
            Reconcile(config, once, workspace, world, later) == once
  {
    var other := listed.organization.value;
    var applied := ApplySubscription(config, s, listed, now);
    var once := ApplySubscription(config, applied, found, now);
    AppliedElsewhere(config, s, listed, now, workspace);
    if other in s.rows {
      AppliedElsewhere(config, applied, found, now, other);
    }
    AppliedStill(config, s, once, listed, now, later);
    DriftCheckIsStable(config, applied, workspace, world, now, later);
    CustomerStays(config, applied, found, now, workspace);
    ReconcileIs(config, once, workspace, world, later);
  }

  lemma CustomerStays(config: Config, s: State, sub: Subscription, now: Time, workspace: Id)
    requires workspace in s.rows
    ensures workspace in ApplySubscription(config, s, sub, now).rows
    ensures ApplySubscription(config, s, sub, now).rows[workspace].customer == s.rows[workspace].customer
  {
  }

  // Where both name the same other workspace, the rounds settle unless one runs and one has ended.
  lemma DriftTogether(config: Config, s: State, workspace: Id, world: World, listed: Subscription, found: Subscription,
                      now: Time, later: Time)
    requires workspace in s.rows && !ReconcileFails(s.rows[workspace], world)
    requires ListedChoice(s.rows[workspace], world) == Some(listed)
    requires listed.organization.Some? && listed.organization.value != workspace && listed.organization.value in s.rows
    requires DriftChoice(s.rows[workspace], world) == Some(found) && found.organization == listed.organization
    requires s.rows[workspace].plan == Pro
    ensures var once := ApplySubscription(config, ApplySubscription(config, s, listed, now), found, now);
            Reconcile(config, once, workspace, world, later) == once <==> Ended(listed.status)
  {
    var other := listed.organization.value;
    var once := ApplySubscription(config, ApplySubscription(config, s, listed, now), found, now);
    assert once.rows[workspace] == s.rows[workspace];
    assert once.rows[other]
        == SubscriptionEffect(config, SubscriptionEffect(config, s.rows[other], listed, now).row, found, now).row;
    ReconcileIs(config, once, workspace, world, later);
    if Ended(listed.status) {
      BothEndedSettle(config, s.rows[other], listed, found, now, later);
      CommitTwice(config, once, listed, found, later);
    } else {
      NeverSettles(config, s, listed, found, now, later);
    }
  }

  // Where the drift check finds nothing, or the listed subscription again, or nobody it could change.
  lemma NothingBehindListed(config: Config, s: State, workspace: Id, world: World, now: Time, later: Time)
    requires workspace in s.rows && ListedChoice(s.rows[workspace], world).Some?
             && !ReconcileFails(s.rows[workspace], world)
    requires !ListsOwn(s.rows[workspace], workspace, world) && Coherent(world)
    requires var listed := ListedChoice(s.rows[workspace], world).value;
             DriftChoice(s.rows[workspace], world).None? || s.rows[workspace].plan == Launch
               || listed.organization.value !in s.rows
    ensures var once := Reconcile(config, s, workspace, world, now);
            Reconcile(config, once, workspace, world, later) == once
  {
    var listed := ListedChoice(s.rows[workspace], world).value;
    AppliedElsewhere(config, s, listed, now, workspace);
    ReconcileIs(config, s, workspace, world, now);
    if listed.organization.value !in s.rows {
      DriftCheckIsStable(config, s, workspace, world, now, later);
      DriftKeepsCustomer(config, s, workspace, world, now);
      RunKeepsOthersOut(config, s, workspace, world, now, listed.organization.value);
      ReconcileIs(config, Reconcile(config, s, workspace, world, now), workspace, world, later);
    } else {
      ApplyTwiceIsOnce(config, s, listed, now, now);
      ApplyTwiceIsOnce(config, s, listed, now, later);
      ReconcileIs(config, Reconcile(config, s, workspace, world, now), workspace, world, later);
    }
  }

  lemma RunKeepsOthersOut(config: Config, s: State, workspace: Id, world: World, now: Time, other: Id)
    requires other !in s.rows
    ensures other !in DriftCheck(config, s, workspace, world, now).rows
  {
  }

  // The same, of a listed subscription that names another workspace.
  lemma ReconcileElsewhere(config: Config, s: State, workspace: Id, world: World, now: Time, later: Time)
    requires workspace in s.rows && ListedChoice(s.rows[workspace], world).Some?
             && !ReconcileFails(s.rows[workspace], world)
    requires Coherent(world) && !ListsOwn(s.rows[workspace], workspace, world)
    ensures var once := Reconcile(config, s, workspace, world, now);
            Reconcile(config, once, workspace, world, later) == once <==> !TugsAtAnother(s, workspace, world)
  {
    var listed := ListedChoice(s.rows[workspace], world).value;
    var drift := DriftChoice(s.rows[workspace], world);
    AppliedElsewhere(config, s, listed, now, workspace);
    ReconcileIs(config, s, workspace, world, now);
    if drift.None? || s.rows[workspace].plan == Launch || listed.organization.value !in s.rows {
      NothingBehindListed(config, s, workspace, world, now, later);
    } else if drift.value.organization == listed.organization {
      DriftTogether(config, s, workspace, world, listed, drift.value, now, later);
    } else {
      DriftApart(config, s, workspace, world, listed, Routed(drift.value, workspace), now, later);
    }
  }

  // With Stripe unchanged, reconciling a second time changes nothing either, if and only if the
  // subscriptions it finds do not tug at another workspace.
  lemma ReconcileIsStable(config: Config, s: State, workspace: Id, world: World, now: Time, later: Time)
    requires workspace in s.rows && Coherent(world)
    ensures var once := Reconcile(config, s, workspace, world, now);
            Reconcile(config, once, workspace, world, later) == once <==> !TugsAtAnother(s, workspace, world)
  {
    var row := s.rows[workspace];
    if ReconcileFails(row, world) {
      return;
    }
    if ListedChoice(row, world).None? {
      DriftCheckIsStable(config, s, workspace, world, now, later);
      DriftKeepsCustomer(config, s, workspace, world, now);
    } else if ListsOwn(row, workspace, world) {
      OwnReconcileIsStable(config, s, workspace, world, now, later);
    } else {
      ReconcileElsewhere(config, s, workspace, world, now, later);
    }
  }

  lemma OwnReconcileIsStable(config: Config, s: State, workspace: Id, world: World, now: Time, later: Time)
    requires workspace in s.rows && Coherent(world) && ListsOwn(s.rows[workspace], workspace, world)
    requires !ReconcileFails(s.rows[workspace], world)
    ensures var once := Reconcile(config, s, workspace, world, now);
            Reconcile(config, once, workspace, world, later) == once
  {
    DriftQuietAfterListed(config, s, workspace, world, now, now);
    DriftQuietAfterListed(config, s, workspace, world, now, later);
    ApplyTwiceIsOnce(config, s, Routed(ListedChoice(s.rows[workspace], world).value, workspace), now, later);
  }

  lemma DriftKeepsCustomer(config: Config, s: State, workspace: Id, world: World, now: Time)
    requires workspace in s.rows
    ensures workspace in DriftCheck(config, s, workspace, world, now).rows
    ensures DriftCheck(config, s, workspace, world, now).rows[workspace].customer == s.rows[workspace].customer
  {
    DriftIsLocal(config, s, workspace, world, now, workspace);
  }

  // A drift check takes a workspace off Pro exactly when Stripe decides its plan, a subscription
  // is recorded, retrieving that very subscription reports an ended status, and the subscription
  // does not name another workspace. What listing returns plays no part.
  lemma DriftDowngradesIff(config: Config, s: State, workspace: Id, world: World, now: Time)
    requires workspace in s.rows && s.rows[workspace].plan == Pro
    ensures var row := s.rows[workspace];
            var after := DriftCheck(config, s, workspace, world, now);
            && workspace in after.rows
            && (after.rows[workspace].plan == Launch
                <==> && row.source == FromStripe && row.subscription.Some?
                     && row.subscription.value in world.subscriptions
                     && Ended(world.subscriptions[row.subscription.value].status)
                     && Routed(world.subscriptions[row.subscription.value], workspace).organization == Some(workspace))
    ensures forall listing: map<Id, seq<Subscription>> ::
              DriftCheck(config, s, workspace, world.(listing := listing), now)
              == DriftCheck(config, s, workspace, world, now)
  {
  }

  // The row already shows what the subscription says.
  predicate Shows(config: Config, row: Row, sub: Subscription) {
    && row.plan == PlanFor(sub.status) && row.subscription == Some(sub.id) && row.subscriptionStatus == Some(sub.status)
    && row.currentPeriodEnd == sub.periodEnd && row.cancelAtPeriodEnd == sub.cancelAtPeriodEnd
    && (IntervalOf(config, sub.priceId).Some? ==> row.billingInterval == IntervalOf(config, sub.priceId))
    && (sub.currency.Some? ==> row.billingCurrency == sub.currency)
    && row.source == FromStripe && row.override == NO_OVERRIDE
    && (row.plan == Pro ==> row.graceEndsAt.None? && row.paymentFailedAt.None? && row.graceLockedNotifiedAt.None?)
  }

  // Applying a subscription changes no column exactly when the plan is defended from it or the row
  // already shows it, and then records and mails nothing either.
  lemma AppliedChangesIff(config: Config, row: Row, sub: Subscription, now: Time)
    ensures var effect := SubscriptionEffect(config, row, sub, now);
            && (effect.row == row <==> Defended(row, sub) || Shows(config, row, sub))
            && (effect.row == row ==> effect == Effect(row, [], []))
  {
  }

  // Once applied, a subscription shows. The customer and the owner are not its business, and what it
  // does not say of interval and currency stands.
  lemma AppliedShows(config: Config, row: Row, sub: Subscription, now: Time)
    ensures var after := SubscriptionEffect(config, row, sub, now).row;
            && (!Defended(row, sub) ==> Shows(config, after, sub))
            && after.customer == row.customer && after.ownerEmail == row.ownerEmail
            && (IntervalOf(config, sub.priceId).None? ==> after.billingInterval == row.billingInterval)
            && (sub.currency.None? ==> after.billingCurrency == row.billingCurrency)
  {
  }

  // The subscription a reconcile prefers: the first that Stripe would bill, or, when there is none,
  // the first listed, which is the most recent.
  predicate Preferred(subs: seq<Subscription>, i: nat) {
    && i < |subs|
    && if Live(subs[i].status) then forall k :: 0 <= k < i ==> !Live(subs[k].status)
       else i == 0 && forall k :: 0 <= k < |subs| ==> !Live(subs[k].status)
  }

  lemma PreferredIsChosen(row: Row, customer: Id, world: World, i: nat)
    requires row.customer == Some(customer) && customer in world.listing && Preferred(world.listing[customer], i)
    ensures ListedChoice(row, world) == Some(world.listing[customer][i])
  {
    var subs := world.listing[customer];
    if Live(subs[i].status) {
      FindLiveIsFirst(subs, i);
    }
  }

  // After a reconcile the workspace shows the preferred subscription, if that one names it or names
  // nobody and no operator's plan is defended from it.
  lemma ReconcileShows(config: Config, s: State, workspace: Id, customer: Id, world: World, now: Time, i: nat)
    requires workspace in s.rows && s.rows[workspace].customer == Some(customer) && customer in world.listing
    requires Preferred(world.listing[customer], i) && Coherent(world) && !ReconcileFails(s.rows[workspace], world)
    requires var names := world.listing[customer][i].organization; names.None? || names == Some(workspace)
    ensures var sub := world.listing[customer][i];
            var after := Reconcile(config, s, workspace, world, now);
            && workspace in after.rows
            && if Defended(s.rows[workspace], sub) then after.rows[workspace] == s.rows[workspace]
               else Shows(config, after.rows[workspace], sub)
  {
    PreferredIsChosen(s.rows[workspace], customer, world, i);
    DriftQuietAfterListed(config, s, workspace, world, now, now);
    ListedIsLocal(config, s, workspace, world, now, workspace);
    AppliedShows(config, s.rows[workspace], Routed(world.listing[customer][i], workspace), now);
  }

  // A drift check on a workspace that never had a subscription shows the first that Stripe would
  // bill, if that one names it or names nobody, and otherwise leaves it as it was.
  lemma DriftShows(config: Config, s: State, workspace: Id, customer: Id, world: World, now: Time, i: nat)
    requires LooksUp(s, workspace) && s.rows[workspace].customer == Some(customer) && customer in world.listing
    requires i < |world.listing[customer]| && Live(world.listing[customer][i].status)
    requires forall k :: 0 <= k < i ==> !Live(world.listing[customer][k].status)
    ensures var sub := world.listing[customer][i];
            var after := DriftCheck(config, s, workspace, world, now);
            && workspace in after.rows
            && if sub.organization.None? || sub.organization == Some(workspace) then
                 Shows(config, after.rows[workspace], sub)
               else after.rows[workspace] == s.rows[workspace]
  {
    FindLiveIsFirst(world.listing[customer], i);
    DriftIsLocal(config, s, workspace, world, now, workspace);
    AppliedShows(config, s.rows[workspace], Routed(world.listing[customer][i], workspace), now);
  }

  // A drift check on a workspace on Pro shows the recorded subscription once Stripe reports it ended.
  lemma DriftShowsTheEnd(config: Config, s: State, workspace: Id, subscription: Id, world: World, now: Time)
    requires workspace in s.rows && s.rows[workspace].plan == Pro && s.rows[workspace].source == FromStripe
    requires s.rows[workspace].subscription == Some(subscription) && subscription in world.subscriptions
    requires var names := world.subscriptions[subscription].organization; names.None? || names == Some(workspace)
    ensures var sub := world.subscriptions[subscription];
            var after := DriftCheck(config, s, workspace, world, now);
            && workspace in after.rows
            && if Ended(sub.status) then Shows(config, after.rows[workspace], sub)
               else after.rows[workspace] == s.rows[workspace]
  {
    DriftIsLocal(config, s, workspace, world, now, workspace);
    AppliedShows(config, s.rows[workspace], Routed(world.subscriptions[subscription], workspace), now);
  }

  // A drift check on one workspace reaches another exactly when the subscription it finds names
  // that other one, whose plan is not defended from it and whose row does not show it yet; it then
  // changes that workspace by the subscription's whole effect, and otherwise changes neither its
  // row nor its history nor its mail.
  lemma DriftReachesIff(config: Config, s: State, workspace: Id, world: World, now: Time, other: Id)
    requires workspace in s.rows && other in s.rows
    ensures var row := s.rows[other];
            var found := DriftChoice(s.rows[workspace], world);
            var after := DriftCheck(config, s, workspace, world, now);
            && ChangedBy(s, after, other, FoundOn(config, row, found, workspace, other, now))
            && (!ChangedBy(s, after, other, Effect(row, [], []))
                <==> found.Some? && var sub := Routed(found.value, workspace);
                     sub.organization == Some(other) && !Defended(row, sub) && !Shows(config, row, sub))
  {
    DriftIsLocal(config, s, workspace, world, now, other);
    var found := DriftChoice(s.rows[workspace], world);
    if found.Some? && Routed(found.value, workspace).organization == Some(other) {
      AppliedChangesIff(config, s.rows[other], Routed(found.value, workspace), now);
    }
  }

  // It does happen: a workspace on Launch whose customer has one active subscription, bought for
  // another workspace, puts that other one on Pro by loading its page, and stays on Launch.
  lemma DriftUpgradesAnother(config: Config, s: State, workspace: Id, other: Id, customer: Id, sub: Subscription,
                             world: World, now: Time)
    requires workspace in s.rows && other in s.rows && workspace != other
    requires s.rows[workspace].plan == Launch && s.rows[workspace].source == FromStripe
    requires s.rows[workspace].customer == Some(customer) && s.rows[workspace].subscription.None?
    requires s.rows[other].plan == Launch && sub.status == Active && sub.organization == Some(other)
    requires customer in world.listing && world.listing[customer] == [sub]
    ensures var after := DriftCheck(config, s, workspace, world, now);
            && other in after.rows && after.rows[other].plan == Pro
            && workspace in after.rows && after.rows[workspace] == s.rows[workspace]
            && Upgraded(sub.id) in OwnActions(after.history, other)
  {
    assert FindLive([sub]) == Some(sub);
    DriftIsLocal(config, s, workspace, world, now, other);
    DriftIsLocal(config, s, workspace, world, now, workspace);
  }

  // ---------------------------------------------------------------------------------------
  // What is lost and not found again
  // ---------------------------------------------------------------------------------------

  // Of the statuses Stripe would bill, exactly one also counts as ended.
  lemma LiveAndEnded(status: Status)
    ensures Live(status) && Ended(status) <==> status == Unpaid
  {
  }

  lemma {:induction false} FindLiveIsFirst(subs: seq<Subscription>, i: nat)
    requires i < |subs| && Live(subs[i].status) && forall k :: 0 <= k < i ==> !Live(subs[k].status)
    ensures FindLive(subs) == Some(subs[i])
  {
    if i > 0 {
      FindLiveIsFirst(subs[1..], i - 1);
    }
  }

  // Where a reconcile leaves the plan, when the subscription it picks is the workspace's own.
  lemma ReconciledPlan(config: Config, s: State, workspace: Id, world: World, now: Time)
    requires workspace in s.rows && Coherent(world) && ListsOwn(s.rows[workspace], workspace, world)
    requires !ReconcileFails(s.rows[workspace], world)
    ensures var row := s.rows[workspace];
            var after := Reconcile(config, s, workspace, world, now);
            && workspace in after.rows
            && (after.rows[workspace].plan == Pro
                <==> !Ended(ListedChoice(row, world).value.status) || (row.source == FromAdmin && row.plan == Pro))
  {
    DriftQuietAfterListed(config, s, workspace, world, now, now);
    ListedIsLocal(config, s, workspace, world, now, workspace);
  }

  // A reconcile prefers a subscription Stripe would bill, yet takes Pro away for an unpaid one: with
  // `i` the first listed subscription it prefers, the workspace is on Pro afterwards exactly when
  // that one is not unpaid or an operator granted the plan, whatever is listed behind it.
  lemma ReconcileKeepsProIff(config: Config, s: State, workspace: Id, customer: Id, world: World, now: Time, i: nat)
    requires workspace in s.rows && Coherent(world) && ListsOwn(s.rows[workspace], workspace, world)
    requires !ReconcileFails(s.rows[workspace], world)
    requires s.rows[workspace].customer == Some(customer) && customer in world.listing && i < |world.listing[customer]|
    requires Live(world.listing[customer][i].status)
    requires forall k :: 0 <= k < i ==> !Live(world.listing[customer][k].status)
    ensures var row := s.rows[workspace];
            var after := Reconcile(config, s, workspace, world, now);
            && workspace in after.rows
            && (after.rows[workspace].plan == Pro
                <==> world.listing[customer][i].status != Unpaid || (row.source == FromAdmin && row.plan == Pro))
  {
    FindLiveIsFirst(world.listing[customer], i);
    ReconciledPlan(config, s, workspace, world, now);
    LiveAndEnded(world.listing[customer][i].status);
  }

  // So a paying workspace loses Pro to the unpaid subscription listed before its active one.
  lemma UnpaidHidesActive(config: Config, s: State, workspace: Id, customer: Id, unpaid: Subscription,
                          active: Subscription, world: World, now: Time)
    requires workspace in s.rows && Coherent(world)
    requires s.rows[workspace].plan == Pro && s.rows[workspace].source == FromStripe
    requires s.rows[workspace].customer == Some(customer) && s.rows[workspace].subscription == Some(active.id)
    requires unpaid.status == Unpaid && active.status == Active
    requires unpaid.organization == Some(workspace) == active.organization
    requires customer in world.listing && world.listing[customer] == [unpaid, active]
    ensures var after := Reconcile(config, s, workspace, world, now);
            && workspace in after.rows && after.rows[workspace].plan == Launch
            && Downgraded(unpaid.id, after.rows[workspace].graceEndsAt) in OwnActions(after.history, workspace)
  {
    FindLiveIsFirst([unpaid, active], 0);
    ReconciledPlan(config, s, workspace, world, now);
    ListedIsLocal(config, s, workspace, world, now, workspace);
    DriftQuietAfterListed(config, s, workspace, world, now, now);
  }

  // Only a workspace under Stripe, on Launch, with a customer and no subscription on record has its
  // customer's subscriptions looked up by a drift check.
  predicate LooksUp(s: State, workspace: Id) {
    workspace in s.rows
    && var row := s.rows[workspace];
       row.plan == Launch && row.source == FromStripe && row.customer.Some? && row.subscription.None?
  }

  ghost predicate PutsOnPro(config: Config, s: State, checked: Id, world: World, now: Time, workspace: Id) {
    var after := DriftCheck(config, s, checked, world, now);
    workspace in after.rows && after.rows[workspace].plan == Pro
  }

  lemma OnlyLookingUpPutsOnPro(config: Config, s: State, checked: Id, world: World, now: Time, workspace: Id)
    requires workspace in s.rows && s.rows[workspace].plan == Launch
    requires PutsOnPro(config, s, checked, world, now, workspace)
    ensures LooksUp(s, checked)
  {
    if checked in s.rows {
      DriftIsLocal(config, s, checked, world, now, workspace);
    }
  }

  // A live subscription of its customer is all it takes, whichever workspace it names.
  lemma LookingUpPutsOnPro(config: Config, s: State, checked: Id, now: Time, workspace: Id) returns (world: World)
    requires workspace in s.rows && LooksUp(s, checked)
    ensures PutsOnPro(config, s, checked, world, now, workspace)
  {
    var sub := Subscription(workspace, Active, Some(workspace), "", None, None, false);
    world := World(map[], map[s.rows[checked].customer.value := [sub]], map[], {});
    assert FindLive([sub]) == Some(sub);
    AppliedHere(config, s, sub, now, workspace);
  }

  // A workspace on Launch can be put on Pro by some drift check, its own or that of another
  // workspace, exactly when some workspace is one a drift check looks up for.
  lemma DriftRestoresIff(config: Config, s: State, workspace: Id)
    requires workspace in s.rows && s.rows[workspace].plan == Launch
    ensures (exists checked, world, now :: PutsOnPro(config, s, checked, world, now, workspace))
       <==> exists checked :: LooksUp(s, checked)
    ensures (exists world, now :: PutsOnPro(config, s, workspace, world, now, workspace)) <==> LooksUp(s, workspace)
  {
    forall checked, world, now | PutsOnPro(config, s, checked, world, now, workspace)
      ensures LooksUp(s, checked)
    {
      OnlyLookingUpPutsOnPro(config, s, checked, world, now, workspace);
    }
    if checked :| LooksUp(s, checked) {
      var world := LookingUpPutsOnPro(config, s, checked, 0, workspace);
    }
    if LooksUp(s, workspace) {
      var world := LookingUpPutsOnPro(config, s, workspace, 0, workspace);
    }
  }

  // An ended subscription takes Pro away whichever subscription the workspace has on record, unless
  // an operator granted the plan. Once it has, the workspace's own drift check changes nothing, in
  // any world at any time, for the row now has a subscription id; and another's can restore Pro
  // exactly when there is one that looks up, by way of a subscription that names this workspace.
  lemma EndedTakesPro(config: Config, s: State, t: Timed, workspace: Id, world: World, later: Time)
    requires workspace in s.rows && s.rows[workspace].plan == Pro
    requires AppliedTo(s, t, workspace).Some? && Ended(AppliedTo(s, t, workspace).value.status)
    ensures var after := Advance(config, s, t);
            && workspace in after.rows
            && (after.rows[workspace].plan == Launch <==> s.rows[workspace].source == FromStripe)
            && (after.rows[workspace].plan == Launch ==>
                  && DriftCheck(config, after, workspace, world, later) == after
                  && ((exists checked, w, now :: PutsOnPro(config, after, checked, w, now, workspace))
                      <==> exists other :: other != workspace && LooksUp(after, other)))
  {
    AppliedRow(config, s, t, workspace);
    var after := Advance(config, s, t);
    if after.rows[workspace].plan == Launch {
      assert !LooksUp(after, workspace);
      DriftRestoresIff(config, after, workspace);
    }
  }

  // At an input: the workspace a former subscription's late end has put on Launch, with another
  // subscription active and on record, stays there through its own drift check although Stripe
  // bills it.
  lemma LateEndTakesPro(config: Config, s: State, event: Event, former: Subscription, active: Subscription,
                        workspace: Id, world: World, now: Time, later: Time)
    requires workspace in s.rows && s.rows[workspace].plan == Pro && s.rows[workspace].source == FromStripe
    requires s.rows[workspace].subscription == Some(active.id) && active.status == Active && former.id != active.id
    requires event.id !in s.processed && event.body == SubscriptionChanged(former)
    requires former.status == Canceled && former.organization == Some(workspace)
    requires s.rows[workspace].customer.Some? && s.rows[workspace].customer.value in world.listing
    requires world.listing[s.rows[workspace].customer.value] == [active]
    ensures var ended := At(now, Delivered(event), Everything);
            var checked := At(later, DriftChecked(workspace, world), Everything);
            var after := Advance(config, Advance(config, s, ended), checked);
            workspace in after.rows && after.rows[workspace].plan == Launch
  {
    var ended := At(now, Delivered(event), Everything);
    assert AppliedTo(s, ended, workspace) == Some(former);
    EndedTakesPro(config, s, ended, workspace, world, later);
  }

  // ---------------------------------------------------------------------------------------
  // Plans an operator set by hand
  // ---------------------------------------------------------------------------------------

  // The operator's panel changes this workspace's plan.
  predicate SetsPlan(t: Timed, workspace: Id) {
    t.step.OperatorSetsPlan? && t.step.workspace == workspace
  }

  // A grant lapses when its own end date has passed.
  predicate Lapses(row: Row, t: Timed, workspace: Id) {
    && t.step.GrantExpires? && t.step.workspace == workspace && t.reach != Nothing
    && row.override.expiresAt.Some? && row.override.expiresAt.value <= t.now
  }

  // A step retires an operator's grant exactly when it completes a checkout for the workspace,
  // applies a subscription that has not ended, or the grant lapses. A retired grant leaves no
  // override field behind; otherwise plan, source and override all stand.
  lemma GrantRetiredIff(config: Config, s: State, t: Timed, workspace: Id)
    requires workspace in s.rows && s.rows[workspace].source == FromAdmin && !SetsPlan(t, workspace)
    ensures workspace in Advance(config, s, t).rows
    ensures var row := s.rows[workspace];
            var after := Advance(config, s, t).rows[workspace];
            if CheckoutFor(s, t, workspace).Some? || AppliesRunning(s, t, workspace) || Lapses(row, t, workspace)
            then after.source == FromStripe && after.override == NO_OVERRIDE
                 && after.plan == (if Lapses(row, t, workspace) then Launch else Pro)
            else after.source == FromAdmin && after.override == row.override && after.plan == row.plan
  {
    if AppliedTo(s, t, workspace).Some? {
      AppliedRow(config, s, t, workspace);
      assert CheckoutFor(s, t, workspace).None?;
    } else {
      StepIsLocal(config, s, t, workspace);
      GrantUnderOtherSteps(config, s, t, workspace);
    }
  }

  lemma GrantUnderOtherSteps(config: Config, s: State, t: Timed, workspace: Id)
    requires workspace in s.rows && s.rows[workspace].source == FromAdmin && !SetsPlan(t, workspace)
    requires AppliedTo(s, t, workspace).None?
    ensures var row := s.rows[workspace];
            var after := EffectOn(config, s, t, workspace).row;
            if CheckoutFor(s, t, workspace).Some? || Lapses(row, t, workspace)
            then after.source == FromStripe && after.override == NO_OVERRIDE
                 && after.plan == (if Lapses(row, t, workspace) then Launch else Pro)
            else after.source == FromAdmin && after.override == row.override && after.plan == row.plan
  {
  }

  // While an operator's grant stands, a drift check and an ended subscription's event leave the
  // whole row alone, and record and mail nothing for it.
  lemma GrantDefended(config: Config, s: State, t: Timed, workspace: Id)
    requires workspace in s.rows && s.rows[workspace].source == FromAdmin
    requires (t.step.DriftChecked? && t.step.workspace == workspace)
          || (AppliedTo(s, t, workspace).Some? && Ended(AppliedTo(s, t, workspace).value.status))
    ensures ChangedBy(s, Advance(config, s, t), workspace, Effect(s.rows[workspace], [], []))
  {
    StepIsLocal(config, s, t, workspace);
    if AppliedTo(s, t, workspace).Some? {
      assert EffectOn(config, s, t, workspace)
          == SubscriptionEffect(config, s.rows[workspace], AppliedTo(s, t, workspace).value, t.now);
    }
  }

  ghost predicate RetiredAt(config: Config, s: State, steps: seq<Timed>, workspace: Id, k: nat)
    requires workspace in s.rows && k < |steps|
  {
    var before := Before(config, s, steps, k);
    || CheckoutFor(before, steps[k], workspace).Some?
    || AppliesRunning(before, steps[k], workspace)
    || Lapses(RowAfter(config, s, steps[..k], workspace), steps[k], workspace)
  }

  // A grant stands, with the plan it gave, through any run that never does one of those three
  // things: no number of late events for the subscription that churned the customer, and no
  // number of page loads, takes it away.
  lemma {:induction false} GrantStands(config: Config, s: State, steps: seq<Timed>, workspace: Id)
    requires workspace in s.rows && s.rows[workspace].source == FromAdmin
    requires forall k :: 0 <= k < |steps| ==>
      !SetsPlan(steps[k], workspace) && !RetiredAt(config, s, steps, workspace, k)
    ensures var row := RowAfter(config, s, steps, workspace);
            && row.source == FromAdmin && row.plan == s.rows[workspace].plan
            && row.override == s.rows[workspace].override
  {
    if steps != [] {
      var front := steps[..|steps| - 1];
      assert forall k :: 0 <= k <= |front| ==> front[..k] == steps[..k];
      forall k | 0 <= k < |front|
        ensures !RetiredAt(config, s, front, workspace, k)
      {
        assert RetiredAt(config, s, front, workspace, k) == RetiredAt(config, s, steps, workspace, k);
      }
      GrantStands(config, s, front, workspace);
      RunKeepsWorkspaces(config, s, front);
      assert !RetiredAt(config, s, steps, workspace, |front|);
      GrantRetiredIff(config, Run(config, s, front), steps[|front|], workspace);
    }
  }
}
