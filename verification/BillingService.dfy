/**
 The billing service over its tables, statement by statement. Each handler is proved to move the
 state exactly as the function of BillingModel that the run theorems are about.
 */
module BillingService {
  import opened Wrappers
  import opened BillingModel
  import opened BillingReplay
  import opened Pricing
  import CountryDetection

  datatype BillingInfo = BillingInfo(
    enabled: bool,
    plan: Plan,
    billingInterval: Option<Interval>,
    status: Option<Status>,
    currentPeriodEnd: Option<Time>,
    cancelAtPeriodEnd: bool,
    paymentFailedAt: Option<Time>,
    graceEndsAt: Option<Time>,
    inGracePeriod: bool,
    limitsEnforced: bool)

  lemma PaidIgnoresClock(config: Config, s: State, invoice: Invoice, now: Time)
    ensures Handle(config, s, InvoicePaid(invoice), now) == Handle(config, s, InvoicePaid(invoice), 0)
  {
  }

  class BillingService {
    const config: Config
    const stripeEnabled: bool
    var organizations: map<Id, Row>
    var webhookEvents: set<Id>
    ghost var history: seq<Entry>
    ghost var mails: seq<Mail>

    constructor (config: Config, stripeEnabled: bool, organizations: map<Id, Row>)
      ensures this.config == config && this.stripeEnabled == stripeEnabled
      ensures Snapshot() == State(organizations, {}, [], [])
    {
      this.config := config;
      this.stripeEnabled := stripeEnabled;
      this.organizations := organizations;
      webhookEvents, history, mails := {}, [], [];
    }

    ghost function Snapshot(): State
      reads this
    {
      State(organizations, webhookEvents, history, mails)
    }

    ghost method Record(organization: Id, action: Action)
      modifies this`history
      ensures history == old(history) + Entries(organization, [action])
    {
      history := history + [Entry(organization, action)];
      assert Entries(organization, [action]) == [Entry(organization, action)];
    }

    ghost method Send(organization: Id, notice: Notice)
      requires organization in organizations
      modifies this`mails
      ensures mails == old(mails) + Addressed(organization, organizations[organization], [notice])
    {
      var row := organizations[organization];
      if row.ownerEmail.Some? {
        mails := mails + [Mail(organization, row.ownerEmail.value, notice)];
        assert Addressed(organization, row, [notice]) == [Mail(organization, row.ownerEmail.value, notice)];
      }
    }

    method HandleWebhookEvent(event: Event, now: Time)
      modifies this
      ensures Snapshot() == Deliver(config, old(Snapshot()), event, now)
    {
      if event.id in webhookEvents {
        return;
      }
      webhookEvents := webhookEvents + {event.id};
      match event.body {
        case CheckoutCompleted(organization, subscription) =>
          if organization.Some? && subscription.Some? {
            HandleCheckoutCompleted(organization.value, subscription.value);
          }
        case SubscriptionChanged(sub) =>
          ApplySubscriptionState(sub, now);
        case InvoicePaymentFailed(invoice) =>
          HandleInvoicePaymentFailed(invoice, now);
        case InvoicePaid(invoice) =>
          HandleInvoicePaid(invoice);
          PaidIgnoresClock(config, old(Snapshot()).(processed := webhookEvents), invoice, now);
        case OtherEvent =>
      }
    }

    method HandleCheckoutCompleted(organization: Id, subscription: Id)
      modifies this
      ensures Snapshot()
           == if organization in old(organizations)
              then Commit(old(Snapshot()), organization, CheckoutEffect(old(organizations)[organization], subscription))
              else old(Snapshot())
    {
      if organization !in organizations {
        return;
      }
      var before := organizations[organization].plan;
      var row := organizations[organization];
      row := row.(plan := Pro, subscription := Some(subscription));
      row := row.(source := FromStripe, override := NO_OVERRIDE);
      organizations := organizations[organization := row];
      if before != Pro {
        Record(organization, Upgraded(subscription));
      }
    }

    method HandleInvoicePaymentFailed(invoice: Invoice, now: Time)
      modifies this
      ensures Snapshot() == Handle(config, old(Snapshot()), InvoicePaymentFailed(invoice), now)
    {
      var organization := InvoiceOrganization(invoice);
      if organization.None? || organization.value !in organizations {
        return;
      }
      var previous := organizations[organization.value];
      var stamped := if previous.paymentFailedAt.Some? then previous.paymentFailedAt else Some(now);
      organizations := organizations[organization.value := previous.(paymentFailedAt := stamped)];
      var alreadyNotified := previous.paymentFailedAt.Some?;
      if alreadyNotified {
        return;
      }
      Record(organization.value, PaymentFailed(invoice.id));
      Send(organization.value, PaymentFailedNotice);
    }

    method HandleInvoicePaid(invoice: Invoice)
      modifies this
      ensures Snapshot() == Handle(config, old(Snapshot()), InvoicePaid(invoice), 0)
    {
      var organization := InvoiceOrganization(invoice);
      if organization.None? || organization.value !in organizations {
        return;
      }
      var row := organizations[organization.value];
      organizations := organizations[organization.value := row.(paymentFailedAt := None)];
      Record(organization.value, PaymentSucceeded(invoice.id));
      Send(organization.value, PaymentSucceededNotice);
    }

    method ApplySubscriptionState(sub: Subscription, now: Time)
      modifies this
      ensures Snapshot() == ApplySubscription(config, old(Snapshot()), sub, now)
    {
      if sub.organization.None? || sub.organization.value !in organizations {
        return;
      }
      var organization := sub.organization.value;
      var current := organizations[organization];
      if current.source == FromAdmin && Ended(sub.status) {
        CommitNothing(Snapshot(), organization);
        return;
      }
      var row := RowFromSubscription(current, sub, now);
      organizations := organizations[organization := row];
      RecordSubscriptionHistory(organization, current, row, sub);
      if current.plan == Pro && row.plan == Launch {
        Send(organization, PlanDowngradedNotice(row.graceEndsAt));
      }
    }

    // Nobody on Pro has a deadline; one that stands is kept; and a new one is given exactly to a
    // workspace that had Pro and now has not.
    method GraceFrom(current: Row, plan: Plan, now: Time) returns (graceEndsAt: Option<Time>)
      ensures plan == Pro ==> graceEndsAt.None?
      ensures plan == Launch && current.graceEndsAt.Some? ==> graceEndsAt == current.graceEndsAt
      ensures graceEndsAt.Some? && graceEndsAt != current.graceEndsAt ==>
                current.plan == Pro && graceEndsAt.value == now + GraceWindow(config)
      ensures current.plan == Pro && plan == Launch ==> graceEndsAt.Some?
    {
      var graceDays := if config.planGraceDays < 0 then 0 else config.planGraceDays;
      var droppingToLaunch := current.plan == Pro && plan == Launch;
      if droppingToLaunch {
        graceEndsAt := if current.graceEndsAt.Some? then current.graceEndsAt
                       else Some(now + graceDays * 24 * 60 * 60 * 1000);
      } else if plan == Pro {
        graceEndsAt := None;
      } else {
        graceEndsAt := current.graceEndsAt;
      }
    }

    // What the subscription UPDATE sets.
    method RowFromSubscription(current: Row, sub: Subscription, now: Time) returns (row: Row)
      ensures row == SubscriptionRow(config, current, sub, now)
    {
      var billingInterval := IntervalOf(config, sub.priceId);
      var plan := if Ended(sub.status) then Launch else Pro;
      var currency := sub.currency;
      var graceEndsAt := GraceFrom(current, plan, now);
      row := Row(
        plan,
        if billingInterval.Some? then billingInterval else current.billingInterval,
        current.customer,
        Some(sub.id),
        Some(sub.status),
        sub.periodEnd,
        sub.cancelAtPeriodEnd,
        if currency.Some? then currency else current.billingCurrency,
        graceEndsAt,
        if plan == Pro then None else current.paymentFailedAt,
        if plan == Pro then None else current.graceLockedNotifiedAt,
        FromStripe,
        NO_OVERRIDE,
        current.ownerEmail);
    }

    // A plan change and a change of the cancellation mark, each as one entry.
    ghost method RecordSubscriptionHistory(organization: Id, before: Row, after: Row, sub: Subscription)
      modifies this`history
      ensures history == old(history) + Entries(organization, SubscriptionActions(before, after, sub))
    {
      var actions := [];
      if before.plan != Pro && after.plan == Pro {
        Record(organization, Upgraded(sub.id));
        actions := [Upgraded(sub.id)];
      } else if before.plan == Pro && after.plan == Launch {
        Record(organization, Downgraded(sub.id, after.graceEndsAt));
        actions := [Downgraded(sub.id, after.graceEndsAt)];
      }
      assert history == old(history) + Entries(organization, actions);
      if after.plan == Pro && sub.cancelAtPeriodEnd != before.cancelAtPeriodEnd {
        var change := if sub.cancelAtPeriodEnd then CancelScheduled(sub.id) else CancelReverted(sub.id);
        Record(organization, change);
        assert Entries(organization, actions + [change])
               == Entries(organization, actions) + Entries(organization, [change]);
        actions := actions + [change];
      }
      assert actions == SubscriptionActions(before, after, sub);
    }

    method ReconcileDriftedPlan(organization: Id, world: World, now: Time)
      modifies this
      ensures Snapshot() == DriftCheck(config, old(Snapshot()), organization, world, now)
    {
      if organization !in organizations {
        return;
      }
      var row := organizations[organization];
      if row.source == FromAdmin {
        return;
      }
      var mayBeUnderProvisioned := row.plan == Launch && row.customer.Some? && row.subscription.None?;
      var mayBeOverProvisioned := row.plan == Pro && row.subscription.Some?;
      if !mayBeUnderProvisioned && !mayBeOverProvisioned {
        return;
      }
      if mayBeOverProvisioned {
        if row.subscription.value !in world.subscriptions {
          return;
        }
        var subscription := world.subscriptions[row.subscription.value];
        if !Ended(subscription.status) {
          return;
        }
        ApplySubscriptionState(Routed(subscription, organization), now);
        return;
      }
      if row.customer.value !in world.listing {
        return;
      }
      var live := FindFirstLive(world.listing[row.customer.value]);
      if live.None? {
        return;
      }
      ApplySubscriptionState(Routed(live.value, organization), now);
    }

    // The first listed subscription Stripe would bill.
    static method FindFirstLive(subs: seq<Subscription>) returns (found: Option<Subscription>)
      ensures found == FindLive(subs)
      ensures found.Some? <==> exists i :: 0 <= i < |subs| && Live(subs[i].status)
      ensures found.Some? ==> exists i :: 0 <= i < |subs| && subs[i] == found.value && Live(subs[i].status)
                                       && forall k :: 0 <= k < i ==> !Live(subs[k].status)
    {
      var i := 0;
      while i < |subs|
        invariant 0 <= i <= |subs|
        invariant forall k :: 0 <= k < i ==> !Live(subs[k].status)
        invariant FindLive(subs) == FindLive(subs[i..])
      {
        if Live(subs[i].status) {
          return Some(subs[i]);
        }
        assert subs[i..][1..] == subs[i + 1..];
        i := i + 1;
      }
      return None;
    }

    // The listed subscription, named if it names nobody; an error if Stripe cannot list the customer
    // or will not take the name.
    method ListedSubscription(organization: Id, world: World) returns (listed: Result<Option<Subscription>, string>)
      requires organization in organizations
      ensures var row := organizations[organization];
              && (listed.Err? <==> ReconcileFails(row, world))
              && (listed.Ok? ==>
                    listed.value == if ListedChoice(row, world).None? then None
                                    else Some(Routed(ListedChoice(row, world).value, organization)))
    {
      var customer := organizations[organization].customer;
      if customer.None? {
        return Ok(None);
      }
      if customer.value !in world.listing {
        return Err("Stripe request failed");
      }
      var subs := world.listing[customer.value];
      var subscription := FindFirstLive(subs);
      if subscription.None? && subs != [] {
        subscription := Some(subs[0]);
      }
      if subscription.None? {
        return Ok(None);
      }
      if subscription.value.organization.None? && subscription.value.id !in world.updatable {
        return Err("Stripe request failed");
      }
      return Ok(Some(Routed(subscription.value, organization)));
    }

    // When nothing can be listed or named, nothing is touched either.
    method ReconcileFromStripe(organization: Id, world: World, now: Time) returns (info: Result<BillingInfo, string>)
      requires stripeEnabled && organization in organizations
      modifies this
      ensures organization in organizations
      ensures Snapshot() == Reconcile(config, old(Snapshot()), organization, world, now)
      ensures info.Err? <==> ReconcileFails(old(organizations)[organization], world)
      ensures info.Ok? ==> Describes(info.value, organizations[organization], now)
    {
      var listed :- ListedSubscription(organization, world);
      if listed.Some? {
        ApplySubscriptionState(listed.value, now);
      }
      var page := GetBillingInfo(organization, world, now);
      return Ok(page);
    }

    // What the page shows agrees with the row it is read from, and the workspace is in its grace
    // window, past it, or was never owed one.
    ghost predicate Describes(info: BillingInfo, row: Row, now: Time)
      reads this
    {
      && info.enabled
      && info.plan == row.plan && info.billingInterval == row.billingInterval
      && info.status == row.subscriptionStatus && info.currentPeriodEnd == row.currentPeriodEnd
      && info.cancelAtPeriodEnd == row.cancelAtPeriodEnd
      && info.paymentFailedAt == row.paymentFailedAt && info.graceEndsAt == row.graceEndsAt
      && (info.inGracePeriod <==> InGracePeriod(row, now))
      && (info.limitsEnforced <==> LimitsEnforced(row, now))
    }

    // With billing switched off the page unlocks Pro and neither asks Stripe nor writes anything.
    method GetBillingInfo(organization: Id, world: World, now: Time) returns (info: BillingInfo)
      modifies this
      ensures !stripeEnabled ==>
                Snapshot() == old(Snapshot())
                  && info == BillingInfo(false, Pro, None, None, None, false, None, None, false, false)
      ensures stripeEnabled ==> Snapshot() == DriftCheck(config, old(Snapshot()), organization, world, now)
      ensures stripeEnabled && organization in organizations ==> Describes(info, organizations[organization], now)
    {
      if !stripeEnabled {
        return BillingInfo(false, Pro, None, None, None, false, None, None, false, false);
      }
      ReconcileDriftedPlan(organization, world, now);
      if organization !in organizations {
        return BillingInfo(true, Launch, None, None, None, false, None, None, false, false);
      }
      var row := organizations[organization];
      var inGracePeriod := row.plan == Launch && row.graceEndsAt.Some? && row.graceEndsAt.value > now;
      return BillingInfo(true, row.plan, row.billingInterval, row.subscriptionStatus, row.currentPeriodEnd,
                         row.cancelAtPeriodEnd, row.paymentFailedAt, row.graceEndsAt, inGracePeriod,
                         row.plan == Launch && row.graceEndsAt.Some? && !inGracePeriod);
    }

    // ------------------------------------------------------------------------------------
    // Quotes and checkout
    // ------------------------------------------------------------------------------------

    method LockedCurrencyFor(organization: Id, world: World) returns (locked: Result<Option<Currency>, PricingError>)
      requires organization in organizations
      modifies this`organizations
      ensures locked == LockedCurrency(old(organizations)[organization], world)
      ensures organizations == old(organizations)[organization := AfterPricing(old(organizations)[organization], world)]
    {
      var row := organizations[organization];
      assert organizations[organization := row] == organizations;
      if row.billingCurrency.Some? {
        return Ok(row.billingCurrency);
      }
      if row.customer.None? {
        return Ok(None);
      }
      if row.customer.value !in world.customers {
        return Err(StripeFailed);
      }
      var customer := world.customers[row.customer.value];
      if customer.deleted || !customer.pin.In? || !customer.invoiced {
        return Ok(None);
      }
      organizations := organizations[organization := row.(billingCurrency := Some(customer.pin.currency))];
      return Ok(Some(customer.pin.currency));
    }

    // A quote and the checkout that follows it go through the same lock, currency and price.
    method QuoteFor(organization: Id, world: World, country: CountryDetection.Resolution, request: Request)
      returns (quote: Result<Quote, PricingError>)
      requires organization in organizations
      modifies this`organizations
      ensures quote == Pricing.GetPricing(config, old(organizations)[organization], world, country, request)
      ensures organizations == old(organizations)[organization := AfterPricing(old(organizations)[organization], world)]
    {
      var locked := LockedCurrencyFor(organization, world);
      if locked.Err? {
        return Err(locked.error);
      }
      var eligible := IndiaEligible(locked.value, country);
      var currency := ResolveCurrency(request, locked.value, eligible);
      if currency.Err? {
        return Err(currency.error);
      }
      var monthly := ResolvePrice(config, Monthly, currency.value);
      var annual := ResolvePrice(config, Annual, currency.value);
      return Ok(Quote(monthly, annual, InrConfigured(config) && eligible, locked.value.Some?,
                      if locked.value.Some? then CountryDetection.Override else country.source));
    }

    static method Retrieve(prices: map<string, Reported>, price: Price)
      returns (r: Result<Option<Reported>, PricingError>)
      ensures r == if Retrieved(prices, price) then Ok(ReportedAs(prices, price)) else Err(StripeFailed)
    {
      if price.id == "" {
        return Ok(None);
      }
      if price.id !in prices {
        return Err(StripeFailed);
      }
      return Ok(Some(prices[price.id]));
    }

    // The amounts and the currency shown are Stripe's own.
    method GetPricing(organization: Id, world: World, country: CountryDetection.Resolution,
                      requested: Option<string>, prices: map<string, Reported>)
      returns (page: Result<Page, PricingError>)
      requires organization in organizations
      modifies this`organizations
      ensures var quote := Pricing.GetPricing(config, old(organizations)[organization], world, country,
                                              ReadRequest(requested));
              page == if quote.Err? then Err(quote.error) else PageOf(quote.value, prices)
      ensures organizations == old(organizations)[organization := AfterPricing(old(organizations)[organization], world)]
    {
      var quote :- QuoteFor(organization, world, country, ReadRequest(requested));
      var monthly :- Retrieve(prices, quote.monthly);
      var annual :- Retrieve(prices, quote.annual);
      var currency := if monthly.Some? then monthly.value.currency
                      else if annual.Some? then annual.value.currency else "usd";
      return Ok(Page(currency, AmountOf(monthly), AmountOf(annual), quote.inrAvailable, quote.currencyLocked,
                     quote.source));
    }

    method ResolveStripeCustomerId(organization: Id, world: World, currency: Currency, created: Option<Id>)
      returns (customer: Result<Id, PricingError>)
      requires organization in organizations
      modifies this`organizations
      ensures var resolved := ResolveCustomer(old(organizations)[organization], world, currency, created);
              if resolved.Err? then customer == Err(resolved.error) && organizations == old(organizations)
              else customer == Ok(resolved.value.0)
                   && organizations == old(organizations)[organization := resolved.value.1]
    {
      var row := organizations[organization];
      assert organizations[organization := row] == organizations;
      if row.customer.Some? {
        if row.customer.value !in world.customers {
          return Err(StripeFailed);
        }
        var existing := world.customers[row.customer.value];
        var pinned := if existing.deleted || !existing.pin.In? then None else Some(existing.pin.currency);
        if pinned.None? || pinned == Some(currency) {
          return Ok(row.customer.value);
        }
        if existing.invoiced {
          return Ok(row.customer.value);
        }
      }
      if created.None? {
        return Err(StripeFailed);
      }
      organizations := organizations[organization := row.(customer := created, billingCurrency := None)];
      return Ok(created.value);
    }

    // Only an owner may, and only for one of the two intervals; refused for either, nothing is read
    // or written. Otherwise Stripe is asked for the session the checkout theorems are about, and the
    // caller is given its address.
    method CreateCheckoutSession(organization: Id, isOwner: bool, interval: string, requested: Option<string>,
                                 world: World, country: CountryDetection.Resolution, created: Option<Id>,
                                 answer: SessionAnswer)
      returns (url: Result<string, PricingError>)
      requires stripeEnabled && organization in organizations
      modifies this`organizations
      ensures !isOwner ==> url == Err(OwnerOnly)
      ensures isOwner && ReadInterval(interval).None? ==> url == Err(BadInterval)
      ensures !isOwner || ReadInterval(interval).None? ==> organizations == old(organizations)
      ensures isOwner && ReadInterval(interval).Some? ==>
                var row := old(organizations)[organization];
                var a := Attempt(world, country, ReadRequest(requested), ReadInterval(interval).value, created);
                && organizations == old(organizations)[organization := AfterCheckout(config, row, a)]
                && url == if Checkout(config, row, a).Err? then Err(Checkout(config, row, a).error) else UrlOf(answer)
    {
      if !isOwner {
        return Err(OwnerOnly);
      }
      if ReadInterval(interval).None? {
        return Err(BadInterval);
      }
      var a := Attempt(world, country, ReadRequest(requested), ReadInterval(interval).value, created);
      var session := OpenSession(organization, a);
      if session.Err? {
        return Err(session.error);
      }
      match answer
      case Refused => return Err(StripeFailed);
      case WithoutUrl => return Err(NoUrl);
      case OpenedAt(address) => return Ok(address);
    }

    method OpenSession(organization: Id, a: Attempt) returns (session: Result<Session, PricingError>)
      requires organization in organizations
      modifies this`organizations
      ensures session == Checkout(config, old(organizations)[organization], a)
      ensures organizations
              == old(organizations)[organization := AfterCheckout(config, old(organizations)[organization], a)]
    {
      var locked := LockedCurrencyFor(organization, a.world);
      if locked.Err? {
        return Err(locked.error);
      }
      var currency := ResolveCurrency(a.request, locked.value, IndiaEligible(locked.value, a.country));
      if currency.Err? {
        return Err(currency.error);
      }
      var price := ResolvePrice(config, a.interval, currency.value);
      if price.id == "" {
        return Err(NotConfigured);
      }
      var customer := ResolveStripeCustomerId(organization, a.world, currency.value, a.created);
      if customer.Err? {
        return Err(customer.error);
      }
      if Some(customer.value) != a.created {
        if customer.value !in a.world.listing {
          return Err(StripeFailed);
        }
        var live := FindFirstLive(a.world.listing[customer.value]);
        if live.Some? {
          return Err(AlreadySubscribed);
        }
      }
      return Ok(Session(price, customer.value));
    }
  }
}
