/**
 The organizations row, the Stripe objects the billing service reads, and the effect of each
 handler as a function of the row, the incoming object and the clock.
 Entries are appended for workspaces that exist only: audit_logs.organization_id is a foreign
 key and the logging helper swallows the error.
 */
module BillingModel {
  import opened Wrappers
  import opened Text

  // Identifiers the code tests for truthiness before using them; the empty string is "absent".
  type Id = s: string | s != "" witness "id"

  // Milliseconds since the epoch.
  type Time = int

  datatype Plan = Launch | Pro
  datatype Interval = Monthly | Annual
  datatype Currency = Usd | Inr
  datatype PlanSource = FromStripe | FromAdmin

  datatype Status = Active | Trialing | PastDue | Unpaid | Incomplete | IncompleteExpired | Canceled | Paused

  predicate Ended(status: Status) {
    status.Canceled? || status.Unpaid? || status.IncompleteExpired?
  }

  predicate Live(status: Status) {
    status.Active? || status.Trialing? || status.PastDue? || status.Unpaid? || status.Incomplete?
  }

  // The word Stripe uses.
  function StatusWord(status: Status): string {
    match status
    case Active => "active"
    case Trialing => "trialing"
    case PastDue => "past_due"
    case Unpaid => "unpaid"
    case Incomplete => "incomplete"
    case IncompleteExpired => "incomplete_expired"
    case Canceled => "canceled"
    case Paused => "paused"
  }

  const ENDED_WORDS := ["canceled", "unpaid", "incomplete_expired"]
  const LIVE_WORDS := ["active", "trialing", "past_due", "unpaid", "incomplete"]

  // Which statuses count as ended and which as billable, by the words of the two sets.
  lemma StatusesAreTheirWords(status: Status)
    ensures Ended(status) <==> StatusWord(status) in ENDED_WORDS
    ensures Live(status) <==> StatusWord(status) in LIVE_WORDS
  {
  }

  datatype Override = Override(setBy: Option<string>, at: Option<Time>, reason: Option<string>, expiresAt: Option<Time>)

  const NO_OVERRIDE := Override(None, None, None, None)

  datatype Row = Row(
    plan: Plan,
    billingInterval: Option<Interval>,
    customer: Option<Id>,
    subscription: Option<Id>,
    subscriptionStatus: Option<Status>,
    currentPeriodEnd: Option<Time>,
    cancelAtPeriodEnd: bool,
    billingCurrency: Option<Currency>,
    graceEndsAt: Option<Time>,
    paymentFailedAt: Option<Time>,
    graceLockedNotifiedAt: Option<Time>,
    source: PlanSource,
    override: Override,
    ownerEmail: Option<string>)

  datatype Config = Config(
    usdMonthly: string,
    usdAnnual: string,
    inrMonthly: string,
    inrAnnual: string,
    planGraceDays: int)

  // `currency` is the price's currency code as AsCurrency reads it.
  datatype Subscription = Subscription(
    id: Id,
    status: Status,
    organization: Option<Id>,
    priceId: string,
    currency: Option<Currency>,
    periodEnd: Option<Time>,
    cancelAtPeriodEnd: bool)

  // The currency Stripe has fixed for a customer, which may be one the service does not sell in.
  datatype Pin = Unpinned | In(currency: Currency) | Elsewhere

  datatype Customer = Customer(deleted: bool, pin: Pin, invoiced: bool)

  // `byCustomer` is the database's answer for the invoice's customer id.
  datatype Invoice = Invoice(id: Id, fromMetadata: Option<Id>, byCustomer: Option<Id>)

  datatype EventBody =
    | CheckoutCompleted(organization: Option<Id>, subscription: Option<Id>)
    | SubscriptionChanged(changed: Subscription)
    | InvoicePaymentFailed(failed: Invoice)
    | InvoicePaid(paid: Invoice)
    | OtherEvent

  datatype Event = Event(id: Id, body: EventBody)

  // What Stripe answers at one moment. An id outside a map's domain is a request that fails, and
  // `updatable` are the subscriptions whose metadata it would change when asked.
  datatype World = World(
    subscriptions: map<Id, Subscription>,
    listing: map<Id, seq<Subscription>>,
    customers: map<Id, Customer>,
    updatable: set<Id>)

  datatype Action =
    | Upgraded(subscription: Id)
    | Downgraded(subscription: Id, limitsApplyFrom: Option<Time>)
    | GrantExpired
    | CancelScheduled(subscription: Id)
    | CancelReverted(subscription: Id)
    | PaymentFailed(invoice: Id)
    | PaymentSucceeded(invoice: Id)

  datatype Notice =
    | PaymentFailedNotice
    | PaymentSucceededNotice
    | PlanDowngradedNotice(graceEndsAt: Option<Time>)

  datatype Entry = Entry(organization: Id, action: Action)
  datatype Mail = Mail(organization: Id, to: string, notice: Notice)

  datatype State = State(rows: map<Id, Row>, processed: set<Id>, history: seq<Entry>, mails: seq<Mail>)

  // What one handler does to one workspace: its new row, its history entries, its notices.
  datatype Effect = Effect(row: Row, actions: seq<Action>, notices: seq<Notice>)

  function Entries(organization: Id, actions: seq<Action>): seq<Entry> {
    seq(|actions|, i requires 0 <= i < |actions| => Entry(organization, actions[i]))
  }

  // Mail goes to the workspace's owner; a workspace without one gets none.
  function Addressed(organization: Id, row: Row, notices: seq<Notice>): seq<Mail> {
    if row.ownerEmail.None? then []
    else seq(|notices|, i requires 0 <= i < |notices| => Mail(organization, row.ownerEmail.value, notices[i]))
  }

  function Commit(s: State, organization: Id, effect: Effect): State
    requires organization in s.rows
  {
    s.(rows := s.rows[organization := effect.row],
       history := s.history + Entries(organization, effect.actions),
       mails := s.mails + Addressed(organization, s.rows[organization], effect.notices))
  }

  function AsCurrency(code: string): Option<Currency> {
    var v := Lower(Trim(code));
    if v == "usd" then Some(Usd) else if v == "inr" then Some(Inr) else None
  }

  // The pin behind a customer's currency code.
  function PinOfCode(code: Option<string>): Pin {
    if code.None? || Trim(code.value) == "" then Unpinned
    else if AsCurrency(code.value).Some? then In(AsCurrency(code.value).value)
    else Elsewhere
  }

  function Max(a: int, b: int): int {
    if a >= b then a else b
  }

  function GraceWindow(config: Config): Time {
    Max(0, config.planGraceDays) * 24 * 60 * 60 * 1000
  }

  function PlanFor(status: Status): Plan {
    if Ended(status) then Launch else Pro
  }

  function IntervalOf(config: Config, priceId: string): Option<Interval> {
    if priceId == config.usdMonthly || priceId == config.inrMonthly then Some(Monthly)
    else if priceId == config.usdAnnual || priceId == config.inrAnnual then Some(Annual)
    else None
  }

  function Coalesce<T>(first: Option<T>, second: Option<T>): Option<T> {
    if first.Some? then first else second
  }

  // An ended subscription does not get to change a plan that an operator granted.
  predicate Defended(row: Row, sub: Subscription) {
    row.source == FromAdmin && Ended(sub.status)
  }

  function GraceAfter(config: Config, row: Row, plan: Plan, now: Time): Option<Time> {
    if row.plan == Pro && plan == Launch then Coalesce(row.graceEndsAt, Some(now + GraceWindow(config)))
    else if plan == Pro then None
    else row.graceEndsAt
  }

  function SubscriptionRow(config: Config, row: Row, sub: Subscription, now: Time): Row {
    var plan := PlanFor(sub.status);
    row.(plan := plan,
         billingInterval := Coalesce(IntervalOf(config, sub.priceId), row.billingInterval),
         subscription := Some(sub.id),
         subscriptionStatus := Some(sub.status),
         currentPeriodEnd := sub.periodEnd,
         cancelAtPeriodEnd := sub.cancelAtPeriodEnd,
         billingCurrency := Coalesce(sub.currency, row.billingCurrency),
         graceEndsAt := GraceAfter(config, row, plan, now),
         paymentFailedAt := if plan == Pro then None else row.paymentFailedAt,
         graceLockedNotifiedAt := if plan == Pro then None else row.graceLockedNotifiedAt,
         source := FromStripe,
         override := NO_OVERRIDE)
  }

  function SubscriptionActions(row: Row, after: Row, sub: Subscription): seq<Action> {
    (if row.plan == Launch && after.plan == Pro then [Upgraded(sub.id)]
     else if row.plan == Pro && after.plan == Launch then [Downgraded(sub.id, after.graceEndsAt)]
     else [])
    + (if after.plan == Pro && sub.cancelAtPeriodEnd != row.cancelAtPeriodEnd then
         [if sub.cancelAtPeriodEnd then CancelScheduled(sub.id) else CancelReverted(sub.id)]
       else [])
  }

  function SubscriptionEffect(config: Config, row: Row, sub: Subscription, now: Time): Effect {
    if Defended(row, sub) then Effect(row, [], [])
    else
      var after := SubscriptionRow(config, row, sub, now);
      Effect(after, SubscriptionActions(row, after, sub),
             if row.plan == Pro && after.plan == Launch then [PlanDowngradedNotice(after.graceEndsAt)] else [])
  }

  function CheckoutEffect(row: Row, subscription: Id): Effect {
    Effect(row.(plan := Pro, subscription := Some(subscription), source := FromStripe, override := NO_OVERRIDE),
           if row.plan != Pro then [Upgraded(subscription)] else [], [])
  }

  function PaymentFailedEffect(row: Row, invoice: Invoice, now: Time): Effect {
    Effect(row.(paymentFailedAt := Coalesce(row.paymentFailedAt, Some(now))),
           if row.paymentFailedAt.Some? then [] else [PaymentFailed(invoice.id)],
           if row.paymentFailedAt.Some? then [] else [PaymentFailedNotice])
  }

  function PaymentSucceededEffect(row: Row, invoice: Invoice): Effect {
    Effect(row.(paymentFailedAt := None), [PaymentSucceeded(invoice.id)], [PaymentSucceededNotice])
  }

  function InvoiceOrganization(invoice: Invoice): Option<Id> {
    Coalesce(invoice.fromMetadata, invoice.byCustomer)
  }

  // A subscription without a workspace in its metadata, or with an unknown one, changes nothing.
  function ApplySubscription(config: Config, s: State, sub: Subscription, now: Time): State {
    if sub.organization.Some? && sub.organization.value in s.rows then
      Commit(s, sub.organization.value,
             SubscriptionEffect(config, s.rows[sub.organization.value], sub, now))
    else s
  }

  function Handle(config: Config, s: State, body: EventBody, now: Time): State {
    match body
    case CheckoutCompleted(organization, subscription) =>
      if organization.Some? && subscription.Some? && organization.value in s.rows then
        Commit(s, organization.value, CheckoutEffect(s.rows[organization.value], subscription.value))
      else s
    case SubscriptionChanged(sub) => ApplySubscription(config, s, sub, now)
    case InvoicePaymentFailed(invoice) =>
      var organization := InvoiceOrganization(invoice);
      if organization.Some? && organization.value in s.rows then
        Commit(s, organization.value, PaymentFailedEffect(s.rows[organization.value], invoice, now))
      else s
    case InvoicePaid(invoice) =>
      var organization := InvoiceOrganization(invoice);
      if organization.Some? && organization.value in s.rows then
        Commit(s, organization.value, PaymentSucceededEffect(s.rows[organization.value], invoice))
      else s
    case OtherEvent => s
  }

  // The event id is recorded before the event is handled, so a second delivery finds it taken.
  function Deliver(config: Config, s: State, event: Event, now: Time): State {
    if event.id in s.processed then s
    else Handle(config, s.(processed := s.processed + {event.id}), event.body, now)
  }

  // Fills the workspace in when the subscription's metadata has none.
  function Routed(sub: Subscription, organization: Id): Subscription {
    if sub.organization.Some? then sub else sub.(organization := Some(organization))
  }

  function FindLive(subs: seq<Subscription>): (r: Option<Subscription>)
    ensures r.Some? ==> r.value in subs && Live(r.value.status)
    ensures r.None? ==> forall sub :: sub in subs ==> !Live(sub.status)
  {
    if subs == [] then None
    else if Live(subs[0].status) then Some(subs[0])
    else FindLive(subs[1..])
  }

  // The subscription a drift check applies to the workspace it is run for, if any.
  function DriftChoice(row: Row, world: World): Option<Subscription> {
    if row.source == FromAdmin then None
    else if row.plan == Pro && row.subscription.Some? then
      if row.subscription.value in world.subscriptions
         && Ended(world.subscriptions[row.subscription.value].status)
      then Some(world.subscriptions[row.subscription.value])
      else None
    else if row.plan == Launch && row.customer.Some? && row.subscription.None? then
      if row.customer.value in world.listing then FindLive(world.listing[row.customer.value]) else None
    else None
  }

  function DriftCheck(config: Config, s: State, organization: Id, world: World, now: Time): State {
    if organization !in s.rows then s
    else
      var choice := DriftChoice(s.rows[organization], world);
      if choice.None? then s
      else ApplySubscription(config, s, Routed(choice.value, organization), now)
  }

  // A billable subscription if the customer has one, else the most recent.
  function ListedChoice(row: Row, world: World): Option<Subscription> {
    if row.customer.None? || row.customer.value !in world.listing then None
    else
      var subs := world.listing[row.customer.value];
      var live := FindLive(subs);
      if live.Some? then live else if subs == [] then None else Some(subs[0])
  }

  function ApplyListed(config: Config, s: State, organization: Id, world: World, now: Time): State {
    if organization !in s.rows then s
    else
      var choice := ListedChoice(s.rows[organization], world);
      if choice.None? then s
      else ApplySubscription(config, s, Routed(choice.value, organization), now)
  }

  predicate ListingFails(row: Row, world: World) {
    row.customer.Some? && row.customer.value !in world.listing
  }

  // The listed subscription names no workspace, and Stripe will not take the name.
  predicate WriteBackFails(row: Row, world: World) {
    var choice := ListedChoice(row, world);
    choice.Some? && choice.value.organization.None? && choice.value.id !in world.updatable
  }

  predicate ReconcileFails(row: Row, world: World) {
    ListingFails(row, world) || WriteBackFails(row, world)
  }

  // The post-checkout reconcile: the listed subscription is applied, then the page is loaded,
  // which checks for drift. A refusal by Stripe stops it before either.
  function Reconcile(config: Config, s: State, organization: Id, world: World, now: Time): State {
    if organization in s.rows && ReconcileFails(s.rows[organization], world) then s
    else DriftCheck(config, ApplyListed(config, s, organization, world, now), organization, world, now)
  }

  predicate InGracePeriod(row: Row, now: Time) {
    row.plan == Launch && row.graceEndsAt.Some? && row.graceEndsAt.value > now
  }

  predicate LimitsEnforced(row: Row, now: Time) {
    row.plan == Launch && row.graceEndsAt.Some? && !InGracePeriod(row, now)
  }
}
