# Tesbo: billing, automation ingest and their helpers, modelled and proved

A Dafny model of the stateful core of the Tesbo backend and of the data helpers its suites rest
on, with proofs of what holds over every run, every interleaving and every input. `dafny verify
dfyconfig.toml` checks the whole project.

- **Billing lifecycle** (`Billing*.dfy`, `Pricing.dfy`). One `organizations` row is written by
  Stripe webhooks, two reconcile paths, checkout, quotes and operators. `BillingModel` gives each
  handler's effect as a function of the row, the Stripe object and the clock; `BillingService` is
  the service itself, a class over its tables whose methods are proved to move the state as those
  functions say; `BillingRuns` lets any steps follow one another, repeat, and throw before their
  first write or between their writes and their mail. On top stand the upgrade ledger, the two
  first-write-wins timestamps, dunning, grace, replay, reconciliation and operator grants, what the
  history and the mail say (`BillingEntries`), and the currency, price and customer of a checkout.
  `BillingRace` cuts the handlers at their statements.
- **Country detection** (`CountryDetection.dfy`, `CountryCache.dfy`). The order of trust among
  signals, and the bounded cache with one upstream request per address under concurrent callers.
- **Automation ingest** (`Ingest*.dfy`, `RunRace.dfy`, `ResultRace.dfy`, `AutomationStatus.dfy`).
  The tables and SQL statements, the service methods over them, every run of the ingest, and
  `createRun` and `recordResult` cut at their statements with any number of racing callers.
- **Custom fields** (`CustomFieldFilters.dfy`, `FieldConfig.dfy`). The filter compiler against a
  three-valued semantics of the SQL it emits, and the validation of configurations and values.
- **Suite helpers** (`Csv.dfy`, `Zip.dfy`, `RouteCoverage.dfy`, `RoutePaths.dfy`). A CSV printer
  and scanner (section 2 of RFC 4180), a zip reader against the layout of sections 4.3.7, 4.3.12
  and 4.3.16 of the PKWARE ZIP APPNOTE, and route attribution.

Stripe, ip-api, the database's own answers, the clock and generated ids are parameters. A Stripe
id outside the answering map is a request that fails. Identifiers the code tests for truthiness
are non-empty strings or absent.

## Where the code and its documentation part

The model follows the code. Each of these is proved with the exact condition, and where a promise
fails, with a run or an input that shows it.

- A `past_due` subscription event is not an ended one, so it clears `payment_failed_at`
  (billing.service.ts:1035). The retry of the same unpaid invoice is then recorded and mailed
  again: `RetryMailedIff`; the run, `PastDueMailsTwice`.
- A failed payment is recorded before its owner is looked up (billing.service.ts:524-550). If the
  lookup throws, neither the redelivery nor the next retry mails the owner: `FailureMailedIff`,
  `DunningLedger`; the run, `UnmailedFailureStaysUnmailed`.
- Checkout sets the plan to Pro but leaves `plan_grace_ends_at` (billing.service.ts:456-474). If
  Pro is lost again before a subscription event clears it, the old deadline is kept, so a
  workspace may get no window at all: `FullWindowIff`, `LeftOverOrigin`; the run,
  `RebuyerGetsNoWindow`.
- A webhook's id is recorded before the event is handled (billing.service.ts:440-447). If handling
  then throws, Stripe's retry finds the id taken, and what was not done yet is never done:
  `EventAppliedIff`; the run, `FailedDeliveryIsLost`.
- A drift check may apply a subscription whose metadata names another workspace, and then changes
  that one: `DriftReachesIff`; the run, `DriftUpgradesAnother`. Between such subscriptions repeated
  reconciles may upgrade and downgrade the other workspace for ever: `ReconcileIsStable`; the
  rounds, `NeverSettles`.
- `unpaid` counts both as billable and as ended (billing.service.ts:89-94), so the reconcile that
  prefers a billable subscription may take Pro away while an active one is listed behind:
  `ReconcileKeepsProIff`; the run, `UnpaidHidesActive`.
- An ended event is applied whichever subscription the workspace has on record, and the drift check
  that is to heal a lost plan looks customers up only for workspaces without one: `EndedTakesPro`,
  `DriftRestoresIff`; the run, `LateEndTakesPro`.
- `incomplete` is no ended status, so a subscription whose first payment never succeeds gives Pro,
  and its expiry a full grace window: `ProOrigin`; the run, `NeverPaidGetsProAndWindow`.
- The history is there so that a workspace sees what changed (billing.service.ts:1041). A scheduled or
  reverted cancellation is recorded only while the workspace is on Pro (billing.service.ts:1061-1071),
  so an ended subscription changes the mark without an entry, and the trail no longer alternates with
  it: `MarkLedger`, `MarksAlternate`; the input, `EndUnmarksSilently`.
- The `!wasPro` guard is to stop checkout and subscription handler double-recording one upgrade
  (billing.service.ts:485-486). Both compare with the plan as they selected it, so it does unless one
  is overtaken between its SELECT and its UPDATE: `OneUpgradeIff`; the run, `UpgradeRecordedTwice`.
- "A conflict can't reach here" (billing.service.ts:892-893) holds as long as the mirrored currency
  is the billed customer's own, which one applied subscription can change:
  `CheckoutFitsCustomerIff`, `AgreeingMirrorFits`; the run, `ForeignSubscriptionMisfits`. When the
  INR prices are not configured the price falls back to USD after the customer was chosen for INR
  (billing.service.ts:741-755): the input, `UnconfiguredInrReachesStripe`. A customer pinned to a
  third currency is read as unpinned and kept, billed or not (billing.service.ts:903-904), and so is
  a deleted one: the inputs, `ThirdCurrencyMisfits`, `DeletedCustomerMisfits`.
- The guard against a second subscription asks about the customer, not the workspace
  (billing.service.ts:868-879), so it does not see one held by a customer since replaced:
  `RefusedAsSubscribedIff`; the input, `SwappedCustomerBuysTwice`.
- The filter compiler does not check that an operator suits its field: one stored value that does
  not cast fails the whole listing: `ComparableIff`, `ListingIsMeeting`; the input,
  `OneWordSpoilsTheListing`.
- A default may not pass as a value. A multi-select's `defaultOptionIds` may break its own bounds:
  `DefaultSelectionPassesIff`, `DefaultSelectionTooFew`. A non-string single-select default is
  looked up by its text but compared strictly: `DefaultOptionPassesIff`, `DefaultByNumberRefused`.
  A select's `defaultValue` is accepted unseen: `SelectDefaultValueUnchecked`,
  `SelectDefaultPassesIff`, `DefaultUnknownRefused`. A text default keeps the outer space a typed
  value loses: `DefaultPasses`.
- An accepted multi-select may demand more options than are active, and a whole-number field may
  have no whole number within its bounds, so that no value is ever accepted: `SomeSelectionIff`,
  `NoSelectionMeets`; `SomeNumberIff`, `NoNumberMeets`.
- A row without cells is written like a row of one empty cell, and a last row of one empty cell is
  not read back: `RoundTrip`; the input, `LastEmptyRowIsLost`.
- The empty route is never credited, since `if (best)` takes it for no match: `DeclaredIsItsOwn`.
- A zip comment that shows the end-record signature misleads the backward search: `EndRecordFound`;
  the input, `CommentMisleads`.

## Model

| member | source | states |
|---|---|---|
| `BillingRuns.StepIsLocal` | Tesbo-Backend-Nest/src/billing/billing.service.ts:440-514 | whatever a delivery, drift check, reconcile, pricing write or operator change does, and however far it gets before throwing, one workspace's row, history and mail change by exactly the effect addressed to it, and no other workspace's change at all |
| `BillingRuns.HandleIsLocal` | Tesbo-Backend-Nest/src/billing/billing.service.ts:440-514 | one event body changes exactly the workspace it names, by checkout, subscription or invoice effect |
| `BillingRuns.DriftIsLocal` | Tesbo-Backend-Nest/src/billing/billing.service.ts:212-271 | a drift check changes any workspace, its own or another, by exactly the effect of the subscription it finds for that workspace, and not at all otherwise |
| `BillingRuns.RunKeepsWorkspaces` | Tesbo-Backend-Nest/src/billing/billing.service.ts:440-514 | no run of handlers creates or removes a workspace |
| `BillingRuns.DeliveryMarks` | Tesbo-Backend-Nest/src/billing/billing.service.ts:440-447 | only a delivery marks an event id as seen, and it marks its own |
| `BillingLedger.UpgradeLedger` | Tesbo-Backend-Nest/src/billing/billing.service.ts:450-495 | from Launch, over every run of deliveries and reconciles without operator changes to the workspace: upgrades minus downgrades recorded is 1 on Pro and 0 on Launch, and the two strictly alternate |
| `BillingLedger.LedgerInvariant` | Tesbo-Backend-Nest/src/billing/billing.service.ts:1043-1059 | the alternation and the parity of the trail with the plan are kept from any state that has them |
| `BillingLedger.SubscriptionRecordsPlanChange` | Tesbo-Backend-Nest/src/billing/billing.service.ts:975-1059 | applying a subscription records an upgrade exactly when it moves the plan to Pro and a downgrade exactly when it moves it to Launch |
| `BillingLedger.EventRecordsPlanChange` | Tesbo-Backend-Nest/src/billing/billing.service.ts:450-514 | the same of every webhook event, the checkout's own upgrade entry included |
| `BillingLedger.AlternatingCounts` | Tesbo-Backend-Nest/src/billing/billing.service.ts:475-484 | an alternating trail that starts with an upgrade has as many of both kinds, or one upgrade more |
| `BillingEntries.SubscriptionEntries` | Tesbo-Backend-Nest/src/billing/billing.service.ts:1041-1084 | read off the row before and the row after alone: an upgrade, downgrade, scheduled or reverted cancellation is recorded exactly when that change was made, the last two on Pro only, each about this subscription, and a notice goes exactly when Pro was lost |
| `BillingEntries.MarkLedger` | Tesbo-Backend-Nest/src/billing/billing.service.ts:1061-1071 | over any run whatever, scheduled less reverted cancellations recorded are the change of the cancellation mark, less what was changed of it on Launch without a word |
| `BillingEntries.MarksAlternate` | Tesbo-Backend-Nest/src/billing/billing.service.ts:1061-1071 | scheduled and reverted cancellations alternate with the mark until, and only until, a step changes the mark on Launch |
| `BillingEntries.EndUnmarksSilently` | Tesbo-Backend-Nest/src/billing/billing.service.ts:1061-1071 | a cancellation scheduled on Pro whose subscription then ends unmarked: the mark is gone and no entry says so |
| `BillingEntries.PaidInvoiceRecorded` | Tesbo-Backend-Nest/src/billing/billing.service.ts:553-577 | a paid invoice delivered for the first time closes an open failure, and is recorded once by its own id and receipted once if there is an owner, for the workspace it names or else its customer's, and for no other |
| `BillingEntries.FailedInvoiceRecorded` | Tesbo-Backend-Nest/src/billing/billing.service.ts:524-550 | a failed one opens a failure and is recorded and mailed about likewise, unless one is open already |
| `BillingEntries.MailGoesToOwner` | Tesbo-Backend-Nest/src/billing/billing.service.ts:630-640 | no step mails anybody but the owner, as of that step, of the workspace the mail is about |
| `BillingRace.AloneIsEffect` | Tesbo-Backend-Nest/src/billing/billing.service.ts:450-495 | one handler's SELECT, UPDATE and history entry with nobody in between are its effect as one step |
| `BillingRace.LedgerSlips` | Tesbo-Backend-Nest/src/billing/billing.service.ts:450-495 | over every interleaving of any number of handlers at their statements, recorded upgrades minus downgrades run ahead of the plan by exactly the UPDATEs that replaced Pro having seen Launch, less those that replaced Launch having seen Pro |
| `BillingRace.OneUpgradeIff` | Tesbo-Backend-Nest/src/billing/billing.service.ts:475-487 | when the handlers of one purchase have all finished they have recorded exactly one upgrade if and only if no UPDATE put Pro over Pro having seen Launch, and otherwise more |
| `BillingRace.UpgradeRecordedTwice` | Tesbo-Backend-Nest/src/billing/billing.service.ts:475-487 | a checkout and the subscription it bought, both selected before either is updated, record the upgrade twice |
| `BillingDeadlines.ColumnStep` | Tesbo-Backend-Nest/src/billing/billing.service.ts:998-1003 | one step empties plan_grace_ends_at or payment_failed_at exactly when it is a clearing step, fills it exactly when it is an opening one, with that step's value, and otherwise leaves it |
| `BillingDeadlines.ColumnOrigin` | Tesbo-Backend-Nest/src/billing/billing.service.ts:998-1036 | after any run from an empty column, it holds d exactly when some step opened it with d and none has cleared it since |
| `BillingDeadlines.NeverSlides` | Tesbo-Backend-Nest/src/billing/billing.service.ts:998-1003 | along any run a deadline or first failure time never becomes a different one without being empty in between |
| `BillingDeadlines.SubscriptionColumn` | Tesbo-Backend-Nest/src/billing/billing.service.ts:998-1036 | applying a subscription clears both columns unless it has ended, and starts the window exactly when Stripe's plan was Pro and no deadline stood |
| `BillingGrace.GraceOnlyRunsOut` | Tesbo-Backend-Nest/src/billing/billing.service.ts:169-186 | with no events, grace only turns into enforced limits and never back, and one of the two always holds while a deadline stands |
| `BillingGrace.FullWindowIff` | Tesbo-Backend-Nest/src/billing/billing.service.ts:998-1003 | losing Pro gives a full window of max(0, graceDays) days if and only if no other deadline was left on the row, and any window at all if and only if the left-over one is still ahead |
| `BillingGrace.LeftOverOrigin` | Tesbo-Backend-Nest/src/billing/billing.service.ts:456-474 | over any run without operator changes, a workspace is on Pro with a left-over deadline exactly when a checkout completed while a deadline stood and since then no running subscription was applied and Pro was not lost |
| `BillingGrace.LeftOverStep` | Tesbo-Backend-Nest/src/billing/billing.service.ts:456-474 | what one step makes of a left-over deadline: a checkout leaves one over, a running subscription or a loss of Pro settles it, and nothing else does either |
| `BillingGrace.PlanStep` | Tesbo-Backend-Nest/src/billing/billing.service.ts:450-514 | which steps leave a workspace on Pro, on Launch, or where it was |
| `BillingGrace.ProOrigin` | Tesbo-Backend-Nest/src/billing/billing.service.ts:450-514 | over any run without operator changes, from Launch, a workspace is on Pro exactly when a checkout completed or a subscription in any status that is not an ended one was applied, and Pro was not lost since |
| `BillingGrace.NeverPaidGetsProAndWindow` | Tesbo-Backend-Nest/src/billing/billing.service.ts:86-89 | a subscription reported incomplete and then incomplete_expired gives Pro and then a full window, with no checkout completed and nothing active |
| `BillingGrace.SourceAfterCheckout` | Tesbo-Backend-Nest/src/billing/billing.service.ts:456-474 | a completed checkout gives Pro to Stripe, stores its subscription, clears every override field and keeps all else, the grace deadline included |
| `BillingGrace.WindowIsDays` | Tesbo-Backend-Nest/src/billing/billing.service.ts:998-1000 | no window for a setting of zero or less, and 24 hours more for each further day |
| `BillingGrace.RebuyerGetsNoWindow` | Tesbo-Backend-Nest/src/billing/billing.service.ts:980-1003 | a workspace that buys Pro back after its window closed, and ends again before a subscription event, is limited at once |
| `BillingDunning.DunningLedger` | Tesbo-Backend-Nest/src/billing/billing.service.ts:524-550 | over any run, payment failures are recorded once for every time payment_failed_at goes from null to set, and mailed once for every such time at which there was an owner and the handler got as far as its mail; at no other time |
| `BillingDunning.FailureMailedIff` | Tesbo-Backend-Nest/src/billing/billing.service.ts:524-550 | a failed invoice is mailed about if and only if its handler gets as far as the mail, the workspace then has an owner, and no earlier failure is still open |
| `BillingDunning.RetryMailedIff` | Tesbo-Backend-Nest/src/billing/billing.service.ts:1035 | with nothing paid since the last failure, the next one is mailed again, given an owner and a handler that gets that far, if and only if a subscription that has not ended was applied in between |
| `BillingDunning.PastDueMailsTwice` | Tesbo-Backend-Nest/src/billing/billing.service.ts:1035 | failed invoice, past_due event, failed retry: two mails for one unpaid invoice |
| `BillingDunning.UnmailedFailureStaysUnmailed` | Tesbo-Backend-Nest/src/billing/billing.service.ts:524-550 | a first failure recorded by a handler that then throws at the owner lookup, and a failed retry: two failed invoices, one entry, no mail |
| `BillingDunning.OpenUntilRunningApplied` | Tesbo-Backend-Nest/src/billing/billing.service.ts:524-577 | after a failure, payment_failed_at is null at a later point exactly when a running subscription was applied since |
| `BillingReplay.ReplaySafe` | Tesbo-Backend-Nest/src/billing/billing.service.ts:440-447 | any run with redeliveries ends in the same rows, history, mail and seen ids as the run with every later duplicate removed |
| `BillingReplay.RunMarksDeliveries` | Tesbo-Backend-Nest/src/billing/billing.service.ts:440-447 | after a run the seen ids are those of the start and of the run's deliveries |
| `BillingReplay.EventAppliedIff` | Tesbo-Backend-Nest/src/billing/billing.service.ts:440-447 | over any run that starts with its id unseen, an event is applied at its first delivery, exactly as far as that delivery gets (not at all, without its mail, or whole), and at no later one |
| `BillingReplay.FailedDeliveryIsLost` | Tesbo-Backend-Nest/src/billing/billing.service.ts:440-447 | a checkout whose first delivery throws and whose second succeeds leaves the workspace that paid on Launch; the second delivery alone puts it on Pro |
| `BillingReplay.ApplyTwiceIsOnce` | Tesbo-Backend-Nest/src/billing/billing.service.ts:925-1084 | applying the same subscription again, at any later time, changes no row and adds no entry and no mail |
| `BillingReconcile.DriftCheckIsStable` | Tesbo-Backend-Nest/src/billing/billing.service.ts:212-271 | with Stripe unchanged a second drift check changes nothing, in any workspace |
| `BillingReconcile.ReconcileIsStable` | Tesbo-Backend-Nest/src/billing/billing.service.ts:586-615 | with Stripe unchanged a second post-checkout reconcile changes nothing, if and only if the listed subscription does not run while the recorded one, ended, names the same other workspace |
| `BillingReconcile.NeverSettles` | Tesbo-Backend-Nest/src/billing/billing.service.ts:586-615 | a running and an ended subscription applied to one workspace in turn never settle: every round adds at least two entries to the history |
| `BillingReconcile.ReconcileShows` | Tesbo-Backend-Nest/src/billing/billing.service.ts:586-615 | after a reconcile the workspace shows the first listed subscription Stripe would bill or, when there is none, the first listed, in every column, unless an operator's plan is defended from it |
| `BillingReconcile.DriftShows` | Tesbo-Backend-Nest/src/billing/billing.service.ts:231-271 | a drift check on a workspace without a subscription on record shows the first listed one Stripe would bill, or leaves the row alone if that one names another workspace |
| `BillingReconcile.DriftShowsTheEnd` | Tesbo-Backend-Nest/src/billing/billing.service.ts:212-230 | a drift check on a workspace on Pro shows the recorded subscription if Stripe reports it ended, and otherwise leaves the row alone |
| `BillingReconcile.DriftQuietAfterListed` | Tesbo-Backend-Nest/src/billing/billing.service.ts:586-615 | once a listed subscription that names this workspace or nobody was applied, the drift check behind it does nothing |
| `BillingReconcile.DriftDowngradesIff` | Tesbo-Backend-Nest/src/billing/billing.service.ts:212-271 | a drift check downgrades if and only if Stripe owns the plan and retrieving the recorded subscription reports it ended, for this workspace; what listing returns, an empty list included, plays no part |
| `BillingReconcile.AppliedChangesIff` | Tesbo-Backend-Nest/src/billing/billing.service.ts:925-1039 | applying a subscription changes no column if and only if an operator's plan is defended from it or the row already shows its plan, id, status, period, cancellation mark, interval, currency and cleared timestamps; and then records and mails nothing |
| `BillingReconcile.DriftReachesIff` | Tesbo-Backend-Nest/src/billing/billing.service.ts:247-271 | a drift check changes another workspace's row, history or mail if and only if the subscription it finds names that workspace, whose plan is not defended from it and whose row does not show it; then by its whole effect |
| `BillingReconcile.DriftUpgradesAnother` | Tesbo-Backend-Nest/src/billing/billing.service.ts:247-271 | a workspace on Launch whose customer has one active subscription bought for another puts that other one on Pro, with its history entry, and stays on Launch |
| `BillingReconcile.ReconcileKeepsProIff` | Tesbo-Backend-Nest/src/billing/billing.service.ts:600-614 | where the first listed subscription Stripe would bill is the workspace's own, the workspace is on Pro after the reconcile if and only if that one is not unpaid or an operator granted the plan |
| `BillingReconcile.UnpaidHidesActive` | Tesbo-Backend-Nest/src/billing/billing.service.ts:600-614 | a paying workspace loses Pro to an unpaid subscription listed before its active one |
| `BillingReconcile.EndedTakesPro` | Tesbo-Backend-Nest/src/billing/billing.service.ts:975-1039 | an ended subscription takes Pro whichever subscription is on record, if and only if Stripe owns the plan; then the workspace's own drift check, in any world, changes nothing, and another workspace's can restore Pro if and only if there is another that looks its customer up |
| `BillingReconcile.LateEndTakesPro` | Tesbo-Backend-Nest/src/billing/billing.service.ts:975-1039 | a workspace with an active subscription on record and listed loses Pro to the late end of a former one, and its own drift check leaves it on Launch |
| `BillingReconcile.DriftRestoresIff` | Tesbo-Backend-Nest/src/billing/billing.service.ts:231-256 | some drift check, of whichever workspace and in whichever world, would put a given workspace on Pro if and only if some workspace is under Stripe, on Launch, with a customer and no subscription on record; its own would if and only if it is that one itself |
| `BillingReconcile.GrantRetiredIff` | Tesbo-Backend-Nest/src/billing/billing.service.ts:957-974 | a hand-set plan is retired if and only if a checkout completes, a subscription that has not ended is applied, or the grant lapses; retired, it leaves no override field |
| `BillingReconcile.GrantDefended` | Tesbo-Backend-Nest/src/billing/billing.service.ts:957-974 | while plan_source is admin, a drift check or an ended subscription's event changes no column and records and mails nothing |
| `BillingReconcile.GrantStands` | Tesbo-Backend-Nest/src/billing/billing.service.ts:957-974 | a grant survives any run in which none of those three things happens and the panel does not change this workspace's plan again |
| `BillingService.BillingService.HandleWebhookEvent` | Tesbo-Backend-Nest/src/billing/billing.service.ts:440-514 | moves the state as Deliver: nothing for a seen id, otherwise the event's effect |
| `BillingService.BillingService.HandleCheckoutCompleted` | Tesbo-Backend-Nest/src/billing/billing.service.ts:450-495 | commits the checkout's effect on its workspace, or nothing for an unknown one |
| `BillingService.BillingService.HandleInvoicePaymentFailed` | Tesbo-Backend-Nest/src/billing/billing.service.ts:524-550 | moves the state as the failed invoice's effect |
| `BillingService.BillingService.HandleInvoicePaid` | Tesbo-Backend-Nest/src/billing/billing.service.ts:553-577 | moves the state as the paid invoice's effect, whatever the clock says |
| `BillingService.BillingService.ApplySubscriptionState` | Tesbo-Backend-Nest/src/billing/billing.service.ts:925-1084 | moves the state as applying the subscription, the admin guard included |
| `BillingService.BillingService.GraceFrom` | Tesbo-Backend-Nest/src/billing/billing.service.ts:998-1003 | on Pro no deadline; one that stands is kept; a new one, now plus the window, exactly for a workspace that had Pro and now has not |
| `BillingService.BillingService.RecordSubscriptionHistory` | Tesbo-Backend-Nest/src/billing/billing.service.ts:1041-1071 | appends exactly the entries SubscriptionEntries speaks of, and changes nothing else |
| `BillingService.BillingService.ReconcileDriftedPlan` | Tesbo-Backend-Nest/src/billing/billing.service.ts:212-271 | moves the state as the drift check |
| `BillingService.BillingService.FindFirstLive` | Tesbo-Backend-Nest/src/billing/billing.service.ts:868-879 | finds the first listed subscription Stripe would bill, if there is one |
| `BillingService.BillingService.ReconcileFromStripe` | Tesbo-Backend-Nest/src/billing/billing.service.ts:586-615 | moves the state as the reconcile, fails, before any write, exactly when the customer cannot be listed or the chosen subscription cannot be given its workspace's name, and otherwise describes the row it leaves |
| `BillingService.BillingService.GetBillingInfo` | Tesbo-Backend-Nest/src/billing/billing.service.ts:144-187 | heals drift, then describes the row as it then is; with billing off, reports Pro and touches nothing |
| `BillingService.BillingService.LockedCurrencyFor` | Tesbo-Backend-Nest/src/billing/billing.service.ts:820-841 | reads the lock and mirrors a pin read from Stripe, and nothing else |
| `BillingService.BillingService.GetPricing` | Tesbo-Backend-Nest/src/billing/billing.service.ts:290-316 | reads the request as spelt, shows Stripe's amounts and currency for the ids QuotedIds and ChargedIdIff speak of or fails when one cannot be retrieved, and writes no more than the mirrored pin |
| `BillingService.BillingService.ResolveStripeCustomerId` | Tesbo-Backend-Nest/src/billing/billing.service.ts:894-923 | keeps or replaces the customer as the pricing theorems say, the new row and both failures at Stripe included |
| `BillingService.BillingService.CreateCheckoutSession` | Tesbo-Backend-Nest/src/billing/billing.service.ts:360-398 | refuses who is not an owner and an unknown interval before anything is read; otherwise opens a checkout with the id ChargedIdIff speaks of or refuses it as the pricing theorems say, the new row included, and answers the address or its absence |
| `Pricing.LockIsStable` | Tesbo-Backend-Nest/src/billing/billing.service.ts:820-841 | asking for the lock again gives the same lock and writes nothing more |
| `Pricing.RequestSpelling` | Tesbo-Backend-Nest/src/billing/billing.service.ts:777-781 | a requested currency is read whatever its case and outer space; a blank one asks for nothing; any other word is refused |
| `Pricing.QuotedPriceIsCharged` | Tesbo-Backend-Nest/src/billing/billing.service.ts:375-379 | a checkout after a quote for the same request and signals uses the very price quoted, or is refused because it has no id; both are refused together |
| `Pricing.ShownIsCharged` | Tesbo-Backend-Nest/src/billing/billing.service.ts:300-316 | the amount shown for an interval is Stripe's for the very price its checkout uses, and the currency shown is the one quoted if and only if the first configured of the two prices is in the currency it is configured for |
| `Pricing.InrPriceIff` | Tesbo-Backend-Nest/src/billing/billing.service.ts:741-801 | INR is the currency resolved and priced in if and only if both INR ids are set and the workspace is locked to INR, or is not locked, is in India and did not ask for USD; ChargedIdIff carries it to the ids |
| `Pricing.QuotedIds` | Tesbo-Backend-Nest/src/billing/billing.service.ts:748-755 | a quote in INR names the two configured INR ids and one in USD the two USD ids, interval by interval |
| `Pricing.ChargedIdIff` | Tesbo-Backend-Nest/src/billing/billing.service.ts:748-801 | where no id is configured for both currencies, the id charged is the INR one of its interval if and only if both INR ids are set, USD was not asked for, and the workspace is locked to INR or is unlocked and in India; and it is the USD one of its interval otherwise |
| `Pricing.LockedIff` | Tesbo-Backend-Nest/src/billing/billing.service.ts:820-841 | a workspace is locked to a currency if and only if the row mirrors it, or mirrors none and its customer is pinned to it and was billed; the question fails only when the customer cannot be retrieved |
| `Pricing.RefusedQuoteIff` | Tesbo-Backend-Nest/src/billing/billing.service.ts:777-801 | a quote is refused if and only if the currency asked for is none of the two, is not the locked one, or is INR with neither a lock nor India; each with its own error |
| `Pricing.FlagsForetell` | Tesbo-Backend-Nest/src/billing/billing.service.ts:308-316 | a quote offers INR if and only if asking for it would give an INR price, and says it is locked if and only if asking for some currency would be refused because of the lock |
| `Pricing.CodesAreRead` | Tesbo-Backend-Nest/src/billing/billing.service.ts:777-781 | "usd" and "inr" are read as these two, as asked for and as Stripe reports them |
| `Pricing.IntervalsAreRead` | Tesbo-Backend-Nest/src/billing/billing.service.ts:371-373 | "monthly" and "annual" are read as these two intervals |
| `Pricing.UsdByDefault` | Tesbo-Backend-Nest/src/billing/billing.service.ts:770-801 | locked to USD, or with neither lock nor country, the quote is USD, and a request for INR is refused |
| `Pricing.DeclaredCannotBuyInr` | Tesbo-Backend-Nest/src/billing/billing.service.ts:329-358 | with any harder signal, no declared country changes any quote |
| `Pricing.CustomerFitsCurrency` | Tesbo-Backend-Nest/src/billing/billing.service.ts:894-923 | a customer is replaced if and only if there is none or it is pinned to the other of USD and INR and was never billed; the one used takes the resolved currency unless it is deleted, was billed in the other, or is pinned to a third currency |
| `Pricing.SessionsCustomerIsKept` | Tesbo-Backend-Nest/src/billing/billing.service.ts:894-923 | the row ends up naming the customer the session was opened for, unlocked if that one is new, and is otherwise changed by no more than the mirrored pin |
| `Pricing.CheckoutFitsCustomerIff` | Tesbo-Backend-Nest/src/billing/billing.service.ts:741-755 | the session asked for is one Stripe accepts, for a customer that is not deleted and unpinned or pinned to the price's currency, unless, exactly, the customer is deleted, is pinned to a third currency, is pinned to INR when INR falls back to USD, or was billed in one of the two when the other is resolved and priced |
| `Pricing.AgreeingMirrorFits` | Tesbo-Backend-Nest/src/billing/billing.service.ts:820-841 | while the mirrored currency is the billed customer's own, only deletion, a third currency and the fallback are left of these |
| `Pricing.ThirdCurrencyMisfits` | Tesbo-Backend-Nest/src/billing/billing.service.ts:884-905 | a customer pinned to euros, billed or not, is kept and sent to Stripe with a USD price |
| `Pricing.DeletedCustomerMisfits` | Tesbo-Backend-Nest/src/billing/billing.service.ts:902-904 | a deleted customer is kept, and every checkout is opened for it |
| `Pricing.ForeignSubscriptionMisfits` | Tesbo-Backend-Nest/src/billing/billing.service.ts:887-900 | one delivered event makes the mirror disagree: an active USD subscription naming a workspace billed in INR, after which checkout sends a USD price for the customer pinned to INR |
| `Pricing.RefusedAsSubscribedIff` | Tesbo-Backend-Nest/src/billing/billing.service.ts:868-879 | a priced checkout is refused as already subscribed if and only if the row's customer is kept and itself has a subscription Stripe would bill; the plan and subscription on record make no difference |
| `Pricing.SwappedCustomerBuysTwice` | Tesbo-Backend-Nest/src/billing/billing.service.ts:868-923 | a workspace on Pro, its recorded subscription active under a former customer, is let through to a second checkout |
| `Pricing.UnconfiguredInrReachesStripe` | Tesbo-Backend-Nest/src/billing/billing.service.ts:748-755 | with INR prices removed, a workspace billed in INR is sent to Stripe with a USD price |
| `Pricing.PurchaseSettles` | Tesbo-Backend-Nest/src/billing/billing.service.ts:925-1039 | once the running subscription a checkout bought is applied, the workspace is on Pro and locked to the currency charged, every later quote is in it, and the interval on record is the one bought if and only if an annual price shares no id with a monthly one |
| `CountryDetection.NormalizeCountry` | Tesbo-Backend-Nest/src/billing/country-detection.service.ts:126-132 | every country it answers is two capital letters and not XX |
| `CountryDetection.CountrySpelling` | Tesbo-Backend-Nest/src/billing/country-detection.service.ts:126-132 | two capital letters other than XX name themselves, any value names the code it is without outer space and in capitals, and anything else names nothing |
| `CountryDetection.FirstSignalDecides` | Tesbo-Backend-Nest/src/billing/country-detection.service.ts:89-115 | the country is that of the first to name one among the override, the trusted edge headers in order, the lookup and the declared country; the source says which, and only what the request showed counts as detected |
| `CountryDetection.DeclaredIsLastResort` | Tesbo-Backend-Nest/src/billing/country-detection.service.ts:89-115 | the declared country decides if and only if neither an override, a trusted header nor the lookup does; with no signal at all there is no country |
| `CountryDetection.UntrustedHeadersIgnored` | Tesbo-Backend-Nest/src/billing/country-detection.service.ts:89-115 | edge headers cannot move the answer unless they are trusted |
| `CountryCache.CountryDetectionService.LookupByIp` | Tesbo-Backend-Nest/src/billing/country-detection.service.ts:134-155 | a caller's way to its await: cached answer, join of the request in flight, or one new request |
| `CountryCache.CountryDetectionService.RememberCountry` | Tesbo-Backend-Nest/src/billing/country-detection.service.ts:157-166 | evicts the oldest key at the limit and stores the answer with its lifetime |
| `CountryCache.CountryDetectionService.FromEdge` | Tesbo-Backend-Nest/src/billing/country-detection.service.ts:96-105 | the first usable edge header in order of trust |
| `CountryCache.CacheSafety` | Tesbo-Backend-Nest/src/billing/country-detection.service.ts:134-166 | in every interleaving: at most 10,000 entries, one outstanding request per address, waiting callers wait for their own address, cached answers are upstream's own about that address, given less than 21,600,000 ms before, or 60,000 ms when nothing was found |
| `CountryCache.RequestMadeIff` | Tesbo-Backend-Nest/src/billing/country-detection.service.ts:134-155 | a request goes out if and only if the address is public, nothing fresh is cached and none for it is unsettled |
| `CountryCache.AnswersAreFinal` | Tesbo-Backend-Nest/src/billing/country-detection.service.ts:145-154 | once a request has its answer no later step changes it, so all callers joined to it get the same one |
| `CountryCache.RunOneAtATime` | Tesbo-Backend-Nest/src/billing/country-detection.service.ts:142-154 | no two requests for one address are unsettled together |
| `CountryCache.RememberKeepsCache` | Tesbo-Backend-Nest/src/billing/country-detection.service.ts:157-166 | remembering keeps the bound and the iteration order exact |
| `CountryCache.ServedForItsLifetime` | Tesbo-Backend-Nest/src/billing/country-detection.service.ts:139-166 | an answer once remembered is given to every caller of its address, without asking again, for its whole lifetime and no longer |
| `CountryCache.NewestStays` | Tesbo-Backend-Nest/src/billing/country-detection.service.ts:157-166 | the oldest goes: an address new to the cache is still there after any 9,999 further answers about others, its answer and lifetime unchanged |
| `CountryCache.MappedIsTheSame` | Tesbo-Backend-Nest/src/billing/country-detection.service.ts:134-137 | an IPv4 address and its form mapped into IPv6 are looked up as one, unless private |
| `CountryCache.PrivateStarts` | Tesbo-Backend-Nest/src/billing/country-detection.service.ts:204-215 | what the private ranges but one start with |
| `CountryCache.PublicStarts` | Tesbo-Backend-Nest/src/billing/country-detection.service.ts:204-215 | and what no private address starts with |
| `CountryCache.PrivateBlock` | Tesbo-Backend-Nest/src/billing/country-detection.service.ts:213 | 172.x is private if and only if x is from 16 to 31 |
| `AutomationStatus.SpellingIgnored` | Tesbo-Backend-Nest/src/automation/automation.types.ts:77-82 | the key a status is looked up by is its own key: case, outer space and separators make no difference |
| `AutomationStatus.KeyIs` | Tesbo-Backend-Nest/src/automation/automation.types.ts:77-82 | the key of a plain word is the word, a separator put in anywhere leaves the key as it was, and so does another case |
| `AutomationStatus.WordsStandFor` | Tesbo-Backend-Nest/src/automation/automation.types.ts:54-82 | for every text, in any spelling: the stored status its word stands for, or none |
| `AutomationStatus.StoredIsItself` | Tesbo-Backend-Nest/src/automation/automation.types.ts:54-82 | every stored status sent as a word is stored as itself |
| `AutomationStatus.NoVerdictOfTheirOwn` | Tesbo-Backend-Nest/src/automation/automation.types.ts:45-66 | timedOut is stored as Failed and interrupted as Blocked |
| `Ingest.ResolvedAreTheKnown` | Tesbo-Backend-Nest/src/automation/automation.service.ts:167-190 | resolving finds exactly the live cases of this project that some id names, ignoring case |
| `Ingest.MatchIsLast` | Tesbo-Backend-Nest/src/automation/automation.service.ts:180-187 | an id stands for the last live row of the project that bears it, ignoring case, and for none only if none does |
| `Ingest.AttachHoldsTheKnown` | Tesbo-Backend-Nest/src/automation/automation.service.ts:342-374 | after attaching, a run holds what it held and the known cases among the ids, nothing else |
| `Ingest.AttachElsewhere` | Tesbo-Backend-Nest/src/automation/automation.service.ts:342-374 | attaching to one run changes no other |
| `Ingest.AttachTwiceIsOnce` | Tesbo-Backend-Nest/src/automation/automation.service.ts:342-374 | attaching the same ids again changes no table |
| `Ingest.InsertedKeeps` | Tesbo-Backend-Nest/src/automation/automation.service.ts:350-372 | the insert keeps one item per run and case, distinct positions and one result per item, and places what it adds above the old maximum |
| `Ingest.InsertedAdds` | Tesbo-Backend-Nest/src/automation/automation.service.ts:350-372 | the insert only adds rows: items of this run for listed cases, under their titles, each with an Untested result |
| `Ingest.RecordKeeps` | Tesbo-Backend-Nest/src/automation/automation.service.ts:391-481 | posting a result, accepted or refused, keeps the tables sound |
| `Ingest.RefusedIff` | Tesbo-Backend-Nest/src/automation/automation.service.ts:391-465 | when a posted result is refused and with which error: no such run in the project, no such word, no live case, a retry count over 1,000, or a case in the run whose result there is removed, in that order; otherwise it is taken as sent |
| `IngestRuns.RunKeeps` | Tesbo-Backend-Nest/src/automation/automation.service.ts:342-465 | in every reachable state: one run per key, one item per run and case, distinct positions, exactly one result per item, stored statuses only |
| `IngestRuns.StepMovesView` | Tesbo-Backend-Nest/src/automation/automation.service.ts:446-465 | a step moves a case's result exactly by the submission accepted for that case, and nothing else moves it |
| `IngestRuns.ViewIsFold` | Tesbo-Backend-Nest/src/automation/automation.service.ts:446-465 | after any run a case's result is the fold of the submissions accepted for it |
| `IngestRuns.RetryAfterSupplied` | Tesbo-Backend-Nest/src/automation/automation.service.ts:446-465 | the retry count is the last supplied count plus the later submissions that found the case tested |
| `IngestRuns.RetryNeverSupplied` | Tesbo-Backend-Nest/src/automation/automation.service.ts:446-465 | with none supplied it is the number of submissions that found the case tested |
| `IngestRuns.PlainRetries` | Tesbo-Backend-Nest/src/automation/automation.service.ts:446-465 | n plain attempts read the last status and n - 1 retries |
| `IngestRuns.StoredResult` | Tesbo-Backend-Nest/src/automation/automation.service.ts:446-465 | the closed form of status and retry count after any run of the whole ingest |
| `IngestRuns.OpenedRun` | Tesbo-Backend-Nest/src/automation/automation.service.ts:236-331 | opening gives the run the key already has, as it stands, or adds an open one with this project, key and name; without a key always a new one |
| `IngestRuns.FirstCloseWins` | Tesbo-Backend-Nest/src/automation/automation.service.ts:516-547 | over every run of the ingest a run is closed by the first close sent to it in its own project, with that one's word for good, and nothing else about it ever changes |
| `ResultRace.PostsKeep` | Tesbo-Backend-Nest/src/automation/automation.service.ts:391-481 | with any number of recordResult calls cut at their statements and interleaved with each other and with everything else the ingest does, the tables stay sound |
| `ResultRace.ViewFoldsUpdates` | Tesbo-Backend-Nest/src/automation/automation.service.ts:437-465 | in every such interleaving a case's result is the fold of the submissions written for it, in the order of their UPDATEs |
| `ResultRace.AnswerIsItsOwnFold` | Tesbo-Backend-Nest/src/automation/automation.service.ts:437-465 | a call is answered the fold up to and including its own submission, whatever others post in between |
| `ResultRace.AnsweredIff` | Tesbo-Backend-Nest/src/automation/automation.service.ts:391-481 | a call is answered with success if and only if one of its turns wrote its submission |
| `ResultRace.NeverWrittenTwice` | Tesbo-Backend-Nest/src/automation/automation.service.ts:391-481 | no call writes its submission twice |
| `ResultRace.AloneIsRecord` | Tesbo-Backend-Nest/src/automation/automation.service.ts:391-481 | alone, the statements are recordResult as one step, every refusal included |
| `IngestRuns.ExactlyOneBucket` | Tesbo-Backend-Nest/src/automation/automation.service.ts:578-601 | a stored status falls into exactly one count, and anything else into none |
| `IngestRuns.BucketsAddUp` | Tesbo-Backend-Nest/src/automation/automation.service.ts:578-601 | total is passed plus failed plus skipped plus blocked plus untested over the live rows |
| `IngestRuns.CountsAddUp` | Tesbo-Backend-Nest/src/automation/automation.service.ts:578-601 | the same after every run of the ingest |
| `IngestRuns.CountsAreRows` | Tesbo-Backend-Nest/src/automation/automation.service.ts:578-601 | each count is the number of the run's live rows stored under its own word, untested taking in Retest |
| `IngestRuns.UpdateMovesCounts` | Tesbo-Backend-Nest/src/automation/automation.service.ts:446-465 | an accepted result moves its row from the count of the status it had to that of the one sent, and no other count of any run changes |
| `IngestRuns.RemovedIsNotCounted` | Tesbo-Backend-Nest/src/automation/automation.service.ts:587-589 | a removed result leaves the count of its status in its own run, and no other |
| `RunRace.ShardsAgree` | Tesbo-Backend-Nest/src/automation/automation.service.ts:252-330 | in every interleaving of any number of createRun calls: nobody fails, the key has at most one run, finished callers of a key return the same run and at most one says it created it, and the run holds exactly the known cases they sent |
| `RunRace.OneCreatorInTheEnd` | Tesbo-Backend-Nest/src/automation/automation.service.ts:252-330 | when all callers of a key have finished, exactly one of them created the run |
| `RunRace.ExistingIsReused` | Tesbo-Backend-Nest/src/automation/automation.service.ts:254-269 | a key that already had its run keeps it, and every finished caller is given that run as reused |
| `RunRace.ExistingHoldsTheUnion` | Tesbo-Backend-Nest/src/automation/automation.service.ts:254-269 | such a run holds what it held and the known cases its finished callers sent, and no others |
| `RunRace.FourTurnsFinish` | Tesbo-Backend-Nest/src/automation/automation.service.ts:252-330 | four statements of its own finish a call, whatever the others do |
| `RunRace.RaceInvariant` | Tesbo-Backend-Nest/src/automation/automation.service.ts:252-330 | the invariant behind it, after every schedule |
| `RunRace.StepKeepsOneCreator` | Tesbo-Backend-Nest/src/automation/automation.service.ts:297-315 | one statement of one caller keeps that the key's run exists exactly if one caller created it |
| `RunRace.AloneIsOpenRun` | Tesbo-Backend-Nest/src/automation/automation.service.ts:236-331 | alone, the statements are createRun as one step |
| `IngestService.AutomationService.ResolveCases` | Tesbo-Backend-Nest/src/automation/automation.service.ts:167-190 | lists each matched case once in row order and the unknown ids of UnknownAre in the order asked; its map answers for every id asked |
| `IngestService.AutomationService.AttachCases` | Tesbo-Backend-Nest/src/automation/automation.service.ts:342-374 | moves the tables as Attach, counts what it added and answers the unknown ids of UnknownAre |
| `IngestService.AutomationService.InsertCycle` | Tesbo-Backend-Nest/src/automation/automation.service.ts:272-299 | adds a run unless the unique index already has its key |
| `IngestService.AutomationService.CreateRun` | Tesbo-Backend-Nest/src/automation/automation.service.ts:236-331 | moves the tables as opening a run, with the attached count; each id sent is attached or answered as unknown, as AttachedOrUnknown says |
| `IngestService.AutomationService.RecordResult` | Tesbo-Backend-Nest/src/automation/automation.service.ts:391-481 | moves the tables as Record, refuses as it does, and answers the result the run then shows: the status its word stands for, a stored status as itself, and a supplied retry count as supplied |
| `IngestService.AutomationService.CloseRun` | Tesbo-Backend-Nest/src/automation/automation.service.ts:516-547 | refuses unknown runs and words, leaves a closed run alone, closes an open one, and reports a mismatch exactly for the supplied finite numbers that differ from the stored counts |
| `IngestService.NormalizeCaseIds` | Tesbo-Backend-Nest/src/automation/automation.service.ts:132-152 | accepts exactly the absent and the arrays of at most 2,000 entries of at most 32 characters once trimmed, answers their distinct trimmed ids in first-occurrence order, and names the limit and the first id that breaks it |
| `IngestService.UnknownAre` | Tesbo-Backend-Nest/src/automation/automation.service.ts:188-189 | an id is answered as unknown if and only if it was sent and no live case of the project has it |
| `IngestService.UnknownKeepsOrder` | Tesbo-Backend-Nest/src/automation/automation.service.ts:188 | unknown ids are answered in the order in which they were sent |
| `IngestService.AttachedOrUnknown` | Tesbo-Backend-Nest/src/automation/automation.service.ts:236-331 | createRun leaves each id sent either attached to the run it answers or listed as unknown, never both |
| `IngestService.CloseWords` | Tesbo-Backend-Nest/src/automation/automation.service.ts:521-524 | closing without a word completes the run; either word closes it as itself |
| `IngestService.FieldsAreCounts` | Tesbo-Backend-Nest/src/automation/automation.service.ts:561-566 | each summary field is compared with the rows it is named after, and no field but these four is |
| `IngestService.AcceptedIdsStay` | Tesbo-Backend-Nest/src/automation/automation.service.ts:132-152 | the ids it answers are accepted and answered again unchanged |
| `IngestService.SummaryMismatch` | Tesbo-Backend-Nest/src/automation/automation.service.ts:555-576 | none if and only if no supplied finite number differs; otherwise exactly the differing fields with both numbers |
| `Csv.ParseCsv` | e2e/utils/csv.ts:14-71 | the scanner loop computes Parse |
| `Csv.ParseOfPrint` | e2e/utils/csv.ts:14-71 | for every table and each of LF, CRLF and CR, what is written reads back as its texts, an empty row as one empty cell, and a last empty line as nothing |
| `Csv.RoundTrip` | e2e/utils/csv.ts:93-99 | the round trip is exact if and only if every row has a cell and the last row is not one empty cell |
| `Csv.LastEmptyRowIsLost` | e2e/utils/csv.ts:61-71 | a header, a row without cells and a row of one missing value read back as the header and one empty cell |
| `Csv.ToCsvRoundTrip` | e2e/utils/csv.ts:93-99 | header and rows of a fixture come back exactly |
| `Csv.RowIsWritten` | e2e/utils/csv.ts:93-98 | cells as they are with commas between, and between quotes with quotes doubled exactly when a comma, quote or line break is in them |
| `Csv.DoubledIs` | e2e/utils/csv.ts:96 | doubling goes character by character and doubles the quote alone |
| `Csv.ReadingSettles` | e2e/utils/csv.ts:14-71 | any file at all, written out after reading, reads back the same, but for a last row that is one empty cell |
| `Csv.ConsumeCell` | e2e/utils/csv.ts:94-97 | a written cell reads as its text, whatever it holds |
| `Csv.ConsumedRows` | e2e/utils/csv.ts:21-29 | every row read has a field |
| `Csv.ParseCsvRecords` | e2e/utils/csv.ts:74-85 | a record for each later row, keyed by the headers, a repeated header taking its last column and a missing cell the empty text |
| `Csv.RecordsRoundTrip` | e2e/utils/csv.ts:74-99 | by column name, a written fixture with distinct headers gives back each cell |
| `CustomFieldFilters.BuildCustomFieldFiltersSql` | Tesbo-Backend-Nest/src/custom-fields/custom-field-filters.ts:78-106 | the loop computes Compiled, the first error included |
| `CustomFieldFilters.CompilesIff` | Tesbo-Backend-Nest/src/custom-fields/custom-field-filters.ts:78-106 | fails if and only if a filter names an unknown field, an unsupported operator, or an `includes` operator without a list, with the first such filter's error |
| `CustomFieldFilters.PlaceholdersBound` | Tesbo-Backend-Nest/src/custom-fields/custom-field-filters.ts:86-106 | each filter's placeholders are exactly its own block of the query's parameters, holding its definition and then its values in order |
| `CustomFieldFilters.ClauseMentions` | Tesbo-Backend-Nest/src/custom-fields/custom-field-filters.ts:18-69 | a clause mentions all of its values' numbers and no other |
| `CustomFieldFilters.ClauseMeaning` | Tesbo-Backend-Nest/src/custom-fields/custom-field-filters.ts:18-69 | under three-valued evaluation a clause is true exactly when the stored value meets the filter, and fails exactly when the two cannot be compared |
| `CustomFieldFilters.JoinsFindStored` | Tesbo-Backend-Nest/src/custom-fields/custom-field-filters.ts:97 | with one value per definition and test case the joins give one row holding each filter's value: no fan-out |
| `CustomFieldFilters.FiltersSelect` | Tesbo-Backend-Nest/src/custom-fields/custom-field-filters.ts:78-106 | whatever parameters the caller sends before and after, a test case is selected once if its stored values meet every filter and not at all otherwise, and the query fails exactly when some filter cannot be compared |
| `CustomFieldFilters.ListingIsMeeting` | Tesbo-Backend-Nest/src/custom-fields/custom-field-filters.ts:70-106 | the query over any list of test cases returns those that meet every filter, once each and in order, unless some filter cannot be compared with a value of one of them, and then fails for all |
| `CustomFieldFilters.NegationComplements` | Tesbo-Backend-Nest/src/custom-fields/custom-field-filters.ts:24-40 | does_not_contain, is_not and is_empty select exactly what their positives leave out, test cases without a value included, and never fail |
| `CustomFieldFilters.PresenceCompares` | Tesbo-Backend-Nest/src/custom-fields/custom-field-filters.ts:24-46 | only a value is not empty, and without one the operators that look for something find nothing |
| `CustomFieldFilters.BooleansCompare` | Tesbo-Backend-Nest/src/custom-fields/custom-field-filters.ts:45-48 | of yes and no a stored boolean meets the one it is, and nothing else meets either |
| `CustomFieldFilters.TextsCompare` | Tesbo-Backend-Nest/src/custom-fields/custom-field-filters.ts:28-37 | a text contains what ILIKE finds in it, and equals or is a given text when it is that text |
| `CustomFieldFilters.NumbersCompare` | Tesbo-Backend-Nest/src/custom-fields/custom-field-filters.ts:32-57 | of less, equal and greater a stored number meets exactly the one that is so, and it is between two numbers when neither below the first nor above the second |
| `CustomFieldFilters.DatesCompare` | Tesbo-Backend-Nest/src/custom-fields/custom-field-filters.ts:53-65 | the same of before, on, after and between for dates, and overdue is before today |
| `CustomFieldFilters.ListsCompare` | Tesbo-Backend-Nest/src/custom-fields/custom-field-filters.ts:35-44 | including any of a list is holding one of it, including all is holding each; on one option they agree with being it |
| `CustomFieldFilters.ComparableIff` | Tesbo-Backend-Nest/src/custom-fields/custom-field-filters.ts:31-66 | a filter can be compared if and only if, for a numeric operator, the value reads as a number and, for a date operator, its own dates are dates and the value reads as one |
| `CustomFieldFilters.OneWordSpoilsTheListing` | Tesbo-Backend-Nest/src/custom-fields/custom-field-filters.ts:49-50 | greater_than on a text field compiles and lists the test case holding 7, and fails once another holds a word |
| `Zip.FindEndOfCentralDirectory` | e2e/utils/zip.ts:81-86 | the counted backward loop computes the last end record |
| `Zip.LastEndRecord` | e2e/utils/zip.ts:81-86 | it is an end record with none after it, or there is none |
| `Zip.ReadZipEntries` | e2e/utils/zip.ts:28-62 | computes ReadZip, every error included |
| `Zip.ReadDirectory` | e2e/utils/zip.ts:33-61 | the loop over the directory computes ReadFrom, stopping at the first error |
| `Zip.EntryRead` | e2e/utils/zip.ts:34-60 | a header leads to its member wherever the two stand, whatever the skipped fields hold and however the local lengths differ |
| `Zip.EndRecordFound` | e2e/utils/zip.ts:81-86 | the search finds an archive's own end record if and only if no place behind it shows the signature |
| `Zip.NothingBehindIsClean` | e2e/utils/zip.ts:78-80 | an archive that ends with its end record and no comment always meets that |
| `Zip.WrongSignature` | e2e/utils/zip.ts:35-37 | where no directory header's signature stands reading fails and names the place |
| `Zip.FileRefused` | e2e/utils/zip.ts:53-56 | a file neither stored nor deflated is refused by its method and name, and one that does not inflate is bad |
| `Zip.FirstFailureStops` | e2e/utils/zip.ts:34-61 | the first file that cannot be read is what the whole archive fails with |
| `Zip.ReaderInvertsLayout` | e2e/utils/zip.ts:28-62 | for all bytes in which the local records stand where the central directory says, in any order and with anything before, between and behind, and no later place imitates the end record, the reader returns exactly the files in directory order |
| `Zip.BuildIsArchive` | e2e/utils/zip.ts:28-62 | a prefix, the files in turn, the directory and the end record make such an archive |
| `Zip.CommentMisleads` | e2e/utils/zip.ts:81-86 | with an empty archive's end record for a comment, every archive reads as empty |
| `FieldConfig.ValidateConfigShape` | Tesbo-Backend-Nest/src/custom-fields/custom-field-validation.ts:29-144 | computes the stored configuration or the first problem |
| `FieldConfig.NormalizeOptions` | Tesbo-Backend-Nest/src/custom-fields/custom-field-validation.ts:67-81 | the options loop computes the stored options or the first bad label |
| `FieldConfig.ConfigStays` | Tesbo-Backend-Nest/src/custom-fields/custom-field-validation.ts:29-144 | on a fixed day a stored configuration validates again to itself |
| `FieldConfig.AcceptedTextConfigIff` | Tesbo-Backend-Nest/src/custom-fields/custom-field-validation.ts:33-50 | a text field is accepted, as it is, if and only if its limit is a whole number from 1 to the ceiling of its type and its default a text within it |
| `FieldConfig.AcceptedNumberConfigIff` | Tesbo-Backend-Nest/src/custom-fields/custom-field-validation.ts:108-129 | a number field is accepted, with decimals allowed unless ruled out, if and only if its bounds are numbers in order, its unit is short and its default an accepted value |
| `FieldConfig.AcceptedBooleanAndDateConfigIff` | Tesbo-Backend-Nest/src/custom-fields/custom-field-validation.ts:51-60 | when yes/no and date fields are accepted and what is then stored: yes_no, and both past and future, unless said otherwise |
| `FieldConfig.AcceptedSelectConfigIff` | Tesbo-Backend-Nest/src/custom-fields/custom-field-validation.ts:61-107 | a select is accepted if and only if it has options with labels of their own, whole bounds in order and within their number, and active defaults; and only its options are stored otherwise than sent |
| `FieldConfig.LabelsAcceptedIff` | Tesbo-Backend-Nest/src/custom-fields/custom-field-validation.ts:67-81 | options are accepted if and only if no label is blank once trimmed or that of an earlier one, ignoring case |
| `FieldConfig.OptionsBecome` | Tesbo-Backend-Nest/src/custom-fields/custom-field-validation.ts:74-79 | each option keeps its id, trimmed label and order or gets a fresh id and its place, and is active unless switched off |
| `FieldConfig.StoredLabels` | Tesbo-Backend-Nest/src/custom-fields/custom-field-validation.ts:63-81 | a stored select has options whose labels are trimmed, not blank, and distinct ignoring case |
| `FieldConfig.ValidateSelection` | Tesbo-Backend-Nest/src/custom-fields/custom-field-validation.ts:171-188 | the checking loop accepts exactly the selections within bounds of active options |
| `FieldConfig.ValueStays` | Tesbo-Backend-Nest/src/custom-fields/custom-field-validation.ts:150-206 | an accepted value is accepted again unchanged |
| `FieldConfig.AcceptedTextAndNumberIff` | Tesbo-Backend-Nest/src/custom-fields/custom-field-validation.ts:152-197 | a text is accepted if and only if it is no longer than the limit once trimmed, a number if and only if it is within the bounds and whole where decimals are not allowed |
| `FieldConfig.AcceptedDateIff` | Tesbo-Backend-Nest/src/custom-fields/custom-field-validation.ts:198-202 | a date is accepted if and only if it has the form of one and is neither before today where the past is shut out nor after it where the future is |
| `FieldConfig.RefusedForReason` | Tesbo-Backend-Nest/src/custom-fields/custom-field-validation.ts:150-206 | a value that is refused is refused with a problem it has |
| `FieldConfig.PastAndFuture` | Tesbo-Backend-Nest/src/custom-fields/custom-field-validation.ts:15-23 | with the past shut out a day before today is refused as past and one after it accepted, and the other way round for the future |
| `FieldConfig.EarlierIff` | Tesbo-Backend-Nest/src/custom-fields/custom-field-validation.ts:17-20 | one date is earlier than another if and only if it is smaller at the first character where they differ |
| `FieldConfig.SelectionKept` | Tesbo-Backend-Nest/src/custom-fields/custom-field-validation.ts:171-188 | an accepted selection is stored as the same options, once each, in first-occurrence order, all active and within the bounds |
| `FieldConfig.DefaultPasses` | Tesbo-Backend-Nest/src/custom-fields/custom-field-validation.ts:208-213 | a stored text, boolean, number or date default passes value validation, unchanged but for a text with space around it |
| `FieldConfig.DefaultOptionPassesIff` | Tesbo-Backend-Nest/src/custom-fields/custom-field-validation.ts:84-87 | a single-select default passes if and only if it is a string or itself strictly an active option's id |
| `FieldConfig.DefaultSelectionPassesIff` | Tesbo-Backend-Nest/src/custom-fields/custom-field-validation.ts:100-104 | a multi-select default passes if and only if all its ids are strings and, once each, within the bounds |
| `FieldConfig.DefaultSelectionTooFew` | Tesbo-Backend-Nest/src/custom-fields/custom-field-validation.ts:89-104 | an accepted configuration whose own default is not an accepted value |
| `FieldConfig.DefaultByNumberRefused` | Tesbo-Backend-Nest/src/custom-fields/custom-field-validation.ts:84-87 | the default option 5, a number, is accepted for the option "5" and refused as a value |
| `FieldConfig.SelectDefaultValueUnchecked` | Tesbo-Backend-Nest/src/custom-fields/custom-field-validation.ts:208-213 | a select's defaultValue is never looked at when the configuration is accepted, yet is what a missing value becomes |
| `FieldConfig.SelectDefaultPassesIff` | Tesbo-Backend-Nest/src/custom-fields/custom-field-validation.ts:166-188 | it passes value validation if and only if it is strictly an active option's id, or a list of such ids that, once each, is within the bounds |
| `FieldConfig.DefaultUnknownRefused` | Tesbo-Backend-Nest/src/custom-fields/custom-field-validation.ts:208-213 | an accepted default that names no option, refused as a value |
| `FieldConfig.SomeSelectionIff` | Tesbo-Backend-Nest/src/custom-fields/custom-field-validation.ts:88-105 | an accepted multi-select can be given some value if and only if minSelected is at most its distinct active options |
| `FieldConfig.NoSelectionMeets` | Tesbo-Backend-Nest/src/custom-fields/custom-field-validation.ts:88-105 | three of two options: accepted, and every value refused |
| `FieldConfig.SomeNumberIff` | Tesbo-Backend-Nest/src/custom-fields/custom-field-validation.ts:108-130 | an accepted number field can be given some value if and only if it takes decimals or a whole number lies within its bounds |
| `FieldConfig.NoNumberMeets` | Tesbo-Backend-Nest/src/custom-fields/custom-field-validation.ts:108-130 | a whole number between 0.2 and 0.8: accepted, and every value refused |
| `RouteCoverage.CoveredRoutePatterns` | e2e/scripts/coverage-report.ts:589-625 | the bucketed search credits exactly what the unbucketed one does |
| `RouteCoverage.BucketIsEnough` | e2e/scripts/coverage-report.ts:590-601 | searching the routes of equal segment count is searching all of them |
| `RouteCoverage.SearchFinds` | e2e/scripts/coverage-report.ts:598-620 | the search finds the first matching route with the fewest wildcards, and nothing only if none matches |
| `RouteCoverage.FitsIff` | e2e/scripts/coverage-report.ts:602-615 | a route fits a reference if and only if they have as many segments and wherever these differ one of the two is :x, on either side |
| `RouteCoverage.WildcardsAreDifferences` | e2e/scripts/coverage-report.ts:602-615 | it then needs one wildcard for each place where they differ |
| `RouteCoverage.CreditedIff` | e2e/scripts/coverage-report.ts:589-625 | a route is credited if and only if it is not empty and is the first most literal match of some reference |
| `RouteCoverage.DeclaredIsItsOwn` | e2e/scripts/coverage-report.ts:598-622 | a declared reference is attributed to itself, and credited if and only if it is not empty |
| `RouteCoverage.Compare` | e2e/scripts/coverage-report.ts:602-615 | the segment loop decides the match and counts its wildcards |
| `RouteCoverage.JoinedSplit` | e2e/scripts/coverage-report.ts:599-603 | splitting a path loses nothing, so no wildcards means the same path |
| `RoutePaths.NormalizePath` | e2e/scripts/coverage-report.ts:80-92 | the five replacements in order, as Normal: the result is in normal form, a path in normal form is returned as it is, and the lemmas below say which normal form another path has |
| `RoutePaths.NormalIsNormal` | e2e/scripts/coverage-report.ts:80-92 | the result has no closed interpolation, no query or fragment, only :x parameters, no double and no trailing slash |
| `RoutePaths.NormalizeTwiceIsOnce` | e2e/scripts/coverage-report.ts:80-92 | normalising is idempotent on every string |
| `RoutePaths.InterpolationIsParameter` | e2e/scripts/coverage-report.ts:81-87 | the first interpolation of any path counts as :x whatever is written in it, a question mark or fragment sign included |
| `RoutePaths.QueryDropped` | e2e/scripts/coverage-report.ts:88 | a query or fragment behind a path is dropped |
| `RoutePaths.ParameterRenamed` | e2e/scripts/coverage-report.ts:89 | which name a parameter has makes no difference |
| `RoutePaths.DoubleSlashDropped` | e2e/scripts/coverage-report.ts:90 | two slashes anywhere count as one |
| `RoutePaths.TrailingSlashDropped` | e2e/scripts/coverage-report.ts:91 | a slash behind a normal path is dropped, and nothing else of it |
| `BillingModel.FindLive` | Tesbo-Backend-Nest/src/billing/billing.service.ts:255-256 | a live listed subscription, or none when no listed one is live |
| `BillingModel.StatusesAreTheirWords` | Tesbo-Backend-Nest/src/billing/billing.service.ts:86-94 | which statuses count as ended and which as billable, by Stripe's words for them |
| `Sequences.DistinctIsTheSet` | Tesbo-Backend-Nest/src/automation/automation.service.ts:141-151 | spreading a Set gives the same elements, each once |
| `Sequences.DistinctKeepsOrder` | Tesbo-Backend-Nest/src/automation/automation.service.ts:141-151 | and in the order they first occurred |

## Left out

- Retention of webhook ids, portal sessions, usage summaries, invoice lists, history pages and money and date formatting: they read or format and write nothing the theorems are about.
- plan-limits' own history entry and mail when grace runs out: only its claim of the notice column and the lapse of a grant are steps of the runs (`GraceNoticeClaimed`, `GrantExpires`).
- The last detected country column, and what the metadata write-back of a reconcile leaves at Stripe: Stripe's answers are given with each step. That the write-back may fail is modelled (`ReconcileFails`).
- A process that dies between two statements of a billing handler: a handler throws before its first write, or after its writes and before its mail. A reconcile step of the runs may also apply a subscription whose write-back would have failed, which only adds runs.
- BillingLedger.UpgradeLedger: a history insert always succeeds here; the helper swallows a failing one silently, and the trail then lacks that entry.
- The operator's panel is an environment step that sets plan and override; who may do so is not modelled.
- Two billing handlers interleave inside one another in `BillingRace` only, on one workspace, where no operator changes the plan meanwhile; elsewhere each is one atomic step.
- The customer lookup of an invoice is the database's answer, carried by the invoice.
- Quotes without a signed-in user: they skip the lock, which is the case of a workspace without a customer.
- BillingService.BillingService.GetBillingInfo: the page's price ids and portal flags are not described.
- BillingService.BillingService.CreateCheckoutSession: a customer just created is taken to have no subscriptions; that listing them may fail is not modelled.
- BillingReconcile.ReconcileIsStable: assumes that listing and retrieving a subscription agree.
- Postgres isolation below one statement: each statement of the ingest is atomic, `createRun` and `recordResult` are interleaved at theirs, and closing a run is one step.
- RunRace.ShardsAgree: runs and cases are not deleted or edited while the calls race.
- IngestService.AutomationService.RecordResult: duration, error text, executor and timestamps are not columns of the model, and a retry count that is not a natural number is refused before it.
- IngestService.AutomationService.CreateRun: the bounded text fields, trigger kind and activity entry are not modelled.
- IngestService.SummaryMismatch: a reported value is a real number or not finite; which JSON values convert to which number is not modelled.
- Evidence upload, storage quota and activity logging text: no table the theorems are about.
- CustomFieldFilters.FiltersSelect: assumes the unique index on (definition, test case) and that no stored value is JSON null; PostgreSQL may skip a conjunct that would fail, so a query that fails here may succeed there.
- CustomFieldFilters.ClauseMeaning: ILIKE, number rendering and the casts are uninterpreted, and a numeric operand is a real number, so NaN operands are not modelled.
- FieldConfig.ValidateConfigShape: numbers are reals without NaN and infinities, JSON objects as field values are not modelled, and a limit that is not a number bounds nothing.
- FieldConfig.DefaultPasses: on the day the configuration was stored; a date default may fall out of range later.
- Zip.ReaderInvertsLayout: inflating is an abstract function, and names are bytes rather than decoded text.
- Csv.ParseOfPrint: how a number renders is given with the cell; strings are sequences of characters, not UTF-16 units.
- Case mapping is that of ASCII letters, and regular expressions are written out as functions on characters.
- The source scanning that finds declared routes and referenced paths: heuristics without a specification.
