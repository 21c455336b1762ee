/**
 Which currency a workspace is quoted and charged in, which price and which Stripe customer a
 checkout uses. `world.customers` is Stripe's answer about customers; `country` is the country
 detection's answer about the request.
 */
module Pricing {
  import opened Wrappers
  import opened Text
  import opened BillingModel
  import CountryDetection

  datatype PricingError =
    | UnsupportedCurrency
    | LockedToOther(locked: Currency)
    | IndiaOnly
    | StripeFailed
    | NotConfigured
    | AlreadySubscribed
    | OwnerOnly
    | BadInterval
    | NoUrl

  datatype Price = Price(id: string, currency: Currency)

  datatype Quote = Quote(monthly: Price, annual: Price, inrAvailable: bool, currencyLocked: bool,
                         source: CountryDetection.CountrySource)

  // What Stripe is asked to open.
  datatype Session = Session(price: Price, customer: Id)

  // One request to check out: what it asks for and what Stripe and the country detection answer.
  // `created` is the customer Stripe would create, if it would.
  datatype Attempt = Attempt(
    world: World,
    country: CountryDetection.Resolution,
    request: Request,
    interval: Interval,
    created: Option<Id>)

  predicate InrConfigured(config: Config) {
    config.inrMonthly != "" && config.inrAnnual != ""
  }

  function ResolvePrice(config: Config, interval: Interval, currency: Currency): Price {
    if currency == Inr && InrConfigured(config) then
      Price(if interval == Monthly then config.inrMonthly else config.inrAnnual, Inr)
    else
      Price(if interval == Monthly then config.usdMonthly else config.usdAnnual, Usd)
  }

  // The currency the workspace is pinned to. An opened but never paid checkout pins nothing.
  function LockedCurrency(row: Row, world: World): Result<Option<Currency>, PricingError> {
    if row.billingCurrency.Some? then Ok(row.billingCurrency)
    else if row.customer.None? then Ok(None)
    else if row.customer.value !in world.customers then Err(StripeFailed)
    else
      var customer := world.customers[row.customer.value];
      if customer.deleted || !customer.pin.In? || !customer.invoiced then Ok(None) else Ok(Some(customer.pin.currency))
  }

  // A pin read from Stripe is mirrored into the row.
  function MirrorLock(row: Row, locked: Option<Currency>): Row {
    if row.billingCurrency.None? && locked.Some? then row.(billingCurrency := locked) else row
  }

  function IndiaEligible(locked: Option<Currency>, country: CountryDetection.Resolution): bool {
    if locked.Some? then locked == Some(Inr) else country.country == Some("IN")
  }

  // What the caller asked for: nothing, a currency, or something that is neither.
  datatype Request = NoRequest | Asks(currency: Currency) | Unsupported

  function ReadRequest(requested: Option<string>): Request {
    if requested.None? || Lower(Trim(requested.value)) == "" then NoRequest
    else if AsCurrency(Lower(Trim(requested.value))).Some? then Asks(AsCurrency(Lower(Trim(requested.value))).value)
    else Unsupported
  }

  // Spelling does not matter: case and outer space make no difference, a blank request asks for
  // nothing, and anything but the two currencies is unsupported.
  lemma RequestSpelling(requested: string)
    ensures ReadRequest(Some(requested)) == ReadRequest(Some(Lower(Trim(requested))))
    ensures ReadRequest(Some(requested)).NoRequest? <==> Trim(requested) == ""
    ensures Trim(requested) != "" ==>
              ReadRequest(Some(requested))
              == if AsCurrency(requested).Some? then Asks(AsCurrency(requested).value) else Unsupported
  {
    RequestStays(requested);
  }

  lemma IntervalsAreRead()
    ensures ReadInterval("monthly") == Some(Monthly) && ReadInterval("annual") == Some(Annual)
  {
    assert "monthly"[0] != "annual"[0];
  }

  // The two codes, as asked for and as Stripe reports them.
  lemma CodesAreRead()
    ensures ReadRequest(Some("usd")) == Asks(Usd) && ReadRequest(Some("inr")) == Asks(Inr)
    ensures AsCurrency("usd") == Some(Usd) && AsCurrency("inr") == Some(Inr)
    ensures PinOfCode(Some("usd")) == In(Usd) && PinOfCode(Some("inr")) == In(Inr)
    ensures PinOfCode(None) == Unpinned && PinOfCode(Some("")) == Unpinned
  {
    TrimmedStays("usd");
    TrimmedStays("inr");
    assert Lower("usd") == "usd" && Lower("inr") == "inr" && "usd" != "inr";
  }

  lemma RequestStays(requested: string)
    ensures Lower(Trim(Lower(Trim(requested)))) == Lower(Trim(requested))
  {
    var raw := Lower(Trim(requested));
    assert raw != "" ==> !IsSpace(raw[0]) && !IsSpace(raw[|raw| - 1]);
    TrimmedStays(raw);
    LowerIdempotent(Trim(requested));
  }

  function ResolveCurrency(request: Request, locked: Option<Currency>, eligible: bool): Result<Currency, PricingError> {
    if request.Unsupported? then Err(UnsupportedCurrency)
    else if locked.Some? then
      if request.Asks? && request.currency != locked.value then Err(LockedToOther(locked.value)) else Ok(locked.value)
    else if request == Asks(Inr) && !eligible then Err(IndiaOnly)
    else if request.Asks? then Ok(request.currency)
    else Ok(if eligible then Inr else Usd)
  }

  function GetPricing(config: Config, row: Row, world: World, country: CountryDetection.Resolution, request: Request)
    : Result<Quote, PricingError>
  {
    var locked :- LockedCurrency(row, world);
    var currency :- ResolveCurrency(request, locked, IndiaEligible(locked, country));
    Ok(Quote(ResolvePrice(config, Monthly, currency), ResolvePrice(config, Annual, currency),
             InrConfigured(config) && IndiaEligible(locked, country), locked.Some?,
             if locked.Some? then CountryDetection.Override else country.source))
  }

  // The row once pricing has been asked for.
  function AfterPricing(row: Row, world: World): Row {
    var locked := LockedCurrency(row, world);
    if locked.Ok? then MirrorLock(row, locked.value) else row
  }

  // The customer a checkout in `currency` is opened for.
  function ResolveCustomer(row: Row, world: World, currency: Currency, created: Option<Id>)
    : Result<(Id, Row), PricingError>
  {
    if row.customer.None? then NewCustomer(row, created)
    else if row.customer.value !in world.customers then Err(StripeFailed)
    else
      var customer := world.customers[row.customer.value];
      if customer.deleted || !customer.pin.In? || customer.pin.currency == currency || customer.invoiced then
        Ok((row.customer.value, row))
      else NewCustomer(row, created)
  }

  function NewCustomer(row: Row, created: Option<Id>): Result<(Id, Row), PricingError> {
    if created.None? then Err(StripeFailed)
    else Ok((created.value, row.(customer := created, billingCurrency := None)))
  }

  function CheckoutCurrency(row: Row, a: Attempt): Result<Currency, PricingError> {
    var locked :- LockedCurrency(row, a.world);
    ResolveCurrency(a.request, locked, IndiaEligible(locked, a.country))
  }

  // The currency and the price of a checkout, before a customer is looked for.
  function CheckoutPrice(config: Config, row: Row, a: Attempt): Result<(Currency, Price), PricingError> {
    var currency :- CheckoutCurrency(row, a);
    var price := ResolvePrice(config, a.interval, currency);
    if price.id == "" then Err(NotConfigured) else Ok((currency, price))
  }

  // A customer just created has no subscriptions to be listed.
  function Checkout(config: Config, row: Row, a: Attempt): Result<Session, PricingError> {
    var (currency, price) :- CheckoutPrice(config, row, a);
    var (customer, _) :- ResolveCustomer(AfterPricing(row, a.world), a.world, currency, a.created);
    if Some(customer) == a.created then Ok(Session(price, customer))
    else if customer !in a.world.listing then Err(StripeFailed)
    else if FindLive(a.world.listing[customer]).Some? then Err(AlreadySubscribed)
    else Ok(Session(price, customer))
  }

  // The row once a checkout has been asked for, whether or not it was refused.
  function AfterCheckout(config: Config, row: Row, a: Attempt): Row {
    var mirrored := AfterPricing(row, a.world);
    var price := CheckoutPrice(config, row, a);
    if price.Err? then mirrored
    else
      var customer := ResolveCustomer(mirrored, a.world, price.value.0, a.created);
      if customer.Ok? then customer.value.1 else mirrored
  }

  function ReadInterval(interval: string): Option<Interval> {
    if interval == "monthly" then Some(Monthly) else if interval == "annual" then Some(Annual) else None
  }

  // What Stripe answers when asked for a session.
  datatype SessionAnswer = Refused | WithoutUrl | OpenedAt(url: string)

  function UrlOf(answer: SessionAnswer): Result<string, PricingError> {
    match answer
    case Refused => Err(StripeFailed)
    case WithoutUrl => Err(NoUrl)
    case OpenedAt(url) => Ok(url)
  }

  // ---------------------------------------------------------------------------------------
  // Quotes
  // ---------------------------------------------------------------------------------------

  // Asking for pricing writes at most a pin that was already binding: the lock reads the same
  // before and after, however often it is asked for.
  lemma LockIsStable(row: Row, world: World)
    ensures LockedCurrency(AfterPricing(row, world), world) == LockedCurrency(row, world)
    ensures AfterPricing(AfterPricing(row, world), world) == AfterPricing(row, world)
  {
  }

  // What is quoted is charged: after a quote, a checkout for the same request, signals and
  // prices uses, for either interval, the very price the quote named, or is refused because that
  // price has no id; a refused quote is refused at checkout for the same reason.
  lemma QuotedPriceIsCharged(config: Config, row: Row, a: Attempt)
    ensures var quote := GetPricing(config, row, a.world, a.country, a.request);
            var charged := CheckoutPrice(config, AfterPricing(row, a.world), a);
            && (quote.Err? ==> charged == Err(quote.error))
            && (quote.Ok? ==>
                  var quoted := if a.interval == Monthly then quote.value.monthly else quote.value.annual;
                  if quoted.id == "" then charged == Err(NotConfigured) else charged.Ok? && charged.value.1 == quoted)
    ensures var quote := GetPricing(config, row, a.world, a.country, a.request);
            quote.Ok? ==> quote.value.monthly.currency == quote.value.annual.currency
  {
    LockIsStable(row, a.world);
  }

  // An INR price is used exactly when both INR prices are configured and either the workspace is
  // locked to INR, or it is not locked, the request came from India, and USD was not asked for.
  lemma InrPriceIff(config: Config, row: Row, world: World, country: CountryDetection.Resolution, request: Request)
    ensures var quote := GetPricing(config, row, world, country, request);
            var locked := LockedCurrency(row, world);
            (quote.Ok? && quote.value.monthly.currency == Inr)
            <==> && InrConfigured(config) && locked.Ok? && !request.Unsupported? && request != Asks(Usd)
                 && (locked.value == Some(Inr) || (locked.value.None? && country.country == Some("IN")))
  {
  }

  // The prices of a quote are the configured ones of its currency, interval by interval.
  lemma QuotedIds(config: Config, row: Row, world: World, country: CountryDetection.Resolution, request: Request)
    requires GetPricing(config, row, world, country, request).Ok?
    ensures var quote := GetPricing(config, row, world, country, request).value;
            if quote.monthly.currency == Inr then
              quote.monthly.id == config.inrMonthly != "" && quote.annual.id == config.inrAnnual != ""
            else quote.monthly.id == config.usdMonthly && quote.annual.id == config.usdAnnual
  {
  }

  // No id is configured for two prices of different currencies.
  predicate IdsApart(config: Config) {
    && config.inrMonthly != config.usdMonthly && config.inrMonthly != config.usdAnnual
    && config.inrAnnual != config.usdMonthly && config.inrAnnual != config.usdAnnual
  }

  // What a checkout charges is an INR price, by its id, exactly when both INR prices are configured,
  // USD was not asked for, and the workspace is locked to INR, or not locked and in India; and it is
  // the one for the interval asked for.
  lemma ChargedIdIff(config: Config, row: Row, a: Attempt)
    requires IdsApart(config) && CheckoutPrice(config, row, a).Ok?
    ensures var id := CheckoutPrice(config, row, a).value.1.id;
            var locked := LockedCurrency(row, a.world);
            && (id == (if a.interval == Monthly then config.inrMonthly else config.inrAnnual)
                <==> && InrConfigured(config) && locked.Ok? && a.request != Asks(Usd)
                     && (locked.value == Some(Inr) || (locked.value.None? && a.country.country == Some("IN"))))
            && (id == (if a.interval == Monthly then config.usdMonthly else config.usdAnnual)
                <==> id != (if a.interval == Monthly then config.inrMonthly else config.inrAnnual))
  {
    InrPriceIff(config, row, a.world, a.country, a.request);
  }

  // The lock: a currency mirrored in the row, or the pin of a customer that has been billed. A
  // checkout that was opened and never paid locks nothing, and neither does a deleted customer.
  lemma LockedIff(row: Row, world: World, currency: Currency)
    ensures LockedCurrency(row, world) == Ok(Some(currency))
       <==> || row.billingCurrency == Some(currency)
            || (row.billingCurrency.None? && Billed(row, world) && PinOn(row, world) == In(currency))
    ensures LockedCurrency(row, world).Err?
       <==> row.billingCurrency.None? && row.customer.Some? && row.customer.value !in world.customers
  {
  }

  // Why a quote is refused: the currency asked for is no currency of the service, is not the locked
  // one, or is INR without a lock and outside India.
  lemma RefusedQuoteIff(config: Config, row: Row, world: World, country: CountryDetection.Resolution, request: Request)
    requires LockedCurrency(row, world).Ok?
    ensures var quote := GetPricing(config, row, world, country, request);
            var locked := LockedCurrency(row, world).value;
            && (quote == Err(UnsupportedCurrency) <==> request.Unsupported?)
            && (quote.Err? && quote.error.LockedToOther?
                <==> request.Asks? && locked.Some? && request.currency != locked.value)
            && (quote == Err(IndiaOnly) <==> request == Asks(Inr) && locked.None? && country.country != Some("IN"))
            && (quote.Err? ==> quote.error == UnsupportedCurrency || quote.error == IndiaOnly
                               || (locked.Some? && quote.error == LockedToOther(locked.value)))
  {
  }

  // The flags of a quote are true of what the caller may ask next: INR is offered exactly when asking
  // for it would give an INR price, and the toggle is locked exactly when asking for some currency
  // would be refused because of the lock.
  lemma FlagsForetell(config: Config, row: Row, world: World, country: CountryDetection.Resolution, request: Request)
    requires GetPricing(config, row, world, country, request).Ok?
    ensures var quote := GetPricing(config, row, world, country, request).value;
            var inr := GetPricing(config, row, world, country, Asks(Inr));
            && (quote.inrAvailable <==> inr.Ok? && inr.value.monthly.currency == Inr)
            && (quote.currencyLocked
                <==> exists currency, locked ::
                       GetPricing(config, row, world, country, Asks(currency)) == Err(LockedToOther(locked)))
            && quote.source == if quote.currencyLocked then CountryDetection.Override else country.source
  {
    var locked := LockedCurrency(row, world).value;
    if locked.Some? {
      var other := if locked.value == Usd then Inr else Usd;
      assert GetPricing(config, row, world, country, Asks(other)) == Err(LockedToOther(locked.value));
    }
  }

  // A workspace locked to USD is never quoted INR, and with neither a lock nor a country the
  // answer is USD unless INR was asked for, which is refused.
  lemma UsdByDefault(config: Config, row: Row, world: World, country: CountryDetection.Resolution, request: Request)
    requires LockedCurrency(row, world).Ok?
    requires LockedCurrency(row, world).value == Some(Usd)
          || (LockedCurrency(row, world).value.None? && country.country.None?)
    ensures var quote := GetPricing(config, row, world, country, request);
            if request.Unsupported? || request == Asks(Inr) then quote.Err?
            else quote.Ok? && quote.value.monthly == Price(config.usdMonthly, Usd)
                 && quote.value.annual == Price(config.usdAnnual, Usd) && !quote.value.inrAvailable
  {
  }

  // Self-declaring India never beats a signal that says otherwise.
  lemma DeclaredCannotBuyInr(config: Config, row: Row, world: World, signals: CountryDetection.Signals,
                             request: Request, declared: string, other: string)
    requires CountryDetection.HardSignal(signals)
    ensures GetPricing(config, row, world, CountryDetection.Resolve(signals, declared), request)
         == GetPricing(config, row, world, CountryDetection.Resolve(signals, other), request)
  {
    CountryDetection.DeclaredIsLastResort(signals, declared, other);
  }

  // ---------------------------------------------------------------------------------------
  // What a quote shows
  // ---------------------------------------------------------------------------------------

  // A price as Stripe reports it.
  datatype Reported = Reported(currency: string, amount: Option<nat>)

  datatype Page = Page(
    currency: string,
    monthlyAmount: Option<nat>,
    annualAmount: Option<nat>,
    inrAvailable: bool,
    currencyLocked: bool,
    source: CountryDetection.CountrySource)

  // A price without an id is not asked for; one Stripe does not report fails the page.
  predicate Retrieved(prices: map<string, Reported>, price: Price) {
    price.id == "" || price.id in prices
  }

  function ReportedAs(prices: map<string, Reported>, price: Price): Option<Reported> {
    if price.id != "" && price.id in prices then Some(prices[price.id]) else None
  }

  function AmountOf(price: Option<Reported>): Option<nat> {
    if price.Some? then price.value.amount else None
  }

  function PageOf(quote: Quote, prices: map<string, Reported>): Result<Page, PricingError> {
    if !Retrieved(prices, quote.monthly) || !Retrieved(prices, quote.annual) then Err(StripeFailed)
    else
      var monthly, annual := ReportedAs(prices, quote.monthly), ReportedAs(prices, quote.annual);
      Ok(Page(if monthly.Some? then monthly.value.currency else if annual.Some? then annual.value.currency else "usd",
              AmountOf(monthly), AmountOf(annual), quote.inrAvailable, quote.currencyLocked, quote.source))
  }

  function CodeOf(currency: Currency): string {
    if currency == Usd then "usd" else "inr"
  }

  // The configured price is in the currency it is configured for.
  predicate RightlyConfigured(prices: map<string, Reported>, price: Price) {
    price.id in prices ==> prices[price.id].currency == CodeOf(price.currency)
  }

  // What is shown is what is charged. The amount shown for an interval is the one Stripe reports for
  // the very price a checkout for it uses, and none only if it has none; and the currency shown is
  // the one quoted if and only if the first configured of the two prices is rightly configured.
  lemma ShownIsCharged(config: Config, row: Row, a: Attempt, prices: map<string, Reported>)
    requires GetPricing(config, row, a.world, a.country, a.request).Ok?
    requires PageOf(GetPricing(config, row, a.world, a.country, a.request).value, prices).Ok?
    ensures var quote := GetPricing(config, row, a.world, a.country, a.request).value;
            var page := PageOf(quote, prices).value;
            var charged := CheckoutPrice(config, AfterPricing(row, a.world), a);
            var shown := if a.interval == Monthly then page.monthlyAmount else page.annualAmount;
            && (charged.Ok? ==> charged.value.1.id in prices && shown == prices[charged.value.1.id].amount)
            && (charged.Err? ==> charged == Err(NotConfigured) && shown.None?)
            && (page.currency == CodeOf(quote.monthly.currency)
                <==> RightlyConfigured(prices, if quote.monthly.id != "" then quote.monthly else quote.annual)
                     || (quote.monthly.id == "" && quote.annual.id == ""))
  {
    QuotedPriceIsCharged(config, row, a);
  }

  // ---------------------------------------------------------------------------------------
  // The customer of a checkout
  // ---------------------------------------------------------------------------------------

  // A customer Stripe creates is a new one.
  predicate NewlyCreated(row: Row, created: Option<Id>) {
    created.None? || created != row.customer
  }

  predicate Known(row: Row, world: World) {
    row.customer.Some? && row.customer.value in world.customers
  }

  predicate Deleted(row: Row, world: World) {
    Known(row, world) && world.customers[row.customer.value].deleted
  }

  predicate Billed(row: Row, world: World) {
    Known(row, world) && world.customers[row.customer.value].invoiced
  }

  // The pin of the row's customer, while there is one.
  function PinOn(row: Row, world: World): Pin {
    if Known(row, world) && !Deleted(row, world) then world.customers[row.customer.value].pin else Unpinned
  }

  // The pin of the customer a checkout ends up with. A customer just created has none.
  function PinOf(a: Attempt, customer: Id): Pin {
    if Some(customer) == a.created || customer !in a.world.customers then Unpinned else a.world.customers[customer].pin
  }

  predicate Takes(pin: Pin, currency: Currency) {
    pin.Unpinned? || pin == In(currency)
  }

  // Stripe opens a session only for a customer that is not deleted and whose pin, if it has one, is
  // the price's own currency.
  predicate Accepts(a: Attempt, session: Session) {
    && (Some(session.customer) == a.created || session.customer !in a.world.customers
        || !a.world.customers[session.customer].deleted)
    && Takes(PinOf(a, session.customer), session.price.currency)
  }

  // A customer is replaced exactly when it carries the pin of the other of the two currencies and
  // was never billed: an invoice is never orphaned. So the one checkout ends up with takes the
  // resolved currency, unless it is deleted, was billed in the other, or is pinned to a third.
  lemma CustomerFitsCurrency(row: Row, a: Attempt)
    requires NewlyCreated(row, a.created) && CheckoutCurrency(row, a).Ok?
    ensures var currency := CheckoutCurrency(row, a).value;
            var resolved := ResolveCustomer(AfterPricing(row, a.world), a.world, currency, a.created);
            var pin := PinOn(row, a.world);
            resolved.Ok? ==>
              && (Some(resolved.value.0) == a.created
                  <==> row.customer.None? || (pin.In? && pin.currency != currency && !Billed(row, a.world)))
              && (Takes(PinOf(a, resolved.value.0), currency) || Deleted(row, a.world)
                  <==> !(pin.In? && pin.currency != currency && Billed(row, a.world)) && !pin.Elsewhere?)
  {
  }

  // How what Stripe accepts and what it is asked for can come apart.
  predicate Misfits(config: Config, row: Row, world: World, currency: Currency) {
    var pin := PinOn(row, world);
    || Deleted(row, world)
    || pin.Elsewhere?
    || (pin == In(Inr) && currency == Inr && !InrConfigured(config))
    || (pin == In(Inr) && currency == Usd && Billed(row, world))
    || (pin == In(Usd) && currency == Inr && InrConfigured(config) && Billed(row, world))
  }

  // Checkout asks Stripe for a session it accepts except in exactly these cases: the workspace's
  // customer is deleted; it is pinned to neither USD nor INR, billed or not; INR was resolved, is not
  // configured and so falls back to USD, for a customer pinned to INR; or the customer was billed in
  // one currency and the other was resolved and priced, which the lock prevents only as long as the
  // mirrored currency is the customer's own.
  lemma CheckoutFitsCustomerIff(config: Config, row: Row, a: Attempt)
    requires NewlyCreated(row, a.created) && Checkout(config, row, a).Ok?
    ensures Accepts(a, Checkout(config, row, a).value)
       <==> !Misfits(config, row, a.world, CheckoutCurrency(row, a).value)
  {
    var session := Checkout(config, row, a).value;
    var (currency, price) := CheckoutPrice(config, row, a).value;
    var resolved := ResolveCustomer(AfterPricing(row, a.world), a.world, currency, a.created);
    assert session == Session(price, resolved.value.0);
    CustomerFitsCurrency(row, a);
    assert Some(session.customer) == a.created || Some(session.customer) == row.customer;
    assert currency.Usd? || currency.Inr?;
    var pin := PinOn(row, a.world);
    assert pin.In? ==> pin.currency.Usd? || pin.currency.Inr?;
  }

  // The row ends up naming the customer a session was opened for, and with a new one unlocked; but for
  // the pin it mirrors, nothing else of it changes.
  lemma SessionsCustomerIsKept(config: Config, row: Row, a: Attempt)
    requires NewlyCreated(row, a.created) && Checkout(config, row, a).Ok?
    ensures var customer := Checkout(config, row, a).value.customer;
            var after := AfterCheckout(config, row, a);
            && after.customer == Some(customer)
            && after == row.(customer := after.customer, billingCurrency := after.billingCurrency)
            && (Some(customer) == a.created ==> after.billingCurrency.None?)
            && (Some(customer) != a.created ==>
                  Some(customer) == row.customer
                  && after.billingCurrency == Coalesce(row.billingCurrency, LockedCurrency(row, a.world).value))
  {
  }

  // The row's mirrored currency is the pin of the customer that was billed.
  predicate MirrorAgrees(row: Row, world: World) {
    row.billingCurrency.Some? && Billed(row, world) ==> Takes(PinOn(row, world), row.billingCurrency.value)
  }

  // With the mirror agreeing, a billed customer is only ever charged in its own currency or, INR
  // not being configured, in USD.
  lemma AgreeingMirrorFits(config: Config, row: Row, a: Attempt)
    requires MirrorAgrees(row, a.world) && CheckoutCurrency(row, a).Ok?
    ensures var currency := CheckoutCurrency(row, a).value;
            Misfits(config, row, a.world, currency)
            ==> Deleted(row, a.world) || PinOn(row, a.world).Elsewhere? || (currency == Inr && !InrConfigured(config))
  {
  }

  // A workspace whose customer Stripe answers about, with nothing listed for it.
  predicate Served(row: Row, a: Attempt, customer: Id, answer: Customer) {
    && row.customer == Some(customer) && a.created != Some(customer)
    && customer in a.world.customers && a.world.customers[customer] == answer
    && customer in a.world.listing && a.world.listing[customer] == []
  }

  predicate UsdConfigured(config: Config) {
    config.usdMonthly != "" && config.usdAnnual != ""
  }

  // Such a customer is sent to Stripe with a USD price, mirrored in USD or without any lock or country.
  lemma ServedInUsd(config: Config, row: Row, a: Attempt, customer: Id, answer: Customer)
    requires Served(row, a, customer, answer) && UsdConfigured(config) && a.request == NoRequest
    requires row.billingCurrency == Some(Usd)
          || (row.billingCurrency.None? && !answer.pin.In? && a.country.country.None?)
    requires answer.deleted || !answer.pin.In? || answer.pin.currency == Usd || answer.invoiced
    ensures Checkout(config, row, a) == Ok(Session(ResolvePrice(config, a.interval, Usd), customer))
    ensures CheckoutPrice(config, row, a).value.0 == Usd
  {
  }

  // A customer pinned to euros, as by a subscription made in the Dashboard: no lock is read, the
  // customer is kept, billed or not, and Stripe is sent a USD price for it.
  lemma ThirdCurrencyMisfits(config: Config, row: Row, a: Attempt, customer: Id, billed: bool)
    requires Served(row, a, customer, Customer(false, PinOfCode(Some("eur")), billed)) && UsdConfigured(config)
    requires a.request == NoRequest && row.billingCurrency.None? && a.country.country.None?
    ensures Checkout(config, row, a) == Ok(Session(ResolvePrice(config, a.interval, Usd), customer))
    ensures !Accepts(a, Session(ResolvePrice(config, a.interval, Usd), customer))
  {
    TrimmedStays("eur");
    assert Lower("eur") == "eur";
    ServedInUsd(config, row, a, customer, Customer(false, Elsewhere, billed));
  }

  // A customer deleted at Stripe: it is kept, and every later checkout is opened for it.
  lemma DeletedCustomerMisfits(config: Config, row: Row, a: Attempt, customer: Id, pin: Pin, billed: bool)
    requires Served(row, a, customer, Customer(true, pin, billed)) && UsdConfigured(config)
    requires a.request == NoRequest && row.billingCurrency == Some(Usd)
    ensures Checkout(config, row, a) == Ok(Session(ResolvePrice(config, a.interval, Usd), customer))
    ensures AfterCheckout(config, row, a) == row
    ensures !Accepts(a, Session(ResolvePrice(config, a.interval, Usd), customer))
  {
    ServedInUsd(config, row, a, customer, Customer(true, pin, billed));
  }

  // One delivered event makes the mirror disagree. The workspace's customer is pinned to INR and
  // billed; an active USD subscription that names the workspace is reported, as from a checkout left
  // open on a customer since replaced; and the next checkout sends Stripe a USD price for the
  // customer pinned to INR, with INR fully configured.
  lemma ForeignSubscriptionMisfits(config: Config, s: State, event: Event, sub: Subscription, workspace: Id,
                                   customer: Id, a: Attempt, now: Time)
    requires workspace in s.rows && event.id !in s.processed && event.body == SubscriptionChanged(sub)
    requires sub.status == Active && sub.organization == Some(workspace) && sub.currency == Some(Usd)
    requires Served(s.rows[workspace], a, customer, Customer(false, In(Inr), true))
    requires s.rows[workspace].billingCurrency == Some(Inr)
    requires InrConfigured(config) && UsdConfigured(config) && a.request == NoRequest
    ensures var after := Deliver(config, s, event, now);
            && workspace in after.rows
            && MirrorAgrees(s.rows[workspace], a.world) && !MirrorAgrees(after.rows[workspace], a.world)
            && Checkout(config, after.rows[workspace], a)
               == Ok(Session(ResolvePrice(config, a.interval, Usd), customer))
            && !Accepts(a, Session(ResolvePrice(config, a.interval, Usd), customer))
  {
    var row := SubscriptionEffect(config, s.rows[workspace], sub, now).row;
    assert Deliver(config, s, event, now).rows[workspace] == row;
    assert row.billingCurrency == Some(Usd) && row.customer == Some(customer);
    ServedInUsd(config, row, a, customer, Customer(false, In(Inr), true));
  }

  // A workspace billed in INR before, once the INR prices are taken out of the configuration:
  // checkout is let through to Stripe with a USD price for a customer pinned to INR.
  lemma UnconfiguredInrReachesStripe(config: Config, row: Row, a: Attempt, customer: Id)
    requires Served(row, a, customer, Customer(false, In(Inr), true)) && row.billingCurrency == Some(Inr)
    requires !InrConfigured(config) && UsdConfigured(config) && a.request == NoRequest
    ensures Checkout(config, row, a) == Ok(Session(ResolvePrice(config, a.interval, Usd), customer))
    ensures !Accepts(a, Session(ResolvePrice(config, a.interval, Usd), customer))
  {
    assert CheckoutPrice(config, row, a) == Ok((Inr, ResolvePrice(config, a.interval, Usd)));
  }

  // ---------------------------------------------------------------------------------------
  // The second checkout
  // ---------------------------------------------------------------------------------------

  // The customer on the row is the one checkout uses.
  predicate KeepsCustomer(row: Row, world: World, currency: Currency) {
    var pin := PinOn(row, world);
    Known(row, world) && !(pin.In? && pin.currency != currency && !Billed(row, world))
  }

  // A checkout that has its price is refused for an existing subscription exactly when the row's
  // customer is kept and itself has one Stripe would bill. The subscription on the workspace's own
  // record plays no part.
  lemma RefusedAsSubscribedIff(config: Config, row: Row, a: Attempt)
    requires NewlyCreated(row, a.created) && CheckoutPrice(config, row, a).Ok?
    ensures Checkout(config, row, a) == Err(AlreadySubscribed)
       <==> && KeepsCustomer(row, a.world, CheckoutPrice(config, row, a).value.0)
            && row.customer.value in a.world.listing
            && exists sub :: sub in a.world.listing[row.customer.value] && Live(sub.status)
    ensures forall plan, subscription, status ::
              Checkout(config, row.(plan := plan, subscription := subscription, subscriptionStatus := status), a)
              == Checkout(config, row, a)
  {
    var currency := CheckoutPrice(config, row, a).value.0;
    var resolved := ResolveCustomer(AfterPricing(row, a.world), a.world, currency, a.created);
    assert AfterPricing(row, a.world).customer == row.customer;
    if KeepsCustomer(row, a.world, currency) {
      assert resolved.Ok? && resolved.value.0 == row.customer.value;
    } else {
      assert resolved.Ok? ==> Some(resolved.value.0) == a.created;
    }
  }

  // A workspace on Pro with its own subscription active is let through to a second one, when that
  // subscription belongs to a customer the row no longer names.
  lemma SwappedCustomerBuysTwice(config: Config, row: Row, a: Attempt, former: Id, customer: Id, active: Subscription)
    requires row.plan == Pro && row.subscription == Some(active.id) && active.status == Active
    requires former in a.world.listing && a.world.listing[former] == [active] && customer != former
    requires Served(row, a, customer, Customer(false, Unpinned, false)) && row.billingCurrency == Some(Usd)
    requires UsdConfigured(config) && a.request == NoRequest
    ensures Checkout(config, row, a) == Ok(Session(ResolvePrice(config, a.interval, Usd), customer))
  {
    ServedInUsd(config, row, a, customer, Customer(false, Unpinned, false));
  }

  // A purchase settles what it was sold as: once the running subscription it bought is applied, the
  // workspace is on Pro and locked to the currency it was charged in, every later quote is in that
  // currency whatever the country then says, and the interval on record is the one bought if and
  // only if an annual price does not share its id with a monthly one.
  lemma PurchaseSettles(config: Config, row: Row, a: Attempt, sub: Subscription, now: Time,
                        later: World, elsewhere: CountryDetection.Resolution)
    requires Checkout(config, row, a).Ok?
    requires var price := Checkout(config, row, a).value.price;
             !Ended(sub.status) && sub.priceId == price.id && sub.currency == Some(price.currency)
    ensures var price := Checkout(config, row, a).value.price;
            var after := SubscriptionEffect(config, AfterCheckout(config, row, a), sub, now).row;
            var quote := GetPricing(config, after, later, elsewhere, NoRequest);
            && after.plan == Pro && after.billingCurrency == Some(price.currency)
            && quote.Ok? && quote.value.currencyLocked
            && quote.value.monthly.currency == price.currency && quote.value.annual.currency == price.currency
            && (after.billingInterval == Some(a.interval)
                <==> a.interval == Monthly || (price.id != config.usdMonthly && price.id != config.inrMonthly))
  {
    assert CheckoutPrice(config, row, a).Ok?;
  }
}
