/** The client's own price estimates, and why they agree with the server's prices. */
module Pricing {
  import opened Ledgers
  import opened Text
  import opened Usage
  import opened Sessions
  import R = Spreading

  datatype Authority = Manual | OpenRouter | OfficialProvider | SelfHosted | OrganizationOverride {
    function Priority(): nat {
      match this
      case Manual => 10
      case OpenRouter => 20
      case OfficialProvider => 30
      case SelfHosted => 40
      case OrganizationOverride => 50
    }

    function Name(): string {
      match this
      case Manual => "manual"
      case OpenRouter => "openrouter"
      case OfficialProvider => "official_provider"
      case SelfHosted => "self_hosted"
      case OrganizationOverride => "organization_override"
    }
  }

  datatype ModelPrice = ModelPrice(input: real, output: real, cacheRead: real, cacheWrite: real, reasoning: real)

  /** Points in time in microseconds */
  datatype PriceEntry = PriceEntry(
    providerId: Option<string>,
    modelId: string,
    price: ModelPrice,
    currency: string,
    authority: Authority,
    effectiveFrom: Option<int>,
    effectiveUntil: Option<int>)

  datatype PriceBook = PriceBook(
    version: string,
    currency: string,
    models: map<string, ModelPrice>,
    entries: seq<PriceEntry>)

  /* ---- Choosing an entry ---- */

  predicate Applies(e: PriceEntry, provider: string, canonical: string, now: int) {
    && Canonical(e.modelId) == canonical
    && (e.providerId.Some? ==> AsciiLower(e.providerId.value) == provider)
    && (e.effectiveFrom.Some? ==> e.effectiveFrom.value <= now)
    && (e.effectiveUntil.Some? ==> now < e.effectiveUntil.value)
  }

  const I64_MIN := -0x8000_0000_0000_0000

  /** `effective_from.timestamp()`: whole seconds, rounded down */
  function Since(e: PriceEntry): int {
    if e.effectiveFrom.Some? then e.effectiveFrom.value / 1_000_000 else I64_MIN
  }

  /** The entry's rank without its position */
  predicate Higher(a: PriceEntry, b: PriceEntry) {
    || (a.providerId.Some? && b.providerId.None?)
    || (a.providerId.Some? == b.providerId.Some?
        && (|| a.authority.Priority() > b.authority.Priority()
            || (a.authority.Priority() == b.authority.Priority() && Since(a) > Since(b))))
  }

  /** Entry `i` outranks entry `j`: a provider's own price before a general one, then the higher
      authority, then the later start, then the later entry. */
  predicate Outranks(entries: seq<PriceEntry>, i: nat, j: nat)
    requires i < |entries| && j < |entries|
  {
    Higher(entries[i], entries[j]) || (!Higher(entries[j], entries[i]) && j < i)
  }

  /** Ranks are a strict total order: of two entries exactly one outranks the other. */
  lemma {:induction false} RanksAreTotal(entries: seq<PriceEntry>, i: nat, j: nat, k: nat)
    requires i < |entries| && j < |entries| && k < |entries|
    ensures i != j ==> (Outranks(entries, i, j) <==> !Outranks(entries, j, i))
    ensures !Outranks(entries, i, i)
    ensures Outranks(entries, i, j) && Outranks(entries, j, k) ==> Outranks(entries, i, k)
  {}

  /** Of the first `n` entries, entry `i` qualifies and outranks every other that does. */
  predicate Best(entries: seq<PriceEntry>, qualifies: nat -> bool, n: nat, i: nat)
    requires n <= |entries|
  {
    i < n && qualifies(i) && forall j | 0 <= j < n && j != i && qualifies(j) :: Outranks(entries, i, j)
  }

  lemma {:induction false} BestIsUnique(entries: seq<PriceEntry>, qualifies: nat -> bool, n: nat, i: nat, j: nat)
    requires n <= |entries| && Best(entries, qualifies, n, i) && Best(entries, qualifies, n, j)
    ensures i == j
  {
    if i != j {
      RanksAreTotal(entries, i, j, i);
    }
  }

  lemma {:induction false} BestGrows(entries: seq<PriceEntry>, qualifies: nat -> bool, n: nat, best: nat)
    requires n < |entries| && Best(entries, qualifies, n, best)
    ensures Best(entries, qualifies, n + 1, if qualifies(n) && Outranks(entries, n, best) then n else best)
  {
    if qualifies(n) && Outranks(entries, n, best) {
      forall j | 0 <= j < n && qualifies(j)
        ensures Outranks(entries, n, j)
      {
        RanksAreTotal(entries, n, best, j);
      }
    } else {
      RanksAreTotal(entries, best, n, n);
    }
  }

  function Applicable(entries: seq<PriceEntry>, provider: string, canonical: string, now: int): nat -> bool {
    (i: nat) => i < |entries| && Applies(entries[i], provider, canonical, now)
  }

  /** `max_by_key` over what the filter lets through */
  method SelectBest(entries: seq<PriceEntry>, qualifies: nat -> bool) returns (selected: Option<nat>)
    ensures selected == None <==> forall j | 0 <= j < |entries| :: !qualifies(j)
    ensures selected.Some? ==> Best(entries, qualifies, |entries|, selected.value)
  {
    selected := None;
    for index := 0 to |entries|
      invariant selected == None ==> forall j | 0 <= j < index :: !qualifies(j)
      invariant selected.Some? ==> Best(entries, qualifies, index, selected.value)
    {
      if selected.Some? {
        BestGrows(entries, qualifies, index, selected.value);
      }
      if qualifies(index) && (selected == None || Outranks(entries, index, selected.value)) {
        selected := Some(index);
      }
    }
  }

  /** Entry `i` is the one that applies and outranks every other that does. */
  predicate Chosen(entries: seq<PriceEntry>, provider: string, canonical: string, now: int, i: nat) {
    Best(entries, Applicable(entries, provider, canonical, now), |entries|, i)
  }

  predicate AnyApplies(entries: seq<PriceEntry>, provider: string, canonical: string, now: int) {
    exists j :: 0 <= j < |entries| && Applicable(entries, provider, canonical, now)(j)
  }

  predicate PricedByEntry(book: PriceBook, message: UsageMessage, i: nat, after: UsageMessage) {
    && i < |book.entries|
    && var e := book.entries[i];
       after == Priced(message, book, e.price, e.currency, e.authority.Name())
  }

  function OrElse(a: string, b: string): string {
    if a == [] then b else a
  }

  function Priced(message: UsageMessage, book: PriceBook, price: ModelPrice, currency: string,
                  authority: string): UsageMessage {
    message.(cost := Cost(R.LinearCost(message.tokens, AsPrice(price)), OrElse(currency, OrElse(book.currency, "USD")),
                          Estimated, Some(book.version), Some(authority)))
  }

  function AsPrice(p: ModelPrice): R.Price {
    R.Price("", p.input, p.output, p.cacheRead, p.cacheWrite, p.reasoning, "", "")
  }

  /** The key of the manual price that serves where no entry applies */
  function ManualKey(book: PriceBook, provider: string, canonical: string): Option<string> {
    if provider + "/" + canonical in book.models then Some(provider + "/" + canonical)
    else if canonical in book.models then Some(canonical)
    else None
  }

  ghost predicate PricedByChosen(book: PriceBook, message: UsageMessage, provider: string, canonical: string, now: int,
                                 after: UsageMessage) {
    exists i: nat :: Chosen(book.entries, provider, canonical, now, i) && PricedByEntry(book, message, i, after)
  }

  function PricedManually(book: PriceBook, message: UsageMessage, key: string): UsageMessage
    requires key in book.models
  {
    Priced(message, book, book.models[key], book.currency, "manual")
  }

  /* ---- What an estimate says, told from the message and the price book ---- */

  predicate InForce(e: PriceEntry, message: UsageMessage, now: int) {
    && Canonical(e.modelId) == Canonical(message.modelId)
    && (e.providerId.Some? ==> AsciiLower(e.providerId.value) == AsciiLower(message.providerId))
    && (e.effectiveFrom.Some? ==> e.effectiveFrom.value <= now)
    && (e.effectiveUntil.Some? ==> now < e.effectiveUntil.value)
  }

  /** Of two authorities the higher one */
  predicate Above(a: Authority, b: Authority) {
    match a
    case OrganizationOverride => b != OrganizationOverride
    case SelfHosted => b == OfficialProvider || b == OpenRouter || b == Manual
    case OfficialProvider => b == OpenRouter || b == Manual
    case OpenRouter => b == Manual
    case Manual => false
  }

  /** In force since this second; without a start, since the beginning of time */
  function StartOf(e: PriceEntry): int {
    match e.effectiveFrom
    case Some(at) => at / 1_000_000
    case None => -0x8000_0000_0000_0000
  }

  /** Entry `i` is preferred to entry `j`: one for the provider to a general one, then the higher
      authority, then the later start, then the later entry. */
  predicate Preferred(entries: seq<PriceEntry>, i: nat, j: nat)
    requires i < |entries| && j < |entries|
  {
    var a, b := entries[i], entries[j];
    if a.providerId.Some? != b.providerId.Some? then a.providerId.Some?
    else if a.authority != b.authority then Above(a.authority, b.authority)
    else if StartOf(a) != StartOf(b) then StartOf(a) > StartOf(b)
    else i > j
  }

  predicate IsPreferred(entries: seq<PriceEntry>, message: UsageMessage, now: int, i: nat) {
    && i < |entries| && InForce(entries[i], message, now)
    && forall j | 0 <= j < |entries| && j != i && InForce(entries[j], message, now) :: Preferred(entries, i, j)
  }

  /** The message with a new cost: an estimate at this price */
  predicate CostsAt(message: UsageMessage, after: UsageMessage, book: PriceBook, price: ModelPrice, currency: string) {
    var tokens, cost := message.tokens, after.cost;
    && after == message.(cost := cost)
    && cost.amount
       == (tokens.input as real * price.input + tokens.output as real * price.output
           + tokens.cacheRead as real * price.cacheRead + tokens.cacheWrite as real * price.cacheWrite
           + tokens.reasoning as real * price.reasoning) / 1000000.0
    && cost.currency == (if currency != "" then currency else if book.currency != "" then book.currency else "USD")
    && cost.kind == Estimated && cost.pricebookVersion == Some(book.version)
  }

  predicate NamesAuthority(source: Option<string>, authority: Authority) {
    match authority
    case Manual => source == Some("manual")
    case OpenRouter => source == Some("openrouter")
    case OfficialProvider => source == Some("official_provider")
    case SelfHosted => source == Some("self_hosted")
    case OrganizationOverride => source == Some("organization_override")
  }

  predicate FromEntry(message: UsageMessage, after: UsageMessage, book: PriceBook, now: int, i: nat) {
    && IsPreferred(book.entries, message, now, i)
    && CostsAt(message, after, book, book.entries[i].price, book.entries[i].currency)
    && NamesAuthority(after.cost.priceSource, book.entries[i].authority)
  }

  predicate FromModels(message: UsageMessage, after: UsageMessage, book: PriceBook, key: string) {
    && key in book.models
    && CostsAt(message, after, book, book.models[key], book.currency) && after.cost.priceSource == Some("manual")
  }

  predicate SomeInForce(book: PriceBook, message: UsageMessage, now: int) {
    exists j :: 0 <= j < |book.entries| && InForce(book.entries[j], message, now)
  }

  lemma {:induction false} PreferredOutranks(entries: seq<PriceEntry>, i: nat, j: nat)
    requires i < |entries| && j < |entries| && i != j
    ensures Outranks(entries, i, j) <==> Preferred(entries, i, j)
  {}

  lemma {:induction false} ChosenIsPreferred(book: PriceBook, message: UsageMessage, now: int, i: nat)
    requires Chosen(book.entries, AsciiLower(message.providerId), Canonical(message.modelId), now, i)
    ensures IsPreferred(book.entries, message, now, i)
  {
    var qualifies := Applicable(book.entries, AsciiLower(message.providerId), Canonical(message.modelId), now);
    assert qualifies(i);
    forall j | 0 <= j < |book.entries| && j != i && InForce(book.entries[j], message, now)
      ensures Preferred(book.entries, i, j)
    {
      assert qualifies(j);
      PreferredOutranks(book.entries, i, j);
    }
  }

  lemma {:induction false} PricedCosts(message: UsageMessage, book: PriceBook, price: ModelPrice, currency: string,
                                       authority: string)
    ensures CostsAt(message, Priced(message, book, price, currency, authority), book, price, currency)
  {}

  lemma {:induction false} NoneInForce(book: PriceBook, message: UsageMessage, now: int)
    ensures AnyApplies(book.entries, AsciiLower(message.providerId), Canonical(message.modelId), now)
       <==> SomeInForce(book, message, now)
  {
    var qualifies := Applicable(book.entries, AsciiLower(message.providerId), Canonical(message.modelId), now);
    if j :| 0 <= j < |book.entries| && InForce(book.entries[j], message, now) {
      assert qualifies(j);
    }
  }

  /** `estimate`: reported costs are never touched; a message that nothing prices stays as it is.  The
      preferred one of the entries in force sets the price, or else the model's own price does. */
  method Estimate(book: PriceBook, message: UsageMessage, now: int) returns (priced: bool, after: UsageMessage)
    ensures message.cost.kind == Reported ==> !priced
    ensures !priced ==> after == message
    ensures var provider, canonical := AsciiLower(message.providerId), Canonical(message.modelId);
            message.cost.kind != Reported ==>
              if AnyApplies(book.entries, provider, canonical, now)
              then priced && PricedByChosen(book, message, provider, canonical, now, after)
              else if ManualKey(book, provider, canonical).Some?
              then priced && after == PricedManually(book, message, ManualKey(book, provider, canonical).value)
              else !priced
    ensures var key := AsciiLower(message.providerId) + "/" + Canonical(message.modelId);
            if message.cost.kind == Reported then !priced
            else if SomeInForce(book, message, now) then
              priced && exists i: nat :: FromEntry(message, after, book, now, i)
            else if key in book.models then priced && FromModels(message, after, book, key)
            else if Canonical(message.modelId) in book.models then
              priced && FromModels(message, after, book, Canonical(message.modelId))
            else !priced
  {
    if message.cost.kind == Reported {
      return false, message;
    }
    var provider, canonical := AsciiLower(message.providerId), Canonical(message.modelId);
    NoneInForce(book, message, now);
    var selected := SelectBest(book.entries, Applicable(book.entries, provider, canonical, now));
    if selected.Some? {
      var e := book.entries[selected.value];
      assert Chosen(book.entries, provider, canonical, now, selected.value);
      ChosenIsPreferred(book, message, now, selected.value);
      PricedCosts(message, book, e.price, e.currency, e.authority.Name());
      assert FromEntry(message, Priced(message, book, e.price, e.currency, e.authority.Name()), book, now,
                       selected.value);
      return true, Priced(message, book, e.price, e.currency, e.authority.Name());
    }
    var key := ManualKey(book, provider, canonical);
    if key == None {
      return false, message;
    }
    PricedCosts(message, book, book.models[key.value], book.currency, "manual");
    return true, Priced(message, book, book.models[key.value], book.currency, "manual");
  }

  /* ---- Prices are additive ---- */

  /** What a ledger's tokens cost */
  function CostOf(l: Ledger, p: R.Price): real {
    (l.input as real * p.input + l.output as real * p.output + l.cacheRead as real * p.cacheRead
     + l.cacheWrite as real * p.cacheWrite + l.reasoning as real * p.reasoning) / 1000000.0
  }

  lemma {:induction false} Scale(a: nat, b: nat, r: real)
    ensures (a + b) as real * r == a as real * r + b as real * r
  {
    assert (a + b) as real == a as real + b as real;
  }

  lemma {:induction false} CostIsAdditive(a: Ledger, b: Ledger, p: R.Price)
    ensures CostOf(Plus(a, b), p) == CostOf(a, p) + CostOf(b, p)
  {
    Scale(a.input, b.input, p.input);
    Scale(a.output, b.output, p.output);
    Scale(a.cacheRead, b.cacheRead, p.cacheRead);
    Scale(a.cacheWrite, b.cacheWrite, p.cacheWrite);
    Scale(a.reasoning, b.reasoning, p.reasoning);
  }

  /** Every call to model `k` was priced with `p`. */
  predicate PricedAt(cs: seq<ModelCall>, k: ModelKey, p: R.Price) {
    forall i | 0 <= i < |cs| && cs[i].key == k :: cs[i].cost.amount == R.LinearCost(cs[i].tokens, p)
  }

  /** A way to price sums of tokens */
  ghost predicate Linear(g: Ledger -> real) {
    g(Zero()) == 0.0 && forall a, b :: g(Plus(a, b)) == g(a) + g(b)
  }

  function Rate(p: R.Price): Ledger -> real {
    (l: Ledger) => CostOf(l, p)
  }

  lemma {:induction false} RatesAreLinear(p: R.Price)
    ensures Linear(Rate(p))
  {
    forall a, b
      ensures Rate(p)(Plus(a, b)) == Rate(p)(a) + Rate(p)(b)
    {
      CostIsAdditive(a, b, p);
    }
  }

  lemma {:induction false} SumCostsItsTokens<T>(xs: seq<T>, f: T -> Ledger, g: Ledger -> real)
    requires Linear(g) && forall x | x in xs :: f(x).cost == g(f(x))
    ensures Total(xs, f).cost == g(Total(xs, f))
  {
    if xs != [] {
      SumCostsItsTokens(xs[1..], f, g);
      assert g(Plus(f(xs[0]), Total(xs[1..], f))) == g(f(xs[0])) + g(Total(xs[1..], f));
    }
  }

  lemma {:induction false} CallCostsItsTokens(c: ModelCall, k: ModelKey, p: R.Price)
    requires c.key == k ==> c.cost.amount == R.LinearCost(c.tokens, p)
    ensures var entry := Only(CallEntry(), ByModel(), k)(c); entry.cost == CostOf(entry, p)
  {
    RatesAreLinear(p);
    assert Rate(p)(Zero()) == 0.0;
  }

  lemma {:induction false} UsageCostsItsTokens(cs: seq<ModelCall>, k: ModelKey, p: R.Price)
    requires PricedAt(cs, k, p)
    ensures UsedBy(cs, k).cost == CostOf(UsedBy(cs, k), p)
  {
    var f := Only(CallEntry(), ByModel(), k);
    RatesAreLinear(p);
    forall c | c in cs
      ensures f(c).cost == Rate(p)(f(c))
    {
      var i :| 0 <= i < |cs| && cs[i] == c;
      CallCostsItsTokens(c, k, p);
    }
    SumCostsItsTokens(cs, f, Rate(p));
  }

  lemma {:induction false} EntryCosts(t: TokenBreakdown, amount: real, l: Ledger, p: R.Price)
    requires Entry(t, amount) == l && l.cost == CostOf(l, p)
    ensures amount == R.LinearCost(t, p)
  {}

  lemma {:induction false} UncappedEntry(t: TokenBreakdown, amount: real, l: Ledger)
    requires Entry(t, amount) == Cap(l) && Cap(l) == l
    ensures Entry(t, amount) == l
  {}

  /** Pricing every message and adding up gives what the server computes for the slice, as long as
      the slice's token counts did not saturate. */
  lemma {:induction false} PricingIsAdditive(cs: seq<ModelCall>, k: ModelKey, p: R.Price)
    requires k in Aggregate(cs) && PricedAt(cs, k, p) && Cap(UsedBy(cs, k)) == UsedBy(cs, k)
    ensures Aggregate(cs)[k].cost.amount == R.LinearCost(Aggregate(cs)[k].tokens, p)
  {
    var slice, used := Aggregate(cs)[k], UsedBy(cs, k);
    AggregateSumsUp(cs, k);
    UsageCostsItsTokens(cs, k, p);
    UncappedEntry(slice.tokens, slice.cost.amount, used);
    EntryCosts(slice.tokens, slice.cost.amount, used, p);
  }

  /** So the server's price for such a slice is the amount that the client had already. */
  lemma {:induction false} ServerAgreesWithClient(cs: seq<ModelCall>, k: ModelKey, p: R.Price, prices: R.Prices,
                                                  norm: R.Names)
    requires k in Aggregate(cs) && PricedAt(cs, k, p) && Cap(UsedBy(cs, k)) == UsedBy(cs, k)
    requires prices(norm(k)) == Some(p)
    ensures R.PriceSlice(Aggregate(cs)[k], prices, norm).cost.amount == Aggregate(cs)[k].cost.amount
  {
    AggregateSumsUp(cs, k);
    PricingIsAdditive(cs, k, p);
  }
}
