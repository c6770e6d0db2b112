/** Repricing does not keep every snapshot reconciled: one example for each way in which it fails.

    Each example is a snapshot that passes the server's check, with the server's own keys, and no longer
    passes once it is repriced: reported slices that deviate together, a blank behind a provider id, and
    token counts whose sum wraps around. */
module Drift {
  import opened Ledgers
  import opened Sequences
  import opened Text
  import opened Usage
  import opened Sessions
  import opened Reconciliation
  import opened Repricing
  import opened Spreading
  import opened Ingest

  /* ---- Common to all examples ---- */

  /** A snapshot that passes the check, but does not once it is repriced */
  ghost predicate Fails(turn: TurnSnapshot, usage: seq<UsageSlice>, prices: Prices, norm: Names, fold: Names) {
    && Reconciles([turn], usage, norm)
    && AmountsNonNegative(usage) && CostsNonNegative(turn.modelActivity) && HasPrices(usage, prices, norm)
    && !Reconciles(Repriced([turn], usage, prices, norm, fold), PriceAll(usage, prices, norm), norm)
  }

  function Tokens(input: u64, output: u64): TokenBreakdown {
    TokenBreakdown(input, output, 0, 0, 0)
  }

  function Spent(provider: string, model: string, tokens: TokenBreakdown, kind: CostKind, amount: real): UsageSlice {
    UsageSlice(provider, model, tokens, Cost(amount, "USD", kind, None, None))
  }

  function Step(sequence: u32, slice: UsageSlice): ModelActivityStep {
    ModelActivityStep(sequence, slice.providerId, slice.modelId, slice.tokens, slice.cost, 1)
  }

  lemma {:induction false} SingleTurn(turn: TurnSnapshot)
    requires StepsInOrder(turn.modelActivity)
    ensures AllSteps([turn]) == turn.modelActivity && InOrder([turn])
  {
    AllStepsSnoc([], turn);
    assert [] + [turn] == [turn];
  }

  /** At most one letter, of lower case */
  predicate IsName(s: string) {
    |s| <= 1 && forall c | c in s :: 'a' <= c <= 'z'
  }

  lemma {:induction false} NameStays(s: string)
    requires IsName(s)
    ensures Canonical(s) == s && AsciiLower(s) == s && Trim(s) == s
  {
    forall c | c in s
      ensures Plain(c) && !IsWhitespace(c)
    {}
    assert forall i | 0 <= i < |s| :: s[i] in s;
    CanonicalOfTrimmed(s);
    TrimNothing(s);
    assert AsciiLower(s) == s;
  }

  predicate Named(k: ModelKey) {
    IsName(k.provider) && IsName(k.model)
  }

  lemma {:induction false} NamesStay(k: ModelKey)
    requires Named(k)
    ensures ServerKey()(k) == k && FoldKey()(k) == k
  {
    NameStays(k.provider);
    NameStays(k.model);
  }

  lemma {:induction false} BookedNothing(norm: Names, k: ModelKey)
    ensures Booked([], norm, k) == Zero()
  {}

  lemma {:induction false} MatchingNext(steps: seq<ModelActivityStep>, s: ModelActivityStep, slice: UsageSlice,
                                        fold: Names)
    ensures MatchingTokens(steps + [s], slice, fold)
         == MatchingTokens(steps, slice, fold) + if Matches(fold, s, slice) then [s.tokens.Total()] else []
  {
    assert (steps + [s])[..|steps|] == steps;
    assert MatchingTokens(steps, slice, fold) + [] == MatchingTokens(steps, slice, fold);
  }

  lemma {:induction false} StepsNext(steps: seq<ModelActivityStep>, s: ModelActivityStep)
    ensures StepTokens(steps + [s]) == WrapAdd(StepTokens(steps), s.tokens.Total())
    ensures StepCost(steps + [s]) == StepCost(steps) + s.cost.amount
  {
    assert (steps + [s])[..|steps|] == steps;
  }

  lemma {:induction false} SlicesNext(usage: seq<UsageSlice>, slice: UsageSlice)
    ensures SliceTokens(usage + [slice]) == WrapAdd(SliceTokens(usage), slice.tokens.Total())
    ensures SliceCost(usage + [slice]) == SliceCost(usage) + slice.cost.amount
  {
    assert (usage + [slice])[..|usage|] == usage;
  }

  lemma {:induction false} OneTurn(turn: TurnSnapshot)
    ensures TurnTokens([turn]) == StepTokens(turn.modelActivity)
    ensures TurnCost([turn]) == StepCost(turn.modelActivity)
  {
    assert [turn][..0] == [];
    assert TurnTokens([turn][..0]) == 0 && TurnCost([turn][..0]) == 0.0;
  }

  /** A snapshot of one turn passes the check if both accounts agree. */
  lemma {:induction false} SingleTurnReconciles(turn: TurnSnapshot, usage: seq<UsageSlice>, norm: Names)
    requires StepsInOrder(turn.modelActivity) && ModelsReconcile(turn.modelActivity, usage, norm)
    requires StepTokens(turn.modelActivity) == SliceTokens(usage)
    requires Close(StepCost(turn.modelActivity), SliceCost(usage))
    ensures Reconciles([turn], usage, norm)
  {
    SingleTurn(turn);
    OneTurn(turn);
  }

  /* ---- Reported slices that deviate together ---- */

  const NUDGE := 0.0000009

  /** Three models, one step each: two reported costs lie below what their steps say, an
      estimated one above. */
  predicate Deviating(steps: seq<ModelActivityStep>, usage: seq<UsageSlice>) {
    && |steps| == |usage| == 3
    && (forall i, j | 0 <= i < j < 3 :: StepKey(steps[i]) != StepKey(steps[j]))
    && (forall i | 0 <= i < 3 :: StepKey(steps[i]) == SliceKey(usage[i]) && Named(StepKey(steps[i])))
    && (forall i | 0 <= i < 3 :: steps[i].sequence == i)
    && (forall i | 0 <= i < 3 :: steps[i].tokens == NO_TOKENS && usage[i].tokens == NO_TOKENS)
    && (forall i | 0 <= i < 3 :: usage[i].cost.amount == 1.0 && Deviates(steps[i].cost.amount - 1.0, i))
    && (forall i | 0 <= i < 3 :: usage[i].cost.kind == if i < 2 then Reported else Estimated)
  }

  predicate Deviates(gap: real, i: nat) {
    gap == if i < 2 then NUDGE else -NUDGE
  }

  /** The names that the server gives the steps are their own. */
  ghost predicate Keeps(names: Names, steps: seq<ModelActivityStep>) {
    forall i | 0 <= i < |steps| :: names(StepKey(steps[i])) == StepKey(steps[i])
  }

  lemma {:induction false} DeviatingKeeps(steps: seq<ModelActivityStep>, usage: seq<UsageSlice>)
    requires Deviating(steps, usage)
    ensures Keeps(ServerKey(), steps) && Keeps(FoldKey(), steps)
  {
    forall i | 0 <= i < |steps|
      ensures ServerKey()(StepKey(steps[i])) == StepKey(steps[i]) && FoldKey()(StepKey(steps[i])) == StepKey(steps[i])
    {
      NamesStay(StepKey(steps[i]));
    }
  }

  lemma {:induction false} NothingToSpend(steps: seq<ModelActivityStep>, norm: Names, k: ModelKey)
    requires forall i | 0 <= i < |steps| :: steps[i].tokens == NO_TOKENS
    ensures Booked(steps, norm, k).Grand() == 0
  {
    if steps != [] {
      NothingToSpend(steps[1..], norm, k);
      assert steps == [steps[0]] + steps[1..];
      BookedCons(steps[0], steps[1..], norm, k);
    }
  }

  /** A model used in a single step */
  lemma {:induction false} BookedOnce(steps: seq<ModelActivityStep>, norm: Names, i: nat)
    requires i < |steps|
    requires forall a, b | 0 <= a < b < |steps| :: norm(StepKey(steps[a])) != norm(StepKey(steps[b]))
    ensures Booked(steps, norm, norm(StepKey(steps[i]))) == StepEntry()(steps[i])
  {
    var s, rest, k := steps[0], steps[1..], norm(StepKey(steps[i]));
    assert steps == [s] + rest;
    BookedCons(s, rest, norm, k);
    if i == 0 {
      NothingBooked(rest, norm, k);
      PlusZero(StepEntry()(s));
    } else {
      BookedOnce(rest, norm, i - 1);
    }
  }

  lemma {:induction false} DeviatingTotals(steps: seq<ModelActivityStep>, usage: seq<UsageSlice>)
    requires Deviating(steps, usage)
    ensures StepTokens(steps) == 0 == SliceTokens(usage)
    ensures StepCost(steps) == 3.0 + NUDGE && SliceCost(usage) == 3.0
  {
    assert steps == [] + [steps[0]] + [steps[1]] + [steps[2]];
    assert usage == [] + [usage[0]] + [usage[1]] + [usage[2]];
    StepsNext([], steps[0]);
    StepsNext([] + [steps[0]], steps[1]);
    StepsNext([] + [steps[0]] + [steps[1]], steps[2]);
    SlicesNext([], usage[0]);
    SlicesNext([] + [usage[0]], usage[1]);
    SlicesNext([] + [usage[0]] + [usage[1]], usage[2]);
    assert Deviates(steps[0].cost.amount - 1.0, 0) && Deviates(steps[1].cost.amount - 1.0, 1);
  }

  lemma {:induction false} DeviatingSlice(steps: seq<ModelActivityStep>, usage: seq<UsageSlice>, names: Names, i: nat)
    requires Deviating(steps, usage) && Keeps(names, steps) && i < 3
    ensures Deviates(Gap(usage[i], steps, names), i)
    ensures SliceAgrees(usage[i], steps, names)
  {
    BookedOnce(steps, names, i);
  }

  lemma {:induction false} DeviatingApart(steps: seq<ModelActivityStep>, usage: seq<UsageSlice>, names: Names)
    requires Deviating(steps, usage) && Keeps(names, steps)
    ensures Apart(usage, names)
  {
    forall i, j | 0 <= i < j < |usage|
      ensures names(SliceKey(usage[i])) != names(SliceKey(usage[j]))
    {
      assert StepKey(steps[i]) != StepKey(steps[j]);
    }
  }

  lemma {:induction false} DeviatingModels(steps: seq<ModelActivityStep>, usage: seq<UsageSlice>, names: Names)
    requires Deviating(steps, usage) && Keeps(names, steps)
    ensures ModelsReconcile(steps, usage, names)
  {
    forall i | 0 <= i < 3
      ensures SliceAgrees(usage[i], steps, names)
    {
      DeviatingSlice(steps, usage, names, i);
    }
    DeviatingApart(steps, usage, names);
    assert StepNames(steps, names) == SliceNames(usage, names);
  }

  lemma {:induction false} ReportedGapSnoc(usage: seq<UsageSlice>, slice: UsageSlice, steps: seq<ModelActivityStep>,
                                           norm: Names)
    ensures ReportedGap(usage + [slice], steps, norm)
         == ReportedGap(usage, steps, norm) + if slice.cost.kind == Reported then Gap(slice, steps, norm) else 0.0
  {
    assert (usage + [slice])[..|usage|] == usage;
  }

  lemma {:induction false} DeviatingGap(steps: seq<ModelActivityStep>, usage: seq<UsageSlice>, names: Names)
    requires Deviating(steps, usage) && Keeps(names, steps)
    ensures ReportedGap(usage, steps, names) == 2.0 * NUDGE
  {
    DeviatingSlice(steps, usage, names, 0);
    DeviatingSlice(steps, usage, names, 1);
    ReportedGapSnoc([], usage[0], steps, names);
    ReportedGapSnoc([] + [usage[0]], usage[1], steps, names);
    ReportedGapSnoc([] + [usage[0]] + [usage[1]], usage[2], steps, names);
    assert usage == [] + [usage[0]] + [usage[1]] + [usage[2]];
  }

  lemma {:induction false} DeviatingFits(steps: seq<ModelActivityStep>, usage: seq<UsageSlice>, norm: Names,
                                         fold: Names)
    requires Deviating(steps, usage) && Keeps(norm, steps) && Keeps(fold, steps) && Finer(fold, norm)
    ensures TokensFit(steps, fold) && AmountsNonNegative(usage) && CostsNonNegative(steps)
    ensures SpelledAlike(steps, usage, norm, fold)
  {
    forall k
      ensures Booked(steps, fold, k).Grand() <= U64_MAX
    {
      NothingToSpend(steps, fold, k);
    }
    forall i | 0 <= i < |steps|
      ensures 0.0 <= steps[i].cost.amount
    {
      assert Deviates(steps[i].cost.amount - 1.0, i);
    }
    forall i, j | 0 <= i < |steps| && 0 <= j < |usage| && norm(StepKey(steps[i])) == norm(SliceKey(usage[j]))
      ensures fold(StepKey(steps[i])) == fold(SliceKey(usage[j]))
    {
      assert SliceKey(usage[j]) == StepKey(steps[j]);
    }
  }

  lemma {:induction false} DeviatingReconciles(turn: TurnSnapshot, usage: seq<UsageSlice>, norm: Names)
    requires Deviating(turn.modelActivity, usage) && Keeps(norm, turn.modelActivity)
    ensures Reconciles([turn], usage, norm)
  {
    DeviatingTotals(turn.modelActivity, usage);
    DeviatingModels(turn.modelActivity, usage, norm);
    SingleTurnReconciles(turn, usage, norm);
  }

  lemma {:induction false} FailsByGap(turn: TurnSnapshot, usage: seq<UsageSlice>, prices: Prices, norm: Names,
                                      fold: Names)
    requires Reconciles([turn], usage, norm) && Repriceable(turn.modelActivity, usage, prices, norm, fold)
    requires StepsInOrder(turn.modelActivity) && CostsNonNegative(turn.modelActivity)
    requires !Close(ReportedGap(usage, turn.modelActivity, norm), 0.0)
    ensures Fails(turn, usage, prices, norm, fold)
  {
    SingleTurn(turn);
    RepriceableReconciles([turn], usage, prices, norm, fold);
  }

  lemma {:induction false} FailsByResidue(turn: TurnSnapshot, usage: seq<UsageSlice>, prices: Prices, norm: Names,
                                          fold: Names, i: nat)
    requires Reconciles([turn], usage, norm) && Finer(fold, norm) && i < |usage| && StepsInOrder(turn.modelActivity)
    requires AmountsNonNegative(usage) && CostsNonNegative(turn.modelActivity) && HasPrices(usage, prices, norm)
    requires !Close(Residue(usage[i], turn.modelActivity, prices, norm, fold), 0.0)
    ensures Fails(turn, usage, prices, norm, fold)
  {
    SingleTurn(turn);
    RepricingReconciles([turn], usage, prices, norm, fold);
  }

  /** Every such snapshot passes the check; without a price for the estimated model, repricing
      only settles that model's step, and what is left no longer passes. */
  lemma {:induction false} DeviatingFails(turn: TurnSnapshot, usage: seq<UsageSlice>, prices: Prices, norm: Names,
                                          fold: Names)
    requires Deviating(turn.modelActivity, usage) && forall k :: prices(k) == None
    requires Finer(fold, norm) && Keeps(norm, turn.modelActivity) && Keeps(fold, turn.modelActivity)
    ensures Fails(turn, usage, prices, norm, fold)
    ensures Repriceable(turn.modelActivity, usage, prices, norm, fold)
  {
    DeviatingReconciles(turn, usage, norm);
    DeviatingFits(turn.modelActivity, usage, norm, fold);
    DeviatingGap(turn.modelActivity, usage, norm);
    FailsByGap(turn, usage, prices, norm, fold);
  }

  lemma {:induction false} DeviatingExists() returns (steps: seq<ModelActivityStep>, usage: seq<UsageSlice>)
    ensures Deviating(steps, usage)
  {
    usage := [Spent("", "a", NO_TOKENS, Reported, 1.0), Spent("", "b", NO_TOKENS, Reported, 1.0),
              Spent("", "c", NO_TOKENS, Estimated, 1.0)];
    steps := [Step(0, Spent("", "a", NO_TOKENS, Reported, 1.0 + NUDGE)),
              Step(1, Spent("", "b", NO_TOKENS, Reported, 1.0 + NUDGE)),
              Step(2, Spent("", "c", NO_TOKENS, Estimated, 1.0 - NUDGE))];
  }

  /** Reported slices keep deviations that the check tolerates one by one, but not together. */
  lemma {:induction false} DeviationsMayUnreconcile()
    returns (turn: TurnSnapshot, usage: seq<UsageSlice>, prices: Prices)
    ensures Fails(turn, usage, prices, ServerKey(), FoldKey())
    ensures Repriceable(turn.modelActivity, usage, prices, ServerKey(), FoldKey())
  {
    var steps, slices := DeviatingExists();
    turn, usage, prices := TurnSnapshot(1, steps, []), slices, (k: ModelKey) => None;
    FoldIsFiner();
    DeviatingKeeps(steps, usage);
    DeviatingFails(turn, usage, prices, ServerKey(), FoldKey());
  }

  /* ---- A blank behind a provider id ---- */

  /** One step and one slice that the check takes for the same model and repricing does not */
  predicate TakenApart(s: ModelActivityStep, slice: UsageSlice, norm: Names, fold: Names) {
    && norm(StepKey(s)) == norm(SliceKey(slice)) && fold(StepKey(s)) != fold(SliceKey(slice))
    && s.tokens == slice.tokens && s.cost == slice.cost && slice.cost.kind == Estimated
  }

  lemma {:induction false} OneSliceBooked(s: ModelActivityStep, slice: UsageSlice, norm: Names)
    requires norm(StepKey(s)) == norm(SliceKey(slice)) && s.tokens == slice.tokens && s.cost == slice.cost
    ensures Booked([s], norm, norm(SliceKey(slice))) == StepEntry()(s)
    ensures SliceAgrees(slice, [s], norm)
  {
    BookedOnce([s], norm, 0);
    AgreesExactly(slice, [s], norm);
  }

  lemma {:induction false} OneSliceTotals(s: ModelActivityStep, slice: UsageSlice)
    requires s.tokens == slice.tokens && s.cost == slice.cost
    ensures StepTokens([s]) == SliceTokens([slice]) && StepCost([s]) == SliceCost([slice]) == slice.cost.amount
  {
    assert [] + [s] == [s] && [] + [slice] == [slice];
    StepsNext([], s);
    SlicesNext([], slice);
  }

  lemma {:induction false} OneSlice(s: ModelActivityStep, slice: UsageSlice, norm: Names)
    requires norm(StepKey(s)) == norm(SliceKey(slice)) && s.tokens == slice.tokens && s.cost == slice.cost
    ensures ModelsReconcile([s], [slice], norm)
  {
    OneSliceBooked(s, slice, norm);
    assert [] + [s] == [s] && [] + [slice] == [slice];
    StepNamesSnoc([], s, norm);
    SliceNamesSnoc([], slice, norm);
  }

  lemma {:induction false} OneSliceMissed(s: ModelActivityStep, slice: UsageSlice, prices: Prices, norm: Names,
                                          fold: Names)
    requires TakenApart(s, slice, norm, fold)
    ensures MatchingTokens([s], slice, fold) == []
    ensures Residue(slice, [s], prices, norm, fold)
         == slice.cost.amount - PriceSlice(slice, prices, norm).cost.amount
  {
    assert [] + [s] == [s];
    MatchingNext([], s, slice, fold);
    OneSliceBooked(s, slice, norm);
    PricedSlice(slice, prices, norm);
  }

  lemma {:induction false} SpreadMisses(turn: TurnSnapshot, usage: seq<UsageSlice>, prices: Prices, norm: Names,
                                        fold: Names)
    requires |turn.modelActivity| == |usage| == 1 && StepsInOrder(turn.modelActivity)
    requires MatchingTokens(turn.modelActivity, usage[0], fold) == []
    ensures Repriced([turn], usage, prices, norm, fold) == [turn]
  {
    var steps, usage' := turn.modelActivity, PriceAll(usage, prices, norm);
    SingleTurn(turn);
    PricedMatches(steps, usage[0], prices, norm, fold);
    assert usage'[..0] == [];
    assert SpreadAll(steps, usage'[..0], fold) == steps;
    assert [turn][..0] == [];
    assert steps[..0] == [] && steps[0..] == steps;
    assert WithActivity([turn][..0], steps[..0]) == [];
  }

  lemma {:induction false} OneStepFits(s: ModelActivityStep, fold: Names)
    requires StepEntry()(s).Grand() <= U64_MAX
    ensures TokensFit([s], fold)
  {
    forall k
      ensures Booked([s], fold, k).Grand() <= U64_MAX
    {
      assert [] + [s] == [s];
      BookedNothing(fold, k);
      BookedSnoc([], s, fold, k);
      PlusZero(StepEntry()(s));
    }
  }

  /** The slice gets its new cost, the step keeps the old one - whatever the price is, unless it
      confirms the old cost. */
  lemma {:induction false} MissedFails(turn: TurnSnapshot, s: ModelActivityStep, slice: UsageSlice, prices: Prices,
                                       norm: Names, fold: Names)
    requires TakenApart(s, slice, norm, fold) && Finer(fold, norm) && turn.modelActivity == [s]
    requires 0.0 <= slice.cost.amount && HasPrices([slice], prices, norm)
    requires !Close(slice.cost.amount, PriceSlice(slice, prices, norm).cost.amount)
    ensures Fails(turn, [slice], prices, norm, fold)
    ensures Repriced([turn], [slice], prices, norm, fold) == [turn]
    ensures ReportedGap([slice], [s], norm) == 0.0
  {
    OneSlice(s, slice, norm);
    OneSliceBooked(s, slice, norm);
    OneSliceTotals(s, slice);
    SingleTurnReconciles(turn, [slice], norm);
    OneSliceMissed(s, slice, prices, norm, fold);
    FailsByResidue(turn, [slice], prices, norm, fold, 0);
    SpreadMisses(turn, [slice], prices, norm, fold);
    ReportedGapSnoc([], slice, [s], norm);
    assert [] + [slice] == [slice];
  }

  lemma {:induction false} BlankIsTrimmed(blank: string, plain: string)
    requires |blank| == 2 && |plain| == 1 && blank[0] == plain[0] == 'a' && blank[1] == ' '
    ensures AsciiLower(Trim(blank)) == plain == AsciiLower(Trim(plain))
    ensures AsciiLower(blank) != AsciiLower(plain)
  {
    assert TrimStart(blank) == blank && TrimStart(plain) == plain;
    assert blank[..1] == plain;
    assert TrimEnd(blank) == TrimEnd(plain) == plain;
    assert AsciiLower(plain) == plain;
  }

  lemma {:induction false} BlankNames(blank: string, plain: string, model: string)
    requires |blank| == 2 && |plain| == 1 && blank[0] == plain[0] == 'a' && blank[1] == ' '
    ensures ServerKey()(ModelKey(blank, model)) == ServerKey()(ModelKey(plain, model))
    ensures FoldKey()(ModelKey(blank, model)) != FoldKey()(ModelKey(plain, model))
  {
    BlankIsTrimmed(blank, plain);
  }

  function Flat(input: real): Price {
    Price("USD", input, 0.0, 0.0, 0.0, 0.0, "", "")
  }

  /** One million input tokens that cost 1.0 so far, at a price of 5.0 per million */
  lemma {:induction false} MillionCosts(slice: UsageSlice, prices: Prices, norm: Names)
    requires slice.tokens == Tokens(1000000, 0) && slice.cost.amount == 1.0 && slice.cost.kind == Estimated
    requires forall k :: prices(k) == Some(Flat(5.0))
    ensures PriceSlice(slice, prices, norm).cost.amount == 5.0
  {}

  /** The step's provider id carries a blank that the slice's does not: the check takes both for the
      same provider, repricing does not.  The slice is repriced from 1.0 to 5.0, the step is left at
      1.0.  Nothing was reported, and the tokens are few. */
  lemma {:induction false} BlankMayUnreconcile() returns (turn: TurnSnapshot, usage: seq<UsageSlice>, prices: Prices)
    ensures Fails(turn, usage, prices, ServerKey(), FoldKey())
    ensures Repriced([turn], usage, prices, ServerKey(), FoldKey()) == [turn]
    ensures ReportedGap(usage, turn.modelActivity, ServerKey()) == 0.0 && TokensFit(turn.modelActivity, FoldKey())
  {
    var slice := Spent("a", "m", Tokens(1000000, 0), Estimated, 1.0);
    var s := Step(0, Spent("a ", "m", Tokens(1000000, 0), Estimated, 1.0));
    turn, usage, prices := TurnSnapshot(1, [s], []), [slice], (k: ModelKey) => Some(Flat(5.0));
    BlankNames("a ", "a", "m");
    FoldIsFiner();
    MillionCosts(slice, prices, ServerKey());
    MissedFails(turn, s, slice, prices, ServerKey(), FoldKey());
    OneStepFits(s, FoldKey());
  }

  /* ---- Token counts whose sum wraps around ---- */

  const HALF: nat := 0x8000_0000_0000_0000

  /** Two models with a step of 2^64 - 1 and a step of 2^63 tokens each, and a third one with two
      tokens: the turns' tokens and the slices' tokens both sum to zero, modulo 2^64. */
  predicate Wrapping(steps: seq<ModelActivityStep>, usage: seq<UsageSlice>) {
    && |steps| == 5 && |usage| == 3
    && (forall i, j | 0 <= i < j < 3 :: SliceKey(usage[i]) != SliceKey(usage[j]))
    && StepKey(steps[0]) == StepKey(steps[1]) == SliceKey(usage[0])
    && StepKey(steps[2]) == StepKey(steps[3]) == SliceKey(usage[1])
    && StepKey(steps[4]) == SliceKey(usage[2])
    && (forall i | 0 <= i < 5 :: steps[i].sequence == i && Named(StepKey(steps[i])))
    && steps[0].tokens == steps[2].tokens == Tokens(U64_MAX, 0)
    && steps[1].tokens == steps[3].tokens == Tokens(0, HALF)
    && usage[0].tokens == usage[1].tokens == Tokens(U64_MAX, HALF)
    && steps[4].tokens == usage[2].tokens == Tokens(2, 0)
    && steps[0].cost.amount == steps[2].cost.amount == steps[4].cost.amount == 1.0
    && steps[1].cost.amount == steps[3].cost.amount == 0.0
    && (forall i | 0 <= i < 3 :: usage[i].cost.amount == 1.0 && usage[i].cost.kind == Estimated)
  }

  lemma {:induction false} TokenTotals()
    ensures Tokens(U64_MAX, 0).Total() == Tokens(U64_MAX, HALF).Total() == U64_MAX
    ensures Tokens(0, HALF).Total() == HALF && Tokens(2, 0).Total() == 2
  {}

  lemma {:induction false} FiveSteps(steps: seq<ModelActivityStep>)
    requires |steps| == 5
    ensures steps == [] + [steps[0]] + [steps[1]] + [steps[2]] + [steps[3]] + [steps[4]]
  {}

  lemma {:induction false} WrappingStepTotals(steps: seq<ModelActivityStep>, usage: seq<UsageSlice>)
    requires Wrapping(steps, usage)
    ensures StepTokens(steps) == 0 && StepCost(steps) == 3.0
  {
    var s1 := [] + [steps[0]];
    var s2 := s1 + [steps[1]];
    var s3 := s2 + [steps[2]];
    var s4 := s3 + [steps[3]];
    FiveSteps(steps);
    TokenTotals();
    StepsNext([], steps[0]);
    StepsNext(s1, steps[1]);
    StepsNext(s2, steps[2]);
    StepsNext(s3, steps[3]);
    StepsNext(s4, steps[4]);
  }

  lemma {:induction false} WrappingSliceTotals(steps: seq<ModelActivityStep>, usage: seq<UsageSlice>)
    requires Wrapping(steps, usage)
    ensures SliceTokens(usage) == 0 && SliceCost(usage) == 3.0
  {
    assert usage == [] + [usage[0]] + [usage[1]] + [usage[2]];
    TokenTotals();
    SlicesNext([], usage[0]);
    SlicesNext([] + [usage[0]], usage[1]);
    SlicesNext([] + [usage[0]] + [usage[1]], usage[2]);
  }

  /** Only the steps in the middle are booked under `k`. */
  lemma {:induction false} BookedAmid(front: seq<ModelActivityStep>, middle: seq<ModelActivityStep>,
                                      back: seq<ModelActivityStep>, norm: Names, k: ModelKey)
    requires k !in StepNames(front, norm) && k !in StepNames(back, norm)
    ensures Booked(front + middle + back, norm, k) == Booked(middle, norm, k)
  {
    var only := Only(StepEntry(), NormKey(norm), k);
    TotalAppend(front + middle, back, only);
    TotalAppend(front, middle, only);
    NothingBooked(front, norm, k);
    NothingBooked(back, norm, k);
    PlusZero(Booked(middle, norm, k));
  }

  lemma {:induction false} BookedPair(s: ModelActivityStep, t: ModelActivityStep, norm: Names, k: ModelKey)
    requires norm(StepKey(s)) == k == norm(StepKey(t))
    ensures Booked([s], norm, k) == StepEntry()(s)
    ensures Booked([s] + [t], norm, k) == Plus(StepEntry()(s), StepEntry()(t))
  {
    BookedOnce([s], norm, 0);
    BookedSnoc([s], t, norm, k);
  }

  /** The name of step `j` */
  lemma {:induction false} WrappingNames(steps: seq<ModelActivityStep>, usage: seq<UsageSlice>, norm: Names, i: nat,
                                         j: nat)
    requires Wrapping(steps, usage) && Keeps(norm, steps) && i < 3 && j < 5
    ensures norm(SliceKey(usage[i])) == SliceKey(usage[i])
    ensures norm(StepKey(steps[j])) == SliceKey(usage[i]) <==> j / 2 == i
  {
    assert norm(StepKey(steps[j])) == StepKey(steps[j]) == SliceKey(usage[j / 2]);
    assert norm(StepKey(steps[2 * i])) == StepKey(steps[2 * i]) == SliceKey(usage[i]);
  }

  /** The other steps have other names. */
  lemma {:induction false} WrappingElsewhere(steps: seq<ModelActivityStep>, usage: seq<UsageSlice>, norm: Names, i: nat,
                                             from: nat, to: nat)
    requires Wrapping(steps, usage) && Keeps(norm, steps) && i < 3
    requires from == 2 * i && to == if i < 2 then 2 * i + 2 else 5
    ensures SliceKey(usage[i]) !in StepNames(steps[..from], norm) && SliceKey(usage[i]) !in StepNames(steps[to..], norm)
  {
    forall j | 0 <= j < 5
      ensures norm(StepKey(steps[j])) == SliceKey(usage[i]) <==> from <= j < to
    {
      WrappingNames(steps, usage, norm, i, j);
    }
  }

  lemma {:induction false} BookedPairAmid(steps: seq<ModelActivityStep>, from: nat, norm: Names, k: ModelKey)
    requires from + 2 <= |steps| && norm(StepKey(steps[from])) == k == norm(StepKey(steps[from + 1]))
    requires k !in StepNames(steps[..from], norm) && k !in StepNames(steps[from + 2..], norm)
    ensures Booked(steps, norm, k) == Plus(StepEntry()(steps[from]), StepEntry()(steps[from + 1]))
  {
    assert steps == steps[..from] + ([steps[from]] + [steps[from + 1]]) + steps[from + 2..];
    BookedAmid(steps[..from], [steps[from]] + [steps[from + 1]], steps[from + 2..], norm, k);
    BookedPair(steps[from], steps[from + 1], norm, k);
  }

  lemma {:induction false} BookedLast(steps: seq<ModelActivityStep>, from: nat, norm: Names, k: ModelKey)
    requires from + 1 == |steps| && norm(StepKey(steps[from])) == k
    requires k !in StepNames(steps[..from], norm)
    ensures Booked(steps, norm, k) == StepEntry()(steps[from])
  {
    assert steps == steps[..from] + [steps[from]] + [];
    BookedAmid(steps[..from], [steps[from]], [], norm, k);
    BookedPair(steps[from], steps[from], norm, k);
  }

  lemma {:induction false} EntryIsCapped(t: TokenBreakdown, amount: real)
    ensures Cap(Entry(t, amount)) == Entry(t, amount)
  {}

  lemma {:induction false} EntriesAdd(s: TokenBreakdown, t: TokenBreakdown, x: real, y: real)
    requires s.output == t.input == 0 && s.cacheRead == s.cacheWrite == s.reasoning == 0
    requires t.cacheRead == t.cacheWrite == t.reasoning == 0
    ensures Plus(Entry(s, x), Entry(t, y)) == Entry(Tokens(s.input, t.output), x + y)
  {}

  lemma {:induction false} AgreesExactly(slice: UsageSlice, steps: seq<ModelActivityStep>, norm: Names)
    requires Booked(steps, norm, norm(SliceKey(slice))) == Entry(slice.tokens, slice.cost.amount)
    ensures SliceAgrees(slice, steps, norm)
  {
    EntryIsCapped(slice.tokens, slice.cost.amount);
  }

  lemma {:induction false} PairAgrees(slice: UsageSlice, s: ModelActivityStep, t: ModelActivityStep,
                                      steps: seq<ModelActivityStep>, norm: Names)
    requires Booked(steps, norm, norm(SliceKey(slice))) == Plus(StepEntry()(s), StepEntry()(t))
    requires s.tokens == Tokens(U64_MAX, 0) && t.tokens == Tokens(0, HALF) && slice.tokens == Tokens(U64_MAX, HALF)
    requires s.cost.amount == 1.0 && t.cost.amount == 0.0 && slice.cost.amount == 1.0
    ensures SliceAgrees(slice, steps, norm)
  {
    EntriesAdd(s.tokens, t.tokens, s.cost.amount, t.cost.amount);
    AgreesExactly(slice, steps, norm);
  }

  lemma {:induction false} WrappingSlice(steps: seq<ModelActivityStep>, usage: seq<UsageSlice>, norm: Names, i: nat,
                                         from: nat)
    requires Wrapping(steps, usage) && Keeps(norm, steps) && i < 3 && from == 2 * i
    ensures SliceAgrees(usage[i], steps, norm)
  {
    var k := SliceKey(usage[i]);
    WrappingElsewhere(steps, usage, norm, i, from, if i < 2 then from + 2 else 5);
    WrappingNames(steps, usage, norm, i, from);
    if i < 2 {
      WrappingNames(steps, usage, norm, i, from + 1);
      BookedPairAmid(steps, from, norm, k);
      PairAgrees(usage[i], steps[from], steps[from + 1], steps, norm);
    } else {
      BookedLast(steps, from, norm, k);
      AgreesExactly(usage[i], steps, norm);
    }
  }

  lemma {:induction false} WrappingModels(steps: seq<ModelActivityStep>, usage: seq<UsageSlice>, norm: Names)
    requires Wrapping(steps, usage) && Keeps(norm, steps)
    ensures ModelsReconcile(steps, usage, norm)
  {
    forall i | 0 <= i < 3
      ensures SliceAgrees(usage[i], steps, norm)
      ensures norm(SliceKey(usage[i])) == SliceKey(usage[i])
    {
      WrappingSlice(steps, usage, norm, i, 2 * i);
      assert norm(StepKey(steps[2 * i])) == StepKey(steps[2 * i]);
    }
    forall k
      ensures k in StepNames(steps, norm) <==> k in SliceNames(usage, norm)
    {
      assert k in StepNames(steps, norm) <==> exists j :: 0 <= j < 5 && norm(StepKey(steps[j])) == k;
      assert norm(StepKey(steps[0])) == norm(StepKey(steps[1])) == norm(SliceKey(usage[0]));
      assert norm(StepKey(steps[2])) == norm(StepKey(steps[3])) == norm(SliceKey(usage[1]));
      assert norm(StepKey(steps[4])) == norm(SliceKey(usage[2]));
    }
  }

  lemma {:induction false} WrappingMatches(steps: seq<ModelActivityStep>, usage: seq<UsageSlice>, fold: Names)
    requires Wrapping(steps, usage) && Keeps(fold, steps)
    ensures MatchingTokens(steps, usage[0], fold) == [U64_MAX, HALF]
  {
    var s1 := [] + [steps[0]];
    var s2 := s1 + [steps[1]];
    var s3 := s2 + [steps[2]];
    var s4 := s3 + [steps[3]];
    FiveSteps(steps);
    TokenTotals();
    assert fold(StepKey(steps[0])) == fold(StepKey(steps[1])) == fold(SliceKey(usage[0]));
    assert fold(StepKey(steps[2])) == StepKey(steps[2]) && fold(StepKey(steps[3])) == StepKey(steps[3]);
    assert fold(StepKey(steps[4])) == StepKey(steps[4]);
    MatchingNext([], steps[0], usage[0], fold);
    MatchingNext(s1, steps[1], usage[0], fold);
    MatchingNext(s2, steps[2], usage[0], fold);
    MatchingNext(s3, steps[3], usage[0], fold);
    MatchingNext(s4, steps[4], usage[0], fold);
  }

  lemma {:induction false} WrapSumTwo(a: u64, b: u64)
    ensures WrapSum([a, b]) == WrapAdd(a, b) && Sum([a, b][..1]) == a
  {
    assert [a, b][..1] == [a];
    assert [a][..0] == [];
    assert WrapSum([a]) == WrapAdd(0, a);
    assert [a][1..] == [];
  }

  lemma {:induction false} DivBack(x: real, t: real)
    requires 0.0 < t
    ensures x * t / t == x
  {}

  lemma {:induction false} ShareOfTwice(p: nat, total: nat)
    requires 0 < total && 2 * total <= p
    ensures 2.0 <= Share(1.0, p, total)
  {
    var x, t := p as real, total as real;
    assert 2.0 * t <= x;
    DivBound(2.0 * t, x, t);
    DivBack(2.0, t);
    assert 1.0 * x == x;
  }

  /** The first step alone gets more than twice the slice's cost. */
  lemma {:induction false} WrappingOverspends(steps: seq<ModelActivityStep>, usage: seq<UsageSlice>, prices: Prices,
                                              norm: Names, fold: Names)
    requires Wrapping(steps, usage) && Keeps(norm, steps) && Keeps(fold, steps) && Finer(fold, norm)
    requires forall k :: prices(k) == None
    ensures 1.0 <= Residue(usage[0], steps, prices, norm, fold)
  {
    WrappingMatches(steps, usage, fold);
    WrapSumTwo(U64_MAX, HALF);
    ShareOfTwice(U64_MAX, HALF - 1);
    WrappingFound(steps, usage, norm, fold);
    assert [U64_MAX, HALF][..2 - 1] == [U64_MAX, HALF][..1];
  }

  lemma {:induction false} WrappingFound(steps: seq<ModelActivityStep>, usage: seq<UsageSlice>, norm: Names,
                                         fold: Names)
    requires Wrapping(steps, usage) && Keeps(norm, steps) && Keeps(fold, steps)
    ensures Stray(steps, usage[0], norm, fold) == Zero()
  {
    forall s | s in steps
      ensures StrayEntry(usage[0], norm, fold)(s) == Zero()
    {
      var j :| 0 <= j < |steps| && steps[j] == s;
      assert norm(StepKey(steps[j])) == StepKey(steps[j]) && norm(StepKey(steps[0])) == StepKey(steps[0]);
      assert fold(StepKey(steps[j])) == StepKey(steps[j]) && fold(StepKey(steps[0])) == StepKey(steps[0]);
      assert !Strays(s, usage[0], norm, fold);
    }
    TotalZero(steps, StrayEntry(usage[0], norm, fold));
  }

  lemma {:induction false} WrappingFails(turn: TurnSnapshot, usage: seq<UsageSlice>, prices: Prices, norm: Names,
                                         fold: Names)
    requires Wrapping(turn.modelActivity, usage) && forall k :: prices(k) == None
    requires Finer(fold, norm) && Keeps(norm, turn.modelActivity) && Keeps(fold, turn.modelActivity)
    ensures Fails(turn, usage, prices, norm, fold)
  {
    var steps := turn.modelActivity;
    WrappingStepTotals(steps, usage);
    WrappingSliceTotals(steps, usage);
    WrappingModels(steps, usage, norm);
    SingleTurnReconciles(turn, usage, norm);
    WrappingOverspends(steps, usage, prices, norm, fold);
    WrappingNonNegative(steps, usage);
    FailsByResidue(turn, usage, prices, norm, fold, 0);
  }

  lemma {:induction false} WrappingNonNegative(steps: seq<ModelActivityStep>, usage: seq<UsageSlice>)
    requires Wrapping(steps, usage)
    ensures AmountsNonNegative(usage) && CostsNonNegative(steps)
  {}

  lemma {:induction false} WrappingKeeps(steps: seq<ModelActivityStep>, usage: seq<UsageSlice>)
    requires Wrapping(steps, usage)
    ensures Keeps(ServerKey(), steps) && Keeps(FoldKey(), steps)
  {
    forall i | 0 <= i < |steps|
      ensures ServerKey()(StepKey(steps[i])) == StepKey(steps[i]) && FoldKey()(StepKey(steps[i])) == StepKey(steps[i])
    {
      NamesStay(StepKey(steps[i]));
    }
  }

  lemma {:induction false} WrappingExists() returns (steps: seq<ModelActivityStep>, usage: seq<UsageSlice>)
    ensures Wrapping(steps, usage)
  {
    usage := [Spent("", "a", Tokens(U64_MAX, HALF), Estimated, 1.0),
              Spent("", "b", Tokens(U64_MAX, HALF), Estimated, 1.0),
              Spent("", "c", Tokens(2, 0), Estimated, 1.0)];
    steps := [Step(0, Spent("", "a", Tokens(U64_MAX, 0), Estimated, 1.0)),
              Step(1, Spent("", "a", Tokens(0, HALF), Estimated, 0.0)),
              Step(2, Spent("", "b", Tokens(U64_MAX, 0), Estimated, 1.0)),
              Step(3, Spent("", "b", Tokens(0, HALF), Estimated, 0.0)),
              Step(4, Spent("", "c", Tokens(2, 0), Estimated, 1.0))];
  }

  /** Both sums of tokens wrap around to zero, so that no bound on the total is exceeded either.  The
      shares are computed by a sum that wraps around, too: the steps of a model get more than twice
      what its slice costs. */
  lemma {:induction false} WrappingMayUnreconcile() returns (turn: TurnSnapshot, usage: seq<UsageSlice>, prices: Prices)
    ensures Fails(turn, usage, prices, ServerKey(), FoldKey()) && SliceTokens(usage) == 0
    ensures SpelledAlike(turn.modelActivity, usage, ServerKey(), FoldKey())
  {
    var steps, slices := WrappingExists();
    turn, usage, prices := TurnSnapshot(1, steps, []), slices, (k: ModelKey) => None;
    FoldIsFiner();
    WrappingKeeps(steps, usage);
    WrappingSliceTotals(steps, usage);
    WrappingFails(turn, usage, prices, ServerKey(), FoldKey());
    WrappingAlike(steps, usage, ServerKey(), FoldKey());
  }

  lemma {:induction false} WrappingAlike(steps: seq<ModelActivityStep>, usage: seq<UsageSlice>, norm: Names,
                                         fold: Names)
    requires Wrapping(steps, usage) && Keeps(norm, steps) && Keeps(fold, steps) && Finer(fold, norm)
    ensures SpelledAlike(steps, usage, norm, fold)
  {
    forall i, j | 0 <= i < |steps| && 0 <= j < |usage| && norm(StepKey(steps[i])) == norm(SliceKey(usage[j]))
      ensures fold(StepKey(steps[i])) == fold(SliceKey(usage[j]))
    {
      assert norm(StepKey(steps[i])) == StepKey(steps[i]) && norm(StepKey(steps[2 * j])) == StepKey(steps[2 * j]);
    }
  }
}
