/** What repricing does to a snapshot that passed the check. */
module Repricing {
  import opened Ledgers
  import opened Sequences
  import opened Text
  import opened Usage
  import opened Sessions
  import opened Reconciliation
  import opened Spreading

  /* ---- The turns after repricing ---- */

  predicate SameTurn(turn: TurnSnapshot, turn': TurnSnapshot) {
    turn' == turn.(modelActivity := turn'.modelActivity) && SameShape(turn.modelActivity, turn'.modelActivity)
  }

  lemma {:induction false} ShapeSplit(a: seq<ModelActivityStep>, b: seq<ModelActivityStep>,
                                      steps: seq<ModelActivityStep>)
    requires SameShape(a + b, steps)
    ensures SameShape(a, steps[..|a|]) && SameShape(b, steps[|a|..])
  {
    forall i | 0 <= i < |a|
      ensures SameButCost(a[i], steps[..|a|][i])
    {
      assert SameButCost((a + b)[i], steps[i]);
    }
    forall i | 0 <= i < |b|
      ensures SameButCost(b[i], steps[|a|..][i])
    {
      assert SameButCost((a + b)[|a| + i], steps[|a| + i]);
    }
  }

  predicate SameTurns(turns: seq<TurnSnapshot>, turns': seq<TurnSnapshot>) {
    |turns'| == |turns| && forall i | 0 <= i < |turns| :: SameTurn(turns[i], turns'[i])
  }

  lemma {:induction false} SameTurnsSnoc(turns: seq<TurnSnapshot>, turns': seq<TurnSnapshot>, turn: TurnSnapshot,
                                         turn': TurnSnapshot)
    requires SameTurns(turns, turns') && SameTurn(turn, turn')
    ensures SameTurns(turns + [turn], turns' + [turn'])
  {}

  lemma {:induction false} WithActivitySnoc(turns: seq<TurnSnapshot>, turn: TurnSnapshot, steps: seq<ModelActivityStep>)
    requires SameShape(AllSteps(turns) + turn.modelActivity, steps)
    ensures var cut := |AllSteps(turns)|;
            && |AllSteps(turns + [turn])| == |steps|
            && WithActivity(turns + [turn], steps)
            == WithActivity(turns, steps[..cut]) + [turn.(modelActivity := steps[cut..])]
  {
    AllStepsSnoc(turns, turn);
    assert (turns + [turn])[..|turns|] == turns;
  }

  lemma {:induction false} WithActivityKeepsTurns(turns: seq<TurnSnapshot>, steps: seq<ModelActivityStep>)
    requires SameShape(AllSteps(turns), steps)
    ensures AllSteps(WithActivity(turns, steps)) == steps
    ensures SameTurns(turns, WithActivity(turns, steps))
  {
    if turns == [] {
      assert steps == [];
    } else {
      var front, turn := turns[..|turns| - 1], turns[|turns| - 1];
      var cut := |AllSteps(front)|;
      var turn' := turn.(modelActivity := steps[cut..]);
      assert turns == front + [turn];
      WithActivitySnoc(front, turn, steps);
      ShapeSplit(AllSteps(front), turn.modelActivity, steps);
      WithActivityKeepsTurns(front, steps[..cut]);
      AllStepsSnoc(WithActivity(front, steps[..cut]), turn');
      SameTurnsSnoc(front, WithActivity(front, steps[..cut]), turn, turn');
    }
  }

  lemma {:induction false} ShapeKeepsStepTokens(steps: seq<ModelActivityStep>, steps': seq<ModelActivityStep>)
    requires SameShape(steps, steps')
    ensures StepTokens(steps) == StepTokens(steps')
  {
    if steps != [] {
      ShapeKeepsStepTokens(steps[..|steps| - 1], steps'[..|steps| - 1]);
    }
  }

  lemma {:induction false} RepricedTurnTokens(turns: seq<TurnSnapshot>, turns': seq<TurnSnapshot>)
    requires SameTurns(turns, turns')
    ensures TurnTokens(turns) == TurnTokens(turns')
  {
    if turns != [] {
      RepricedTurnTokens(turns[..|turns| - 1], turns'[..|turns| - 1]);
      ShapeKeepsStepTokens(turns[|turns| - 1].modelActivity, turns'[|turns| - 1].modelActivity);
    }
  }

  lemma {:induction false} RepricedInOrder(turns: seq<TurnSnapshot>, turns': seq<TurnSnapshot>)
    requires SameTurns(turns, turns')
    requires InOrder(turns)
    ensures InOrder(turns')
  {
    forall i | 0 <= i < |turns'|
      ensures StepsInOrder(turns'[i].modelActivity)
    {
      assert SameTurn(turns[i], turns'[i]) && turns[i] in turns;
      var a, b := turns[i].modelActivity, turns'[i].modelActivity;
      assert forall j | 0 <= j < |a| :: SameButCost(a[j], b[j]);
    }
  }

  lemma {:induction false} RepricedSliceTokens(usage: seq<UsageSlice>, prices: Prices, norm: Names)
    ensures SliceTokens(usage) == SliceTokens(PriceAll(usage, prices, norm))
  {
    if usage != [] {
      RepricedSliceTokens(usage[..|usage| - 1], prices, norm);
      assert PriceAll(usage, prices, norm)[..|usage| - 1] == PriceAll(usage[..|usage| - 1], prices, norm);
    }
  }

  lemma {:induction false} LinearCostNonNegative(t: TokenBreakdown, p: Price)
    requires p.NonNegative()
    ensures 0.0 <= LinearCost(t, p)
  {
    MulBound(p.input, t.input as real, t.input as real);
    MulBound(p.output, t.output as real, t.output as real);
    MulBound(p.cacheRead, t.cacheRead as real, t.cacheRead as real);
    MulBound(p.cacheWrite, t.cacheWrite as real, t.cacheWrite as real);
    MulBound(p.reasoning, t.reasoning as real, t.reasoning as real);
  }

  /* ---- Repricing keeps reconciliation ---- */

  ghost predicate Finer(fold: Names, norm: Names) {
    forall a, b | fold(a) == fold(b) :: norm(a) == norm(b)
  }

  /** Every step names its slice's provider as the slice does, up to letter case: whatever the
      server's check attributes to a slice, repricing finds as well. */
  ghost predicate SpelledAlike(steps: seq<ModelActivityStep>, usage: seq<UsageSlice>, norm: Names, fold: Names) {
    && Finer(fold, norm)
    && (forall i, j | 0 <= i < |steps| && 0 <= j < |usage| && norm(StepKey(steps[i])) == norm(SliceKey(usage[j])) ::
          fold(StepKey(steps[i])) == fold(SliceKey(usage[j])))
  }

  predicate Priceable(slice: UsageSlice, prices: Prices, norm: Names) {
    match prices(norm(SliceKey(slice)))
    case None => true
    case Some(p) => p.NonNegative()
  }

  predicate HasPrices(usage: seq<UsageSlice>, prices: Prices, norm: Names) {
    forall i | 0 <= i < |usage| :: Priceable(usage[i], prices, norm)
  }

  /** Pricing keeps the model and the tokens of a slice, and whether its cost was reported.  A reported
      cost stays, as does one for which there is no price; any other is replaced by an amount that does
      not depend on it, so that pricing a second time changes nothing. */
  lemma {:induction false} PricedSlice(slice: UsageSlice, prices: Prices, norm: Names)
    ensures var slice' := PriceSlice(slice, prices, norm);
            && SliceKey(slice') == SliceKey(slice) && slice'.tokens == slice.tokens
            && (slice'.cost.kind == Reported <==> slice.cost.kind == Reported)
            && (slice.cost.kind == Reported || prices(norm(SliceKey(slice))) == None ==> slice' == slice)
            && PriceSlice(slice', prices, norm) == slice'
    ensures slice.cost.kind != Reported && prices(norm(SliceKey(slice))).Some? ==>
              forall other: Cost | other.kind != Reported ::
                PriceSlice(slice.(cost := other), prices, norm) == PriceSlice(slice, prices, norm)
  {}

  lemma {:induction false} PricedNonNegative(usage: seq<UsageSlice>, prices: Prices, norm: Names)
    requires AmountsNonNegative(usage) && HasPrices(usage, prices, norm)
    ensures AmountsNonNegative(PriceAll(usage, prices, norm))
  {
    var usage' := PriceAll(usage, prices, norm);
    forall i | 0 <= i < |usage'|
      ensures 0.0 <= usage'[i].cost.amount
    {
      var slice := usage[i];
      assert Priceable(slice, prices, norm);
      if slice.cost.kind != Reported && prices(norm(SliceKey(slice))) != None {
        LinearCostNonNegative(slice.tokens, prices(norm(SliceKey(slice))).value);
      }
    }
  }

  lemma {:induction false} MatchedHasTokens(steps: seq<ModelActivityStep>, slice: UsageSlice, fold: Names, i: nat)
    requires i < |steps| && Matches(fold, steps[i], slice)
    ensures MatchingTokens(steps, slice, fold) != []
  {
    if i < |steps| - 1 {
      MatchedHasTokens(steps[..|steps| - 1], slice, fold, i);
    }
  }

  /** By how much the steps of a slice exceed its cost */
  function Gap(slice: UsageSlice, steps: seq<ModelActivityStep>, norm: Names): real {
    Booked(steps, norm, norm(SliceKey(slice))).cost - slice.cost.amount
  }

  /* ---- What repricing leaves between the two accounts ---- */

  /** The step is booked under the slice's name, but repricing does not find it there. */
  predicate Strays(s: ModelActivityStep, slice: UsageSlice, norm: Names, fold: Names) {
    norm(StepKey(s)) == norm(SliceKey(slice)) && !Matches(fold, s, slice)
  }

  function StrayEntry(slice: UsageSlice, norm: Names, fold: Names): ModelActivityStep -> Ledger {
    (s: ModelActivityStep) => if Strays(s, slice, norm, fold) then StepEntry()(s) else Zero()
  }

  function Stray(steps: seq<ModelActivityStep>, slice: UsageSlice, norm: Names, fold: Names): Ledger {
    Total(steps, StrayEntry(slice, norm, fold))
  }

  lemma {:induction false} BookedSplits(steps: seq<ModelActivityStep>, slice: UsageSlice, norm: Names, fold: Names)
    requires Finer(fold, norm)
    ensures Booked(steps, norm, norm(SliceKey(slice)))
         == Plus(SpentOn(steps, slice, fold), Stray(steps, slice, norm, fold))
  {
    var k := SliceKey(slice);
    var f := Only(StepEntry(), NormKey(norm), norm(k));
    var g, h := Only(StepEntry(), NormKey(fold), fold(k)), StrayEntry(slice, norm, fold);
    forall s | s in steps
      ensures f(s) == Plus(g(s), h(s))
    {
      PlusZero(StepEntry()(s));
      PlusZero(Zero());
    }
    TotalSplit(steps, f, g, h);
  }

  lemma {:induction false} TotalPointwise<T>(xs: seq<T>, ys: seq<T>, f: T -> Ledger)
    requires |xs| == |ys| && forall i | 0 <= i < |xs| :: f(xs[i]) == f(ys[i])
    ensures Total(xs, f) == Total(ys, f)
  {
    if xs != [] {
      TotalPointwise(xs[1..], ys[1..], f);
    }
  }

  /** A stray step belongs to no slice as far as repricing can tell. */
  lemma {:induction false} StrayStays(steps: seq<ModelActivityStep>, usage: seq<UsageSlice>, i: nat, norm: Names,
                                      fold: Names)
    requires i < |usage| && Apart(usage, norm) && Finer(fold, norm)
    ensures Stray(SpreadAll(steps, usage, fold), usage[i], norm, fold) == Stray(steps, usage[i], norm, fold)
  {
    var steps' := SpreadAll(steps, usage, fold);
    SpreadAllKeepsShape(steps, usage, fold);
    forall j | 0 <= j < |steps|
      ensures StrayEntry(usage[i], norm, fold)(steps'[j]) == StrayEntry(usage[i], norm, fold)(steps[j])
    {
      assert SameButCost(steps[j], steps'[j]) && StepKey(steps'[j]) == StepKey(steps[j]);
      assert Strays(steps'[j], usage[i], norm, fold) == Strays(steps[j], usage[i], norm, fold);
      if Strays(steps[j], usage[i], norm, fold) {
        StrayUnclaimed(steps[j], usage, i, norm, fold);
        SpreadAllLeaves(steps, usage, fold, j);
      }
    }
    TotalPointwise(steps, steps', StrayEntry(usage[i], norm, fold));
  }

  lemma {:induction false} StrayUnclaimed(s: ModelActivityStep, usage: seq<UsageSlice>, i: nat, norm: Names,
                                          fold: Names)
    requires i < |usage| && Apart(usage, norm) && Finer(fold, norm) && Strays(s, usage[i], norm, fold)
    ensures forall slice | slice in usage :: !Matches(fold, s, slice)
  {
    forall slice | slice in usage
      ensures !Matches(fold, s, slice)
    {
      var j :| 0 <= j < |usage| && usage[j] == slice;
      if j < i {
        assert norm(SliceKey(usage[j])) != norm(SliceKey(usage[i]));
      } else if i < j {
        assert norm(SliceKey(usage[i])) != norm(SliceKey(usage[j]));
      }
    }
  }

  /** What the steps get beyond the slice's cost: all but the last get their share of it by a sum of
      tokens that may have wrapped around. */
  function Overspend(steps: seq<ModelActivityStep>, slice: UsageSlice, fold: Names): real
    requires MatchingTokens(steps, slice, fold) != []
  {
    var tokens := MatchingTokens(steps, slice, fold);
    MaxZero(Share(slice.cost.amount, Sum(tokens[..|tokens| - 1]), WrapSum(tokens)) - slice.cost.amount)
  }

  lemma {:induction false} PaidIsCost(steps: seq<ModelActivityStep>, slice: UsageSlice, fold: Names)
    requires MatchingTokens(steps, slice, fold) != []
    ensures SumOf(SliceParts(steps, slice, fold)) == slice.cost.amount + Overspend(steps, slice, fold)
  {
    var tokens, amount := MatchingTokens(steps, slice, fold), slice.cost.amount;
    ShareIsAdditive(amount, WrapSum(tokens));
    PartsSum(tokens, amount, ShareOf(amount, WrapSum(tokens)), 0.0);
    SharesAdd(tokens[..|tokens| - 1], ShareOf(amount, WrapSum(tokens)));
  }

  /** By how much the steps booked under a slice's name will exceed its cost once it is repriced.
      A reported slice and its steps keep their costs.  Where repricing finds none of the steps, they
      keep their costs against the slice's new one.  Otherwise what remains is the cost of the steps
      it does not find, and what it overspends. */
  function Residue(slice: UsageSlice, steps: seq<ModelActivityStep>, prices: Prices, norm: Names, fold: Names): real {
    if slice.cost.kind == Reported then Gap(slice, steps, norm)
    else if MatchingTokens(steps, slice, fold) == [] then Gap(PriceSlice(slice, prices, norm), steps, norm)
    else
      Stray(steps, slice, norm, fold).cost + OverspendOf(slice, steps, prices, norm, fold)
  }

  function OverspendOf(slice: UsageSlice, steps: seq<ModelActivityStep>, prices: Prices, norm: Names, fold: Names): real
    requires MatchingTokens(steps, slice, fold) != []
  {
    PricedMatches(steps, slice, prices, norm, fold);
    Overspend(steps, PriceSlice(slice, prices, norm), fold)
  }

  lemma {:induction false} PricedMatches(steps: seq<ModelActivityStep>, slice: UsageSlice, prices: Prices, norm: Names,
                                         fold: Names)
    ensures MatchingTokens(steps, PriceSlice(slice, prices, norm), fold) == MatchingTokens(steps, slice, fold)
    ensures Stray(steps, PriceSlice(slice, prices, norm), norm, fold) == Stray(steps, slice, norm, fold)
  {
    PricedSlice(slice, prices, norm);
    if steps != [] {
      var front := steps[..|steps| - 1];
      PricedMatches(front, slice, prices, norm, fold);
    }
    var slice' := PriceSlice(slice, prices, norm);
    forall s | s in steps
      ensures StrayEntry(slice', norm, fold)(s) == StrayEntry(slice, norm, fold)(s)
    {
      assert Strays(s, slice', norm, fold) == Strays(s, slice, norm, fold);
    }
    TotalCongruence(steps, StrayEntry(slice', norm, fold), StrayEntry(slice, norm, fold));
  }

  lemma {:induction false} SpreadAllBooks(steps: seq<ModelActivityStep>, usage: seq<UsageSlice>, i: nat, norm: Names,
                                          fold: Names)
    requires i < |usage| && Apart(usage, norm) && Apart(usage, fold) && Finer(fold, norm)
    ensures Booked(SpreadAll(steps, usage, fold), norm, norm(SliceKey(usage[i]))).cost
         == Paid(steps, usage[i], fold) + Stray(steps, usage[i], norm, fold).cost
  {
    BookedSplits(SpreadAll(steps, usage, fold), usage[i], norm, fold);
    SpreadAllSpends(steps, usage, fold, i);
    StrayStays(steps, usage, i, norm, fold);
  }

  /** The residue is what remains, whatever the snapshot: for every slice, reported or not, found by
      repricing or not, with token counts of any size. */
  lemma {:induction false} RepricedSliceSpends(steps: seq<ModelActivityStep>, usage: seq<UsageSlice>, prices: Prices,
                                               norm: Names, fold: Names, i: nat)
    requires i < |usage| && Apart(usage, norm) && Finer(fold, norm)
    ensures var usage' := PriceAll(usage, prices, norm);
            Gap(usage'[i], SpreadAll(steps, usage', fold), norm) == Residue(usage[i], steps, prices, norm, fold)
  {
    var usage', slice := PriceAll(usage, prices, norm), usage[i];
    FinerKeepsApart(usage, prices, norm, fold);
    PricedKeepsApart(usage, prices, norm);
    PricedSlice(slice, prices, norm);
    PricedMatches(steps, slice, prices, norm, fold);
    SpreadAllBooks(steps, usage', i, norm, fold);
    BookedSplits(steps, slice, norm, fold);
    if slice.cost.kind != Reported && MatchingTokens(steps, slice, fold) != [] {
      PaidIsCost(steps, usage'[i], fold);
    }
  }

  lemma {:induction false} PricedKeepsApart(usage: seq<UsageSlice>, prices: Prices, norm: Names)
    requires Apart(usage, norm)
    ensures Apart(PriceAll(usage, prices, norm), norm)
  {
    var usage' := PriceAll(usage, prices, norm);
    forall i, j | 0 <= i < j < |usage'|
      ensures norm(SliceKey(usage'[i])) != norm(SliceKey(usage'[j]))
    {
      PricedSlice(usage[i], prices, norm);
      PricedSlice(usage[j], prices, norm);
    }
  }

  lemma {:induction false} FinerKeepsApart(usage: seq<UsageSlice>, prices: Prices, norm: Names, fold: Names)
    requires Apart(usage, norm) && Finer(fold, norm)
    ensures Apart(PriceAll(usage, prices, norm), fold)
  {
    var usage' := PriceAll(usage, prices, norm);
    forall i, j | 0 <= i < j < |usage'|
      ensures fold(SliceKey(usage'[i])) != fold(SliceKey(usage'[j]))
    {
      PricedSlice(usage[i], prices, norm);
      PricedSlice(usage[j], prices, norm);
    }
  }

  lemma {:induction false} SliceHasStep(steps: seq<ModelActivityStep>, usage: seq<UsageSlice>, i: nat, norm: Names,
                                        fold: Names)
    returns (j: nat)
    requires StepNames(steps, norm) == SliceNames(usage, norm) && SpelledAlike(steps, usage, norm, fold) && i < |usage|
    ensures j < |steps| && Matches(fold, steps[j], usage[i])
  {
    assert norm(SliceKey(usage[i])) in SliceNames(usage, norm);
    j :| 0 <= j < |steps| && norm(StepKey(steps[j])) == norm(SliceKey(usage[i]));
  }

  lemma {:induction false} PayAllLeaves(steps: seq<ModelActivityStep>, slice: UsageSlice, fold: Names,
                                        parts: seq<real>, j: nat)
    requires j < |steps| && !Matches(fold, steps[j], slice)
    ensures PayAll(steps, slice, fold, parts)[j] == steps[j]
  {
    if 0 < j {
      PayAllLeaves(steps[1..], slice, fold,
                   if Matches(fold, steps[0], slice) && parts != [] then parts[1..] else parts, j - 1);
    }
  }

  /** A step is only rewritten on behalf of a slice that was not reported. */
  lemma {:induction false} SpreadAllLeaves(steps: seq<ModelActivityStep>, usage: seq<UsageSlice>, fold: Names, j: nat)
    requires j < |steps|
    requires forall slice | slice in usage && Matches(fold, steps[j], slice) :: slice.cost.kind == Reported
    ensures SpreadAll(steps, usage, fold)[j] == steps[j]
  {
    if usage != [] {
      var front, last := usage[..|usage| - 1], usage[|usage| - 1];
      SpreadAllLeaves(steps, front, fold, j);
      if last.cost.kind != Reported {
        var before := SpreadAll(steps, front, fold);
        PayAllLeaves(before, last, fold, SliceParts(before, last, fold), j);
      }
    }
  }

  /** The steps of a reported slice are left exactly as they were. */
  lemma {:induction false} ReportedStepsKeep(steps: seq<ModelActivityStep>, usage: seq<UsageSlice>, prices: Prices,
                                             norm: Names, fold: Names, i: nat, j: nat)
    requires i < |usage| && j < |steps| && Apart(usage, norm) && Finer(fold, norm)
    requires usage[i].cost.kind == Reported && norm(StepKey(steps[j])) == norm(SliceKey(usage[i]))
    ensures SpreadAll(steps, PriceAll(usage, prices, norm), fold)[j] == steps[j]
  {
    var usage' := PriceAll(usage, prices, norm);
    forall k | 0 <= k < |usage'| && Matches(fold, steps[j], usage'[k])
      ensures usage'[k].cost.kind == Reported
    {
      PricedSlice(usage[k], prices, norm);
      assert norm(SliceKey(usage[k])) == norm(StepKey(steps[j]));
    }
    SpreadAllLeaves(steps, usage', fold, j);
  }

  /* ---- The gap that reported slices leave ---- */

  /** By how much the steps of reported slices exceed those slices' own cost */
  function ReportedGap(usage: seq<UsageSlice>, steps: seq<ModelActivityStep>, norm: Names): real {
    if usage == [] then 0.0
    else
      ReportedGap(usage[..|usage| - 1], steps, norm)
      + var last := usage[|usage| - 1]; if last.cost.kind == Reported then Gap(last, steps, norm) else 0.0
  }

  function NormKeys(usage: seq<UsageSlice>, norm: Names): (ks: seq<ModelKey>)
    ensures |ks| == |usage|
    ensures forall i | 0 <= i < |usage| :: ks[i] == norm(SliceKey(usage[i]))
  {
    seq(|usage|, i requires 0 <= i < |usage| => norm(SliceKey(usage[i])))
  }

  /** By how much the steps exceed the slices, name by name */
  function TotalGap(usage: seq<UsageSlice>, steps: seq<ModelActivityStep>, norm: Names): real {
    Total(NormKeys(usage, norm), ClassTotal(steps, StepEntry(), NormKey(norm))).cost - SliceCost(usage)
  }

  lemma {:induction false} TotalGapSnoc(usage: seq<UsageSlice>, slice: UsageSlice, steps: seq<ModelActivityStep>,
                                        norm: Names)
    ensures TotalGap(usage + [slice], steps, norm) == TotalGap(usage, steps, norm) + Gap(slice, steps, norm)
  {
    var k, g := norm(SliceKey(slice)), ClassTotal(steps, StepEntry(), NormKey(norm));
    assert (usage + [slice])[..|usage|] == usage;
    assert NormKeys(usage + [slice], norm) == NormKeys(usage, norm) + [k];
    TotalSnoc(NormKeys(usage, norm), k, g);
    assert g(k) == Booked(steps, norm, k);
  }

  /** What all slices together leave */
  function Residues(usage: seq<UsageSlice>, steps: seq<ModelActivityStep>, prices: Prices, norm: Names,
                    fold: Names): real {
    if usage == [] then 0.0
    else
      Residues(usage[..|usage| - 1], steps, prices, norm, fold)
      + Residue(usage[|usage| - 1], steps, prices, norm, fold)
  }

  lemma {:induction false} ResiduesRemain(usage: seq<UsageSlice>, usage': seq<UsageSlice>,
                                          steps: seq<ModelActivityStep>, steps': seq<ModelActivityStep>, prices: Prices,
                                          norm: Names, fold: Names)
    requires |usage'| == |usage|
    requires forall i | 0 <= i < |usage| :: Gap(usage'[i], steps', norm) == Residue(usage[i], steps, prices, norm, fold)
    ensures TotalGap(usage', steps', norm) == Residues(usage, steps, prices, norm, fold)
  {
    if usage == [] {
      assert NormKeys(usage', norm) == [];
    } else {
      var n := |usage| - 1;
      ResiduesRemain(usage[..n], usage'[..n], steps, steps', prices, norm, fold);
      assert usage' == usage'[..n] + [usage'[n]];
      TotalGapSnoc(usage'[..n], usage'[n], steps', norm);
    }
  }

  lemma {:induction false} RepricedGap(steps: seq<ModelActivityStep>, usage: seq<UsageSlice>, prices: Prices,
                                       norm: Names, fold: Names)
    requires Apart(usage, norm) && StepNames(steps, norm) == SliceNames(usage, norm) && Finer(fold, norm)
    ensures var usage' := PriceAll(usage, prices, norm);
            Total(SpreadAll(steps, usage', fold), StepEntry()).cost - SliceCost(usage')
            == Residues(usage, steps, prices, norm, fold)
  {
    var usage' := PriceAll(usage, prices, norm);
    var steps' := SpreadAll(steps, usage', fold);
    forall i | 0 <= i < |usage|
      ensures Gap(usage'[i], steps', norm) == Residue(usage[i], steps, prices, norm, fold)
    {
      RepricedSliceSpends(steps, usage, prices, norm, fold, i);
    }
    ResiduesRemain(usage, usage', steps, steps', prices, norm, fold);
    SpreadAllKeepsShape(steps, usage', fold);
    PricedKeepsKeys(usage, prices, norm);
    SameNames(steps, steps', usage, usage', norm);
    PricedKeepsApart(usage, prices, norm);
    StepsByName(steps', usage', norm);
  }

  lemma {:induction false} PricedKeepsKeys(usage: seq<UsageSlice>, prices: Prices, norm: Names)
    ensures SameKeys(usage, PriceAll(usage, prices, norm))
  {
    forall i | 0 <= i < |usage|
      ensures SliceKey(PriceAll(usage, prices, norm)[i]) == SliceKey(usage[i])
    {
      PricedSlice(usage[i], prices, norm);
    }
  }

  predicate SameKeys(usage: seq<UsageSlice>, usage': seq<UsageSlice>) {
    |usage'| == |usage| && forall i | 0 <= i < |usage| :: SliceKey(usage'[i]) == SliceKey(usage[i])
  }

  lemma {:induction false} StepsByName(steps: seq<ModelActivityStep>, usage: seq<UsageSlice>, norm: Names)
    requires Apart(usage, norm) && StepNames(steps, norm) == SliceNames(usage, norm)
    ensures Total(steps, StepEntry()).cost - SliceCost(usage) == TotalGap(usage, steps, norm)
  {
    forall s | s in steps
      ensures NormKey(norm)(s) in NormKeys(usage, norm)
    {
      var i :| 0 <= i < |steps| && steps[i] == s;
      assert norm(StepKey(steps[i])) in StepNames(steps, norm);
      var j :| 0 <= j < |usage| && norm(SliceKey(usage[j])) == norm(StepKey(s));
      assert NormKeys(usage, norm)[j] == norm(StepKey(s));
    }
    TotalByClass(steps, StepEntry(), NormKey(norm), NormKeys(usage, norm));
  }

  lemma {:induction false} SameNames(steps: seq<ModelActivityStep>, steps': seq<ModelActivityStep>,
                                     usage: seq<UsageSlice>, usage': seq<UsageSlice>, norm: Names)
    requires SameShape(steps, steps') && SameKeys(usage, usage')
    ensures StepNames(steps', norm) == StepNames(steps, norm)
    ensures SliceNames(usage', norm) == SliceNames(usage, norm)
  {
    assert forall i | 0 <= i < |steps| :: SameButCost(steps[i], steps'[i]) && StepKey(steps'[i]) == StepKey(steps[i]);
  }

  lemma {:induction false} AgreesByGap(slice: UsageSlice, slice': UsageSlice, steps: seq<ModelActivityStep>,
                                       steps': seq<ModelActivityStep>, norm: Names)
    requires SliceAgrees(slice, steps, norm) && SameShape(steps, steps')
    requires SliceKey(slice') == SliceKey(slice) && slice'.tokens == slice.tokens
    ensures SliceAgrees(slice', steps', norm) <==> Close(Gap(slice', steps', norm), 0.0)
  {
    ShapeKeepsTokens(steps, steps', norm, norm(SliceKey(slice)));
  }

  lemma {:induction false} RepricedSliceAgrees(steps: seq<ModelActivityStep>, usage: seq<UsageSlice>, prices: Prices,
                                               norm: Names, fold: Names, i: nat)
    requires i < |usage| && ModelsReconcile(steps, usage, norm) && Finer(fold, norm)
    ensures var usage' := PriceAll(usage, prices, norm);
            SliceAgrees(usage'[i], SpreadAll(steps, usage', fold), norm)
            <==> Close(Residue(usage[i], steps, prices, norm, fold), 0.0)
  {
    var usage' := PriceAll(usage, prices, norm);
    var steps' := SpreadAll(steps, usage', fold);
    RepricedSliceSpends(steps, usage, prices, norm, fold, i);
    PricedSlice(usage[i], prices, norm);
    SpreadAllKeepsShape(steps, usage', fold);
    AgreesByGap(usage[i], usage'[i], steps, steps', norm);
  }

  /** Slice by slice, what repricing leaves is within the tolerance. */
  predicate EachSettled(usage: seq<UsageSlice>, steps: seq<ModelActivityStep>, prices: Prices, norm: Names,
                        fold: Names) {
    forall i | 0 <= i < |usage| :: Close(Residue(usage[i], steps, prices, norm, fold), 0.0)
  }

  lemma {:induction false} RepricedModelsReconcile(steps: seq<ModelActivityStep>, usage: seq<UsageSlice>,
                                                   prices: Prices, norm: Names, fold: Names)
    requires ModelsReconcile(steps, usage, norm) && Finer(fold, norm)
    ensures var usage' := PriceAll(usage, prices, norm);
            ModelsReconcile(SpreadAll(steps, usage', fold), usage', norm)
            <==> EachSettled(usage, steps, prices, norm, fold)
  {
    var usage' := PriceAll(usage, prices, norm);
    var steps' := SpreadAll(steps, usage', fold);
    forall i | 0 <= i < |usage|
      ensures SliceAgrees(usage'[i], steps', norm) <==> Close(Residue(usage[i], steps, prices, norm, fold), 0.0)
    {
      RepricedSliceAgrees(steps, usage, prices, norm, fold, i);
    }
    PricedKeepsApart(usage, prices, norm);
    PricedKeepsKeys(usage, prices, norm);
    SpreadAllKeepsShape(steps, usage', fold);
    SameNames(steps, steps', usage, usage', norm);
  }

  lemma {:induction false} RepricedTurns(turns: seq<TurnSnapshot>, usage: seq<UsageSlice>, prices: Prices, norm: Names,
                                         fold: Names)
    ensures SameTurns(turns, Repriced(turns, usage, prices, norm, fold))
    ensures AllSteps(Repriced(turns, usage, prices, norm, fold))
         == SpreadAll(AllSteps(turns), PriceAll(usage, prices, norm), fold)
  {
    SpreadAllKeepsShape(AllSteps(turns), PriceAll(usage, prices, norm), fold);
    WithActivityKeepsTurns(turns, SpreadAll(AllSteps(turns), PriceAll(usage, prices, norm), fold));
  }

  lemma {:induction false} RepricedTotals(turns: seq<TurnSnapshot>, usage: seq<UsageSlice>, prices: Prices, norm: Names,
                                          fold: Names)
    requires TurnTokens(turns) == SliceTokens(usage) && Finer(fold, norm)
    requires Apart(usage, norm) && StepNames(AllSteps(turns), norm) == SliceNames(usage, norm)
    ensures TotalsReconcile(Repriced(turns, usage, prices, norm, fold), PriceAll(usage, prices, norm))
       <==> Close(Residues(usage, AllSteps(turns), prices, norm, fold), 0.0)
  {
    var turns' := Repriced(turns, usage, prices, norm, fold);
    RepricedTurns(turns, usage, prices, norm, fold);
    RepricedTurnTokens(turns, turns');
    RepricedSliceTokens(usage, prices, norm);
    TurnTotals(turns');
    RepricedGap(AllSteps(turns), usage, prices, norm, fold);
  }

  /** Repricing a snapshot that passed the check changes nothing in the turns but costs, and the
      result passes the check again if and only if what remains of each slice is within the
      tolerance, one by one and taken together.  `Residue` reads this off the snapshot and the price
      list before anything is repriced. */
  lemma {:induction false} RepricingReconciles(turns: seq<TurnSnapshot>, usage: seq<UsageSlice>, prices: Prices,
                                               norm: Names, fold: Names)
    requires Reconciles(turns, usage, norm) && Finer(fold, norm)
    ensures SameTurns(turns, Repriced(turns, usage, prices, norm, fold))
    ensures Reconciles(Repriced(turns, usage, prices, norm, fold), PriceAll(usage, prices, norm), norm)
       <==> && EachSettled(usage, AllSteps(turns), prices, norm, fold)
            && Close(Residues(usage, AllSteps(turns), prices, norm, fold), 0.0)
  {
    RepricedTurns(turns, usage, prices, norm, fold);
    RepricedInOrder(turns, Repriced(turns, usage, prices, norm, fold));
    RepricedModelsReconcile(AllSteps(turns), usage, prices, norm, fold);
    RepricedTotals(turns, usage, prices, norm, fold);
  }

  /** No cost is negative afterwards if none was before, and no price is. */
  lemma {:induction false} RepricedNonNegative(turns: seq<TurnSnapshot>, usage: seq<UsageSlice>, prices: Prices,
                                               norm: Names, fold: Names)
    requires AmountsNonNegative(usage) && CostsNonNegative(AllSteps(turns)) && HasPrices(usage, prices, norm)
    ensures AmountsNonNegative(PriceAll(usage, prices, norm))
    ensures CostsNonNegative(AllSteps(Repriced(turns, usage, prices, norm, fold)))
  {
    var usage' := PriceAll(usage, prices, norm);
    PricedNonNegative(usage, prices, norm);
    SpreadAllNonNegative(AllSteps(turns), usage', fold);
    RepricedTurns(turns, usage, prices, norm, fold);
  }

  /* ---- Repricing twice ---- */

  /** What a matching step is paid does not depend on what it cost before. */
  lemma {:induction false} PayAllForgets(a: seq<ModelActivityStep>, b: seq<ModelActivityStep>, slice: UsageSlice,
                                         fold: Names, parts: seq<real>, j: nat)
    requires SameShape(a, b) && j < |a| && Matches(fold, a[j], slice) && |parts| == |MatchingTokens(a, slice, fold)|
    ensures PayAll(a, slice, fold, parts)[j] == PayAll(b, slice, fold, parts)[j]
  {
    ShapeTail(a, b);
    MatchingTokensCons(a[0], a[1..], slice, fold);
    if j > 0 {
      PayAllForgets(a[1..], b[1..], slice, fold, if Matches(fold, a[0], slice) then parts[1..] else parts, j - 1);
    }
  }

  lemma {:induction false} SpreadForgets(a: seq<ModelActivityStep>, b: seq<ModelActivityStep>, slice: UsageSlice,
                                         fold: Names, j: nat)
    requires SameShape(a, b) && j < |a|
    requires a[j] == b[j] || (Matches(fold, a[j], slice) && slice.cost.kind != Reported)
    ensures SpreadSlice(a, slice, fold)[j] == SpreadSlice(b, slice, fold)[j]
  {
    ShapeKeepsMatching(a, b, slice, fold);
    assert SameButCost(a[j], b[j]) && StepKey(a[j]) == StepKey(b[j]);
    if slice.cost.kind != Reported && MatchingTokens(a, slice, fold) != [] {
      var parts := SliceParts(a, slice, fold);
      if Matches(fold, a[j], slice) {
        PayAllForgets(a, b, slice, fold, parts, j);
      } else {
        PayAllLeaves(a, slice, fold, parts, j);
        PayAllLeaves(b, slice, fold, parts, j);
      }
    } else if Matches(fold, a[j], slice) {
      MatchedHasTokens(a, slice, fold, j);
    }
  }

  /** Some slice that is not reported pays the step. */
  predicate Claimed(usage: seq<UsageSlice>, s: ModelActivityStep, fold: Names) {
    exists i :: 0 <= i < |usage| && Matches(fold, s, usage[i]) && usage[i].cost.kind != Reported
  }

  lemma {:induction false} ClaimedBefore(usage: seq<UsageSlice>, s: ModelActivityStep, fold: Names)
    requires usage != [] && Claimed(usage, s, fold)
    ensures var last := usage[|usage| - 1];
            Claimed(usage[..|usage| - 1], s, fold) || (Matches(fold, s, last) && last.cost.kind != Reported)
  {
    var i :| 0 <= i < |usage| && Matches(fold, s, usage[i]) && usage[i].cost.kind != Reported;
    if i < |usage| - 1 {
      assert usage[..|usage| - 1][i] == usage[i];
    }
  }

  lemma {:induction false} LastSliceForgets(a: seq<ModelActivityStep>, b: seq<ModelActivityStep>,
                                            a': seq<ModelActivityStep>, b': seq<ModelActivityStep>, slice: UsageSlice,
                                            fold: Names, j: nat)
    requires SameShape(a, b) && SameShape(a, a') && SameShape(b, b') && j < |a|
    requires a'[j] == b'[j] || (Matches(fold, a[j], slice) && slice.cost.kind != Reported)
    ensures SpreadSlice(a', slice, fold)[j] == SpreadSlice(b', slice, fold)[j]
  {
    SpreadShapes(a, b, a', b', j);
    SpreadForgets(a', b', slice, fold, j);
  }

  lemma {:induction false} SpreadAllForgets(a: seq<ModelActivityStep>, b: seq<ModelActivityStep>,
                                            usage: seq<UsageSlice>, fold: Names, j: nat)
    requires SameShape(a, b) && j < |a| && (a[j] == b[j] || Claimed(usage, a[j], fold))
    ensures SpreadAll(a, usage, fold)[j] == SpreadAll(b, usage, fold)[j]
  {
    if usage != [] {
      var front, last := usage[..|usage| - 1], usage[|usage| - 1];
      SpreadAllKeepsShape(a, front, fold);
      SpreadAllKeepsShape(b, front, fold);
      if !(Matches(fold, a[j], last) && last.cost.kind != Reported) {
        if a[j] != b[j] {
          ClaimedBefore(usage, a[j], fold);
        }
        SpreadAllForgets(a, b, front, fold, j);
      }
      LastSliceForgets(a, b, SpreadAll(a, front, fold), SpreadAll(b, front, fold), last, fold, j);
    }
  }

  lemma {:induction false} SpreadShapes(a: seq<ModelActivityStep>, b: seq<ModelActivityStep>,
                                        a': seq<ModelActivityStep>, b': seq<ModelActivityStep>, j: nat)
    requires SameShape(a, b) && SameShape(a, a') && SameShape(b, b') && j < |a|
    ensures SameShape(a', b') && StepKey(a'[j]) == StepKey(a[j])
  {
    forall i | 0 <= i < |a|
      ensures SameButCost(a'[i], b'[i])
    {
      assert SameButCost(a[i], b[i]) && SameButCost(a[i], a'[i]) && SameButCost(b[i], b'[i]);
    }
    assert SameButCost(a[j], a'[j]);
  }

  lemma {:induction false} SpreadAllTwice(steps: seq<ModelActivityStep>, usage: seq<UsageSlice>, fold: Names)
    ensures SpreadAll(SpreadAll(steps, usage, fold), usage, fold) == SpreadAll(steps, usage, fold)
  {
    var once := SpreadAll(steps, usage, fold);
    SpreadAllKeepsShape(steps, usage, fold);
    forall j | 0 <= j < |steps|
      ensures SpreadAll(once, usage, fold)[j] == once[j]
    {
      if !Claimed(usage, steps[j], fold) {
        SpreadAllLeaves(steps, usage, fold, j);
      }
      SpreadAllForgets(steps, once, usage, fold, j);
    }
  }

  /** Repricing a repriced snapshot at the same prices changes nothing any more. */
  lemma {:induction false} RepricingTwice(turns: seq<TurnSnapshot>, usage: seq<UsageSlice>, prices: Prices, norm: Names,
                                          fold: Names)
    ensures var turns', usage' := Repriced(turns, usage, prices, norm, fold), PriceAll(usage, prices, norm);
            Repriced(turns', usage', prices, norm, fold) == turns' && PriceAll(usage', prices, norm) == usage'
  {
    var turns', usage' := Repriced(turns, usage, prices, norm, fold), PriceAll(usage, prices, norm);
    forall i | 0 <= i < |usage|
      ensures PriceSlice(usage'[i], prices, norm) == usage'[i]
    {
      PricedSlice(usage[i], prices, norm);
    }
    assert PriceAll(usage', prices, norm) == usage';
    RepricedTurns(turns, usage, prices, norm, fold);
    SpreadAllTwice(AllSteps(turns), usage', fold);
    WithOwnActivity(turns');
  }

  lemma {:induction false} WithOwnActivity(turns: seq<TurnSnapshot>)
    ensures WithActivity(turns, AllSteps(turns)) == turns
  {
    if turns != [] {
      var front, turn := turns[..|turns| - 1], turns[|turns| - 1];
      WithOwnActivity(front);
      assert turns == front + [turn];
      AllStepsSnoc(front, turn);
      assert AllSteps(turns)[|AllSteps(front)|..] == turn.modelActivity;
      assert AllSteps(turns)[..|AllSteps(front)|] == AllSteps(front);
    }
  }

  /* ---- Snapshots that repricing settles ---- */

  /** Every model is spelled alike on both sides up to letter case, and the tokens of one model can be
      added up without wrapping around.  The server checks neither, but a client's snapshots are like
      this if the session's tokens sum below 2^64. */
  ghost predicate Repriceable(steps: seq<ModelActivityStep>, usage: seq<UsageSlice>, prices: Prices, norm: Names,
                              fold: Names) {
    && SpelledAlike(steps, usage, norm, fold)
    && AmountsNonNegative(usage)
    && HasPrices(usage, prices, norm)
    && TokensFit(steps, fold)
  }

  lemma {:induction false} NothingStrays(steps: seq<ModelActivityStep>, usage: seq<UsageSlice>, i: nat, norm: Names,
                                         fold: Names)
    requires i < |usage| && SpelledAlike(steps, usage, norm, fold)
    ensures Stray(steps, usage[i], norm, fold) == Zero()
  {
    forall s | s in steps
      ensures StrayEntry(usage[i], norm, fold)(s) == Zero()
    {
      var j :| 0 <= j < |steps| && steps[j] == s;
      assert norm(StepKey(steps[j])) == norm(SliceKey(usage[i])) ==> Matches(fold, steps[j], usage[i]);
      assert !Strays(s, usage[i], norm, fold);
    }
    TotalZero(steps, StrayEntry(usage[i], norm, fold));
  }

  lemma {:induction false} SumFront(tokens: seq<u64>)
    requires tokens != []
    ensures Sum(tokens[..|tokens| - 1]) <= Sum(tokens)
  {
    assert tokens == tokens[..|tokens| - 1] + [tokens[|tokens| - 1]];
    SumSnoc(tokens[..|tokens| - 1], tokens[|tokens| - 1]);
  }

  lemma {:induction false} NothingOverspent(steps: seq<ModelActivityStep>, slice: UsageSlice, fold: Names)
    requires 0.0 <= slice.cost.amount && SpentOn(steps, slice, fold).Grand() <= U64_MAX
    requires MatchingTokens(steps, slice, fold) != []
    ensures Overspend(steps, slice, fold) == 0.0
  {
    var tokens := MatchingTokens(steps, slice, fold);
    MatchingTokensExact(steps, slice, fold);
    WrapSumExact(tokens);
    SumFront(tokens);
    ShareBound(slice.cost.amount, Sum(tokens[..|tokens| - 1]), WrapSum(tokens));
  }

  lemma {:induction false} SettledResidue(steps: seq<ModelActivityStep>, usage: seq<UsageSlice>, prices: Prices,
                                          norm: Names, fold: Names, i: nat)
    requires i < |usage| && StepNames(steps, norm) == SliceNames(usage, norm)
    requires Repriceable(steps, usage, prices, norm, fold)
    ensures Residue(usage[i], steps, prices, norm, fold)
         == if usage[i].cost.kind == Reported then Gap(usage[i], steps, norm) else 0.0
  {
    var j := SliceHasStep(steps, usage, i, norm, fold);
    MatchedHasTokens(steps, usage[i], fold, j);
    NothingStrays(steps, usage, i, norm, fold);
    PricedNonNegative(usage, prices, norm);
    PricedSlice(usage[i], prices, norm);
    PricedMatches(steps, usage[i], prices, norm, fold);
    assert 0.0 <= PriceAll(usage, prices, norm)[i].cost.amount;
    NothingOverspent(steps, PriceSlice(usage[i], prices, norm), fold);
  }

  lemma {:induction false} ResiduesAreReported(steps: seq<ModelActivityStep>, usage: seq<UsageSlice>, n: nat,
                                               prices: Prices, norm: Names, fold: Names)
    requires n <= |usage| && StepNames(steps, norm) == SliceNames(usage, norm)
    requires Repriceable(steps, usage, prices, norm, fold)
    ensures Residues(usage[..n], steps, prices, norm, fold) == ReportedGap(usage[..n], steps, norm)
  {
    if n > 0 {
      ResiduesAreReported(steps, usage, n - 1, prices, norm, fold);
      assert usage[..n][..n - 1] == usage[..n - 1];
      SettledResidue(steps, usage, prices, norm, fold, n - 1);
    }
  }

  /** Such a snapshot passes the check again if and only if the deviations of the reported slices,
      which the check tolerates one by one, stay within the tolerance together. */
  lemma {:induction false} RepriceableReconciles(turns: seq<TurnSnapshot>, usage: seq<UsageSlice>, prices: Prices,
                                                 norm: Names, fold: Names)
    requires Reconciles(turns, usage, norm) && Repriceable(AllSteps(turns), usage, prices, norm, fold)
    ensures Reconciles(Repriced(turns, usage, prices, norm, fold), PriceAll(usage, prices, norm), norm)
       <==> Close(ReportedGap(usage, AllSteps(turns), norm), 0.0)
  {
    var steps := AllSteps(turns);
    RepricingReconciles(turns, usage, prices, norm, fold);
    ResiduesAreReported(steps, usage, |usage|, prices, norm, fold);
    assert usage[..|usage|] == usage;
    forall i | 0 <= i < |usage|
      ensures Close(Residue(usage[i], steps, prices, norm, fold), 0.0)
    {
      SettledResidue(steps, usage, prices, norm, fold, i);
      assert SliceAgrees(usage[i], steps, norm);
    }
  }

  lemma {:induction false} NoReportedGap(usage: seq<UsageSlice>, steps: seq<ModelActivityStep>, norm: Names)
    requires forall slice | slice in usage && slice.cost.kind == Reported :: Gap(slice, steps, norm) == 0.0
    ensures ReportedGap(usage, steps, norm) == 0.0
  {
    if usage != [] {
      NoReportedGap(usage[..|usage| - 1], steps, norm);
    }
  }
}
