/** Who pays for a step, and how much */
module ServerPrices {
  /* `apply_server_prices`, told from what comes out of it */

  import opened Ledgers
  import opened Sequences
  import opened Text
  import opened Usage
  import opened Sessions
  import opened Reconciliation
  import opened Spreading
  import opened Repricing

  /* ---- Who pays ---- */

  /** Slice `i` is the last slice under the step's name whose cost was not reported. */
  predicate LastToPay(usage: seq<UsageSlice>, i: nat, s: ModelActivityStep, fold: Names)
    requires i < |usage|
  {
    && usage[i].cost.kind != Reported && fold(SliceKey(usage[i])) == fold(StepKey(s))
    && forall m | i < m < |usage| && usage[m].cost.kind != Reported :: fold(SliceKey(usage[m])) != fold(StepKey(s))
  }

  predicate NobodyPays(usage: seq<UsageSlice>, s: ModelActivityStep, fold: Names) {
    forall m | 0 <= m < |usage| && usage[m].cost.kind != Reported :: fold(SliceKey(usage[m])) != fold(StepKey(s))
  }

  /** The tokens of the first `n` steps that go by the name `k` */
  function NamedTokens(steps: seq<ModelActivityStep>, fold: Names, k: ModelKey, n: nat): nat
    requires n <= |steps|
  {
    if n == 0 then 0
    else NamedTokens(steps, fold, k, n - 1)
         + if fold(StepKey(steps[n - 1])) == k then steps[n - 1].tokens.Total() else 0
  }

  /** What they cost */
  function NamedCost(steps: seq<ModelActivityStep>, fold: Names, k: ModelKey, n: nat): real
    requires n <= |steps|
  {
    if n == 0 then 0.0
    else NamedCost(steps, fold, k, n - 1)
         + if fold(StepKey(steps[n - 1])) == k then steps[n - 1].cost.amount else 0.0
  }

  /** No later step goes by the name of step `j`. */
  predicate LastNamed(steps: seq<ModelActivityStep>, fold: Names, j: nat)
    requires j < |steps|
  {
    forall m | j < m < |steps| :: fold(StepKey(steps[m])) != fold(StepKey(steps[j]))
  }

  /** What step `j` is due of `amount` when the steps before it cost what `steps'` says: its share by
      tokens - their sum wraps around - or, for the last one, what is left. */
  predicate Due(steps: seq<ModelActivityStep>, steps': seq<ModelActivityStep>, fold: Names, j: nat, amount: real)
    requires |steps'| == |steps| && j < |steps|
  {
    var k, mine := fold(StepKey(steps[j])), steps'[j].cost.amount;
    var total := NamedTokens(steps, fold, k, |steps|) % 0x1_0000_0000_0000_0000;
    if LastNamed(steps, fold, j) then
      var left := amount - NamedCost(steps', fold, k, j);
      mine == if left < 0.0 then 0.0 else left
    else if total == 0 then mine == 0.0
    else mine * total as real == amount * steps[j].tokens.Total() as real
  }

  /* ---- One slice ---- */

  lemma {:induction false} WrapSumWraps(tokens: seq<u64>)
    ensures WrapSum(tokens) == Sum(tokens) % 0x1_0000_0000_0000_0000
  {
    if tokens != [] {
      var front, t := tokens[..|tokens| - 1], tokens[|tokens| - 1];
      assert tokens == front + [t];
      WrapSumWraps(front);
      SumSnoc(front, t);
      WrapsAround(Sum(front), t);
    }
  }

  lemma {:induction false} NamedTokensCons(s: ModelActivityStep, rest: seq<ModelActivityStep>, fold: Names, k: ModelKey,
                                           n: nat)
    requires n <= |rest|
    ensures NamedTokens([s] + rest, fold, k, n + 1)
         == (if fold(StepKey(s)) == k then s.tokens.Total() else 0) + NamedTokens(rest, fold, k, n)
  {
    if n > 0 {
      NamedTokensCons(s, rest, fold, k, n - 1);
      assert ([s] + rest)[n] == rest[n - 1];
    }
  }

  lemma {:induction false} NamedCostCons(s: ModelActivityStep, rest: seq<ModelActivityStep>, fold: Names, k: ModelKey,
                                         n: nat)
    requires n <= |rest|
    ensures NamedCost([s] + rest, fold, k, n + 1)
         == (if fold(StepKey(s)) == k then s.cost.amount else 0.0) + NamedCost(rest, fold, k, n)
  {
    if n > 0 {
      NamedCostCons(s, rest, fold, k, n - 1);
      assert ([s] + rest)[n] == rest[n - 1];
    }
  }

  lemma {:induction false} MatchingAreNamed(steps: seq<ModelActivityStep>, slice: UsageSlice, fold: Names)
    ensures Sum(MatchingTokens(steps, slice, fold)) == NamedTokens(steps, fold, fold(SliceKey(slice)), |steps|)
  {
    if steps != [] {
      var s, rest := steps[0], steps[1..];
      var tail := MatchingTokens(rest, slice, fold);
      assert steps == [s] + rest;
      MatchingTokensCons(s, rest, slice, fold);
      MatchingAreNamed(rest, slice, fold);
      NamedTokensCons(s, rest, fold, fold(SliceKey(slice)), |rest|);
      assert ([s.tokens.Total()] + tail)[1..] == tail;
      assert [] + tail == tail;
    }
  }

  lemma {:induction false} LastHasNoTail(steps: seq<ModelActivityStep>, slice: UsageSlice, fold: Names, j: nat)
    requires j < |steps| && Matches(fold, steps[j], slice)
    ensures LastNamed(steps, fold, j) <==> MatchingTokens(steps[j + 1..], slice, fold) == []
  {
    var tail := steps[j + 1..];
    if LastNamed(steps, fold, j) {
      NothingMatches(tail, slice, fold);
    } else {
      var m :| j < m < |steps| && fold(StepKey(steps[m])) == fold(StepKey(steps[j]));
      assert tail[m - j - 1] == steps[m];
      MatchedHasTokens(tail, slice, fold, m - j - 1);
    }
  }

  lemma {:induction false} NothingMatches(steps: seq<ModelActivityStep>, slice: UsageSlice, fold: Names)
    requires forall m | 0 <= m < |steps| :: !Matches(fold, steps[m], slice)
    ensures MatchingTokens(steps, slice, fold) == []
  {
    if steps != [] {
      NothingMatches(steps[..|steps| - 1], slice, fold);
    }
  }

  function PaidFor(steps: seq<ModelActivityStep>, slice: UsageSlice, fold: Names, share: nat -> real,
                   given: real): (r: seq<ModelActivityStep>)
    ensures |r| == |steps|
  {
    PayAll(steps, slice, fold, Parts(MatchingTokens(steps, slice, fold), slice.cost.amount, share, given))
  }

  /** A step that is not the last of its name gets its share. */
  lemma {:induction false} PaidForCons(s: ModelActivityStep, rest: seq<ModelActivityStep>, slice: UsageSlice,
                                       fold: Names, share: nat -> real, given: real)
    requires MatchingTokens(rest, slice, fold) != []
    ensures PaidFor([s] + rest, slice, fold, share, given)
         == if Matches(fold, s, slice)
            then [Pay(s, slice, share(s.tokens.Total()))]
                 + PaidFor(rest, slice, fold, share, given + share(s.tokens.Total()))
            else [s] + PaidFor(rest, slice, fold, share, given)
  {
    var tail, t := MatchingTokens(rest, slice, fold), s.tokens.Total();
    MatchingTokensCons(s, rest, slice, fold);
    assert ([s] + rest)[1..] == rest;
    if Matches(fold, s, slice) {
      assert ([t] + tail)[1..] == tail;
      var others := Parts(tail, slice.cost.amount, share, given + share(t));
      assert ([share(t)] + others)[1..] == others;
    } else {
      assert [] + tail == tail;
    }
  }

  /** The share of every step but the last, and the rest for the last one */
  predicate PartDue(steps: seq<ModelActivityStep>, paid: seq<ModelActivityStep>, slice: UsageSlice, fold: Names,
                    share: nat -> real, given: real, j: nat)
    requires |paid| == |steps| && j < |steps|
  {
    && paid[j].cost == slice.cost.(amount := paid[j].cost.amount)
    && paid[j].cost.amount
       == if MatchingTokens(steps[j + 1..], slice, fold) == []
          then MaxZero(slice.cost.amount - (given + NamedCost(paid, fold, fold(SliceKey(slice)), j)))
          else share(steps[j].tokens.Total())
  }

  lemma {:induction false} PartNext(s: ModelActivityStep, rest: seq<ModelActivityStep>, first: ModelActivityStep,
                                    paid: seq<ModelActivityStep>, slice: UsageSlice, fold: Names, share: nat -> real,
                                    given: real, next: real, j: nat)
    requires |paid| == |rest| && j < |rest| && PartDue(rest, paid, slice, fold, share, next, j)
    requires next == given + if fold(StepKey(first)) == fold(SliceKey(slice)) then first.cost.amount else 0.0
    ensures PartDue([s] + rest, [first] + paid, slice, fold, share, given, j + 1)
  {
    assert ([s] + rest)[j + 2..] == rest[j + 1..];
    NamedCostCons(first, paid, fold, fold(SliceKey(slice)), j);
  }

  lemma {:induction false} FirstPart(s: ModelActivityStep, rest: seq<ModelActivityStep>, slice: UsageSlice, fold: Names,
                                     share: nat -> real, given: real)
    requires Matches(fold, s, slice)
    ensures PartDue([s] + rest, PaidFor([s] + rest, slice, fold, share, given), slice, fold, share, given, 0)
  {
    MatchingTokensCons(s, rest, slice, fold);
    assert ([s] + rest)[1..] == rest;
  }

  lemma {:induction false} LaterPart(s: ModelActivityStep, rest: seq<ModelActivityStep>, slice: UsageSlice, fold: Names,
                                     share: nat -> real, given: real, next: real, j: nat)
    requires j < |rest| && MatchingTokens(rest, slice, fold) != []
    requires next == if Matches(fold, s, slice) then given + share(s.tokens.Total()) else given
    requires PartDue(rest, PaidFor(rest, slice, fold, share, next), slice, fold, share, next, j)
    ensures PartDue([s] + rest, PaidFor([s] + rest, slice, fold, share, given), slice, fold, share, given, j + 1)
  {
    PaidForCons(s, rest, slice, fold, share, given);
    var first := if Matches(fold, s, slice) then Pay(s, slice, share(s.tokens.Total())) else s;
    PartNext(s, rest, first, PaidFor(rest, slice, fold, share, next), slice, fold, share, given, next, j);
  }

  lemma {:induction false} PartOfStep(steps: seq<ModelActivityStep>, slice: UsageSlice, fold: Names, share: nat -> real,
                                      given: real, j: nat)
    requires j < |steps| && Matches(fold, steps[j], slice)
    ensures PartDue(steps, PaidFor(steps, slice, fold, share, given), slice, fold, share, given, j)
  {
    var s, rest := steps[0], steps[1..];
    assert steps == [s] + rest;
    if j == 0 {
      FirstPart(s, rest, slice, fold, share, given);
    } else {
      var next := if Matches(fold, s, slice) then given + share(s.tokens.Total()) else given;
      MatchedHasTokens(rest, slice, fold, j - 1);
      PartOfStep(rest, slice, fold, share, next, j - 1);
      LaterPart(s, rest, slice, fold, share, given, next, j - 1);
    }
  }

  lemma {:induction false} ShareTimes(amount: real, tokens: nat, total: nat)
    requires total != 0
    ensures Share(amount, tokens, total) * total as real == amount * tokens as real
  {
    DivTimes(amount * tokens as real, total as real);
  }

  lemma {:induction false} DivTimes(x: real, t: real)
    requires t != 0.0
    ensures x / t * t == x
  {}

  /** The step's cost is described as the slice's is, and amounts to what the step is due. */
  predicate Settled(steps: seq<ModelActivityStep>, steps': seq<ModelActivityStep>, slice: UsageSlice, fold: Names,
                    j: nat)
    requires |steps'| == |steps| && j < |steps|
  {
    && steps'[j].cost == slice.cost.(amount := steps'[j].cost.amount)
    && Due(steps, steps', fold, j, slice.cost.amount)
  }

  lemma {:induction false} TotalIsNamed(steps: seq<ModelActivityStep>, slice: UsageSlice, fold: Names)
    ensures WrapSum(MatchingTokens(steps, slice, fold))
         == NamedTokens(steps, fold, fold(SliceKey(slice)), |steps|) % 0x1_0000_0000_0000_0000
  {
    WrapSumWraps(MatchingTokens(steps, slice, fold));
    MatchingAreNamed(steps, slice, fold);
  }

  lemma {:induction false} PartSettles(steps: seq<ModelActivityStep>, paid: seq<ModelActivityStep>, slice: UsageSlice,
                                       fold: Names, total: nat, j: nat)
    requires |paid| == |steps| && j < |steps| && Matches(fold, steps[j], slice)
    requires PartDue(steps, paid, slice, fold, ShareOf(slice.cost.amount, total), 0.0, j)
    requires total == NamedTokens(steps, fold, fold(SliceKey(slice)), |steps|) % 0x1_0000_0000_0000_0000
    ensures Settled(steps, paid, slice, fold, j)
  {
    LastHasNoTail(steps, slice, fold, j);
    if total != 0 {
      ShareTimes(slice.cost.amount, steps[j].tokens.Total(), total);
    }
  }

  lemma {:induction false} SliceSettles(steps: seq<ModelActivityStep>, slice: UsageSlice, fold: Names, j: nat)
    requires j < |steps| && Matches(fold, steps[j], slice) && slice.cost.kind != Reported
    ensures Settled(steps, SpreadSlice(steps, slice, fold), slice, fold, j)
  {
    var total := WrapSum(MatchingTokens(steps, slice, fold));
    MatchedHasTokens(steps, slice, fold, j);
    TotalIsNamed(steps, slice, fold);
    PartOfStep(steps, slice, fold, ShareOf(slice.cost.amount, total), 0.0, j);
    PartSettles(steps, SpreadSlice(steps, slice, fold), slice, fold, total, j);
  }

  /* ---- All slices ---- */

  lemma {:induction false} NamedTokensSame(a: seq<ModelActivityStep>, b: seq<ModelActivityStep>, fold: Names,
                                           k: ModelKey, n: nat)
    requires SameShape(a, b) && n <= |a|
    ensures NamedTokens(a, fold, k, n) == NamedTokens(b, fold, k, n)
  {
    if n > 0 {
      NamedTokensSame(a, b, fold, k, n - 1);
      assert SameButCost(a[n - 1], b[n - 1]);
    }
  }

  lemma {:induction false} NamedCostSame(a: seq<ModelActivityStep>, b: seq<ModelActivityStep>, fold: Names, k: ModelKey,
                                         n: nat)
    requires SameShape(a, b) && n <= |a|
    requires forall m | 0 <= m < |a| && fold(StepKey(a[m])) == k :: b[m] == a[m]
    ensures NamedCost(a, fold, k, n) == NamedCost(b, fold, k, n)
  {
    if n > 0 {
      NamedCostSame(a, b, fold, k, n - 1);
      assert SameButCost(a[n - 1], b[n - 1]);
    }
  }

  lemma {:induction false} LastNamedSame(a: seq<ModelActivityStep>, b: seq<ModelActivityStep>, fold: Names, j: nat)
    requires SameShape(a, b) && j < |a|
    ensures a[j].tokens == b[j].tokens && StepKey(a[j]) == StepKey(b[j])
    ensures LastNamed(a, fold, j) <==> LastNamed(b, fold, j)
  {
    assert SameButCost(a[j], b[j]);
    forall m | j < m < |a|
      ensures StepKey(a[m]) == StepKey(b[m])
    {
      assert SameButCost(a[m], b[m]);
    }
  }

  /** What is due depends on the steps' names and tokens only. */
  lemma {:induction false} DueByShape(a: seq<ModelActivityStep>, b: seq<ModelActivityStep>,
                                      steps': seq<ModelActivityStep>, fold: Names, j: nat, amount: real)
    requires SameShape(a, b) && |steps'| == |a| && j < |a| && Due(b, steps', fold, j, amount)
    ensures Due(a, steps', fold, j, amount)
  {
    LastNamedSame(a, b, fold, j);
    NamedTokensSame(a, b, fold, fold(StepKey(a[j])), |a|);
  }

  /** Later slices of other names change nothing. */
  lemma {:induction false} StaysSettled(steps: seq<ModelActivityStep>, a: seq<ModelActivityStep>,
                                        b: seq<ModelActivityStep>, slice: UsageSlice, fold: Names, j: nat)
    requires SameShape(steps, a) && SameShape(a, b) && j < |steps|
    requires forall m | 0 <= m < |a| && fold(StepKey(a[m])) == fold(StepKey(steps[j])) :: b[m] == a[m]
    requires Settled(steps, a, slice, fold, j)
    ensures Settled(steps, b, slice, fold, j)
  {
    assert SameButCost(steps[j], a[j]) && StepKey(a[j]) == StepKey(steps[j]);
    NamedCostSame(a, b, fold, fold(StepKey(steps[j])), j);
  }

  lemma {:induction false} OtherSliceLeaves(steps: seq<ModelActivityStep>, slice: UsageSlice, fold: Names, m: nat)
    requires m < |steps| && (slice.cost.kind == Reported || !Matches(fold, steps[m], slice))
    ensures SpreadSlice(steps, slice, fold)[m] == steps[m]
  {
    if slice.cost.kind != Reported {
      PayAllLeaves(steps, slice, fold, SliceParts(steps, slice, fold), m);
    }
  }

  lemma {:induction false} LastPayerSettles(steps: seq<ModelActivityStep>, usage: seq<UsageSlice>, fold: Names, i: nat,
                                            j: nat)
    requires j < |steps| && i < |usage| && LastToPay(usage, i, steps[j], fold)
    ensures Settled(steps, SpreadAll(steps, usage, fold), usage[i], fold, j)
  {
    var front, last := usage[..|usage| - 1], usage[|usage| - 1];
    var before := SpreadAll(steps, front, fold);
    SpreadAllKeepsShape(steps, front, fold);
    assert SameButCost(steps[j], before[j]) && StepKey(before[j]) == StepKey(steps[j]);
    if i == |usage| - 1 {
      SliceSettles(before, last, fold, j);
      DueByShape(steps, before, SpreadSlice(before, last, fold), fold, j, last.cost.amount);
    } else {
      LastPayerSettles(steps, front, fold, i, j);
      SpreadKeepsShape(before, last, fold);
      forall m | 0 <= m < |before| && fold(StepKey(before[m])) == fold(StepKey(steps[j]))
        ensures SpreadSlice(before, last, fold)[m] == before[m]
      {
        OtherSliceLeaves(before, last, fold, m);
      }
      StaysSettled(steps, before, SpreadSlice(before, last, fold), usage[i], fold, j);
    }
  }

  lemma {:induction false} UnpaidStays(steps: seq<ModelActivityStep>, usage: seq<UsageSlice>, fold: Names, j: nat)
    requires j < |steps| && NobodyPays(usage, steps[j], fold)
    ensures SpreadAll(steps, usage, fold)[j] == steps[j]
  {
    forall slice | slice in usage && Matches(fold, steps[j], slice)
      ensures slice.cost.kind == Reported
    {
      var m :| 0 <= m < |usage| && usage[m] == slice;
    }
    SpreadAllLeaves(steps, usage, fold, j);
  }

  /* ---- The snapshot ---- */

  /** Where the step is found among the steps of all turns */
  function Place(turns: seq<TurnSnapshot>, t: nat, s: nat): nat
    requires t < |turns|
  {
    |AllSteps(turns[..t])| + s
  }

  lemma {:induction false} PlaceIs(turns: seq<TurnSnapshot>, t: nat, s: nat)
    requires t < |turns| && s < |turns[t].modelActivity|
    ensures Place(turns, t, s) < |AllSteps(turns)|
    ensures AllSteps(turns)[Place(turns, t, s)] == turns[t].modelActivity[s]
  {
    var front := turns[..|turns| - 1];
    if t < |front| {
      assert front[..t] == turns[..t];
      PlaceIs(front, t, s);
    }
  }

  lemma {:induction false} SamePlace(turns: seq<TurnSnapshot>, turns': seq<TurnSnapshot>, n: nat)
    requires SameTurns(turns, turns') && n <= |turns|
    ensures |AllSteps(turns[..n])| == |AllSteps(turns'[..n])|
  {
    if n > 0 {
      SamePlace(turns, turns', n - 1);
      assert turns[..n][..n - 1] == turns[..n - 1] && turns'[..n][..n - 1] == turns'[..n - 1];
      assert SameTurn(turns[n - 1], turns'[n - 1]);
    }
  }

  lemma {:induction false} PayersKept(usage: seq<UsageSlice>, prices: Prices, norm: Names, s: ModelActivityStep,
                                      fold: Names)
    ensures NobodyPays(PriceAll(usage, prices, norm), s, fold) <==> NobodyPays(usage, s, fold)
    ensures forall i | 0 <= i < |usage| ::
              LastToPay(PriceAll(usage, prices, norm), i, s, fold) <==> LastToPay(usage, i, s, fold)
  {
    var usage' := PriceAll(usage, prices, norm);
    forall i | 0 <= i < |usage|
      ensures SliceKey(usage'[i]) == SliceKey(usage[i])
      ensures usage'[i].cost.kind == Reported <==> usage[i].cost.kind == Reported
    {
      PricedSlice(usage[i], prices, norm);
    }
  }

  /** What becomes of a step */
  predicate Repaid(step: ModelActivityStep, step': ModelActivityStep, usage: seq<UsageSlice>, usage': seq<UsageSlice>,
                   fold: Names)
    requires |usage'| == |usage|
  {
    && step' == step.(cost := step'.cost)
    && (NobodyPays(usage, step, fold) ==> step' == step)
    && (forall i | 0 <= i < |usage| && LastToPay(usage, i, step, fold) ::
          step'.cost == usage'[i].cost.(amount := step'.cost.amount))
  }

  lemma {:induction false} StepRepriced(steps: seq<ModelActivityStep>, usage: seq<UsageSlice>, prices: Prices,
                                        norm: Names, fold: Names, i: nat, j: nat)
    requires j < |steps| && i < |usage| && LastToPay(usage, i, steps[j], fold)
    ensures var usage' := PriceAll(usage, prices, norm);
            Settled(steps, SpreadAll(steps, usage', fold), usage'[i], fold, j)
  {
    PayersKept(usage, prices, norm, steps[j], fold);
    LastPayerSettles(steps, PriceAll(usage, prices, norm), fold, i, j);
  }

  lemma {:induction false} StepRepaid(steps: seq<ModelActivityStep>, usage: seq<UsageSlice>, prices: Prices,
                                      norm: Names, fold: Names, j: nat)
    requires j < |steps|
    ensures var usage' := PriceAll(usage, prices, norm);
            Repaid(steps[j], SpreadAll(steps, usage', fold)[j], usage, usage', fold)
  {
    var usage' := PriceAll(usage, prices, norm);
    SpreadAllKeepsShape(steps, usage', fold);
    assert SameButCost(steps[j], SpreadAll(steps, usage', fold)[j]);
    PayersKept(usage, prices, norm, steps[j], fold);
    if NobodyPays(usage, steps[j], fold) {
      UnpaidStays(steps, usage', fold, j);
    }
    forall i | 0 <= i < |usage| && LastToPay(usage, i, steps[j], fold)
      ensures Settled(steps, SpreadAll(steps, usage', fold), usage'[i], fold, j)
    {
      StepRepriced(steps, usage, prices, norm, fold, i, j);
    }
  }

  lemma {:induction false} StepOfTurn(turns: seq<TurnSnapshot>, turns': seq<TurnSnapshot>, t: nat, s: nat)
    returns (j: nat)
    requires SameTurns(turns, turns') && t < |turns| && s < |turns[t].modelActivity|
    ensures s < |turns'[t].modelActivity|
    ensures j < |AllSteps(turns)| && AllSteps(turns)[j] == turns[t].modelActivity[s]
    ensures j < |AllSteps(turns')| && AllSteps(turns')[j] == turns'[t].modelActivity[s]
  {
    assert SameTurn(turns[t], turns'[t]);
    j := Place(turns, t, s);
    PlaceIs(turns, t, s);
    PlaceIs(turns', t, s);
    SamePlace(turns, turns', t);
  }

  /** `apply_server_prices`.  A slice that was not reported and has a price gets its cost from it: an
      estimate in the price's currency, naming its source and version.  Everything else about slices
      stays.  A step changes only in its cost, and only if such a slice goes by its name: its cost is
      then described as that slice's is, and amounts to its share. */
  method ApplyServerPrices(turns: seq<TurnSnapshot>, usage: seq<UsageSlice>, prices: Prices, norm: Names, fold: Names)
    returns (turns': seq<TurnSnapshot>, usage': seq<UsageSlice>)
    ensures usage' == PriceAll(usage, prices, norm)
    ensures turns' == Repriced(turns, usage, prices, norm, fold)
    ensures |usage'| == |usage|
    ensures forall i | 0 <= i < |usage| :: usage'[i] == usage[i].(cost := usage'[i].cost)
    ensures forall i | 0 <= i < |usage| ::
              var price, cost := prices(norm(ModelKey(usage[i].providerId, usage[i].modelId))), usage'[i].cost;
              if usage[i].cost.kind == Reported || price == None then cost == usage[i].cost
              else
                var p, tokens := price.value, usage[i].tokens;
                && cost.kind == Estimated && cost.currency == p.currency
                && cost.priceSource == Some(p.authority) && cost.pricebookVersion == Some(p.catalogVersion)
                && cost.amount
                   == (tokens.input as real * p.input + tokens.output as real * p.output
                       + tokens.cacheRead as real * p.cacheRead + tokens.cacheWrite as real * p.cacheWrite
                       + tokens.reasoning as real * p.reasoning) / 1000000.0
    ensures |turns'| == |turns|
    ensures forall t | 0 <= t < |turns| ::
              && turns'[t] == turns[t].(modelActivity := turns'[t].modelActivity)
              && |turns'[t].modelActivity| == |turns[t].modelActivity|
    ensures forall t, s | 0 <= t < |turns| && 0 <= s < |turns[t].modelActivity| ::
              Repaid(turns[t].modelActivity[s], turns'[t].modelActivity[s], usage, usage', fold)
    ensures |AllSteps(turns')| == |AllSteps(turns)|
    ensures forall i, j | 0 <= i < |usage| && 0 <= j < |AllSteps(turns)|
                          && LastToPay(usage, i, AllSteps(turns)[j], fold) ::
              Due(AllSteps(turns), AllSteps(turns'), fold, j, usage'[i].cost.amount)
  {
    usage' := PriceSlices(usage, prices, norm);
    var steps := SpreadUsage(AllSteps(turns), usage', fold);
    turns' := WithActivity(turns, steps);
    RepricedTurns(turns, usage, prices, norm, fold);
    TurnsRepriced(turns, turns', usage, usage', prices, norm, fold);
  }

  lemma {:induction false} TurnsRepriced(turns: seq<TurnSnapshot>, turns': seq<TurnSnapshot>, usage: seq<UsageSlice>,
                                         usage': seq<UsageSlice>, prices: Prices, norm: Names, fold: Names)
    requires turns' == Repriced(turns, usage, prices, norm, fold) && usage' == PriceAll(usage, prices, norm)
    ensures |turns'| == |turns|
    ensures forall t | 0 <= t < |turns| ::
              && turns'[t] == turns[t].(modelActivity := turns'[t].modelActivity)
              && |turns'[t].modelActivity| == |turns[t].modelActivity|
    ensures forall t, s | 0 <= t < |turns| && 0 <= s < |turns[t].modelActivity| ::
              Repaid(turns[t].modelActivity[s], turns'[t].modelActivity[s], usage, usage', fold)
    ensures |AllSteps(turns')| == |AllSteps(turns)|
    ensures forall i, j | 0 <= i < |usage| && 0 <= j < |AllSteps(turns)|
                          && LastToPay(usage, i, AllSteps(turns)[j], fold) ::
              Due(AllSteps(turns), AllSteps(turns'), fold, j, usage'[i].cost.amount)
  {
    RepricedTurns(turns, usage, prices, norm, fold);
    forall t | 0 <= t < |turns|
      ensures turns'[t] == turns[t].(modelActivity := turns'[t].modelActivity)
      ensures |turns'[t].modelActivity| == |turns[t].modelActivity|
    {
      assert SameTurn(turns[t], turns'[t]);
    }
    forall t, s | 0 <= t < |turns| && 0 <= s < |turns[t].modelActivity|
      ensures Repaid(turns[t].modelActivity[s], turns'[t].modelActivity[s], usage, usage', fold)
    {
      var j := StepOfTurn(turns, turns', t, s);
      StepRepaid(AllSteps(turns), usage, prices, norm, fold, j);
    }
    forall i, j | 0 <= i < |usage| && 0 <= j < |AllSteps(turns)| && LastToPay(usage, i, AllSteps(turns)[j], fold)
      ensures Due(AllSteps(turns), AllSteps(turns'), fold, j, usage'[i].cost.amount)
    {
      StepRepriced(AllSteps(turns), usage, prices, norm, fold, i, j);
    }
  }
}
