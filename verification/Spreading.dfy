/** `apply_server_prices`: new costs for the slices, spread over the steps of the turns.  A slice's price
    is looked up under its normalized key `norm`; its steps are found under the finer key `fold` (letter
    case is ignored, surrounding blanks are not).  This module holds the program's loops, the functions
    they compute, and what becomes of a single slice's cost; `Repricing` is about whole snapshots. */
module Spreading {
  import opened Ledgers
  import opened Sequences
  import opened Text
  import opened Usage
  import opened Sessions
  import opened Reconciliation

  /* ---- Pricing the slices ---- */

  datatype Price = Price(
    currency: string,
    input: real,
    output: real,
    cacheRead: real,
    cacheWrite: real,
    reasoning: real,
    authority: string,
    catalogVersion: string)
  {
    predicate NonNegative() {
      0.0 <= input && 0.0 <= output && 0.0 <= cacheRead && 0.0 <= cacheWrite && 0.0 <= reasoning
    }
  }

  function LinearCost(t: TokenBreakdown, p: Price): real {
    (t.input as real * p.input + t.output as real * p.output + t.cacheRead as real * p.cacheRead
     + t.cacheWrite as real * p.cacheWrite + t.reasoning as real * p.reasoning) / 1000000.0
  }

  type Names = ModelKey -> ModelKey
  type Prices = ModelKey -> Option<Price>

  function PriceSlice(slice: UsageSlice, prices: Prices, norm: Names): UsageSlice {
    if slice.cost.kind == Reported then slice
    else
      match prices(norm(SliceKey(slice)))
      case None => slice
      case Some(p) =>
        slice.(cost := Cost(LinearCost(slice.tokens, p), p.currency, Estimated, Some(p.catalogVersion),
                            Some(p.authority)))
  }

  function PriceAll(usage: seq<UsageSlice>, prices: Prices, norm: Names): (r: seq<UsageSlice>)
    ensures |r| == |usage|
    ensures forall i | 0 <= i < |usage| :: r[i] == PriceSlice(usage[i], prices, norm)
  {
    seq(|usage|, i requires 0 <= i < |usage| => PriceSlice(usage[i], prices, norm))
  }

  /* ---- Spreading a slice's cost over its steps ---- */

  predicate Matches(fold: Names, s: ModelActivityStep, slice: UsageSlice) {
    fold(StepKey(s)) == fold(SliceKey(slice))
  }

  /** The token totals of the steps that belong to the slice */
  function MatchingTokens(steps: seq<ModelActivityStep>, slice: UsageSlice, fold: Names): seq<u64> {
    if steps == [] then []
    else
      var front, s := MatchingTokens(steps[..|steps| - 1], slice, fold), steps[|steps| - 1];
      if Matches(fold, s, slice) then front + [s.tokens.Total()] else front
  }

  /** `.sum::<u64>()` */
  function WrapSum(tokens: seq<u64>): u64 {
    if tokens == [] then 0 else WrapAdd(WrapSum(tokens[..|tokens| - 1]), tokens[|tokens| - 1])
  }

  function Share(amount: real, tokens: nat, total: nat): real {
    if total == 0 then 0.0 else amount * tokens as real / total as real
  }

  function MaxZero(x: real): real {
    if x < 0.0 then 0.0 else x
  }

  /** Each step's share, by its tokens */
  function ShareOf(amount: real, total: nat): nat -> real {
    (tokens: nat) => Share(amount, tokens, total)
  }

  /** The amounts for matching steps with these tokens when `given` has been handed out: every
      step gets its share, the last one what is left. */
  function Parts(tokens: seq<u64>, amount: real, share: nat -> real, given: real): (r: seq<real>)
    ensures |r| == |tokens|
  {
    if tokens == [] then []
    else if |tokens| == 1 then [MaxZero(amount - given)]
    else [share(tokens[0])] + Parts(tokens[1..], amount, share, given + share(tokens[0]))
  }

  function SliceParts(steps: seq<ModelActivityStep>, slice: UsageSlice, fold: Names): (r: seq<real>)
    ensures |r| == |MatchingTokens(steps, slice, fold)|
  {
    var tokens := MatchingTokens(steps, slice, fold);
    Parts(tokens, slice.cost.amount, ShareOf(slice.cost.amount, WrapSum(tokens)), 0.0)
  }

  function Pay(s: ModelActivityStep, slice: UsageSlice, amount: real): ModelActivityStep {
    s.(cost := slice.cost.(amount := amount))
  }

  /** Pays the matching steps one after the other. */
  function PayAll(steps: seq<ModelActivityStep>, slice: UsageSlice, fold: Names,
                  parts: seq<real>): (r: seq<ModelActivityStep>)
    ensures |r| == |steps|
  {
    if steps == [] then []
    else if Matches(fold, steps[0], slice) && parts != [] then
      [Pay(steps[0], slice, parts[0])] + PayAll(steps[1..], slice, fold, parts[1..])
    else
      [steps[0]] + PayAll(steps[1..], slice, fold, parts)
  }

  function SpreadSlice(steps: seq<ModelActivityStep>, slice: UsageSlice, fold: Names): (r: seq<ModelActivityStep>)
    ensures |r| == |steps|
  {
    if MatchingTokens(steps, slice, fold) == [] || slice.cost.kind == Reported then steps
    else PayAll(steps, slice, fold, SliceParts(steps, slice, fold))
  }

  function SpreadAll(steps: seq<ModelActivityStep>, usage: seq<UsageSlice>, fold: Names): (r: seq<ModelActivityStep>)
    ensures |r| == |steps|
  {
    if usage == [] then steps
    else SpreadSlice(SpreadAll(steps, usage[..|usage| - 1], fold), usage[|usage| - 1], fold)
  }

  /** Puts the steps back into their turns. */
  function WithActivity(turns: seq<TurnSnapshot>, steps: seq<ModelActivityStep>): seq<TurnSnapshot>
    requires |steps| == |AllSteps(turns)|
  {
    if turns == [] then []
    else
      var turn := turns[|turns| - 1];
      var cut := |steps| - |turn.modelActivity|;
      WithActivity(turns[..|turns| - 1], steps[..cut]) + [turn.(modelActivity := steps[cut..])]
  }

  /** The turns after repricing */
  function Repriced(turns: seq<TurnSnapshot>, usage: seq<UsageSlice>, prices: Prices, norm: Names,
                    fold: Names): seq<TurnSnapshot> {
    WithActivity(turns, SpreadAll(AllSteps(turns), PriceAll(usage, prices, norm), fold))
  }

  /* ---- The loops ---- */

  /** The filter that collects `matching`, and the sum over it */
  method CollectMatching(steps: seq<ModelActivityStep>, slice: UsageSlice, fold: Names)
    returns (tokens: seq<u64>, total: u64)
    ensures tokens == MatchingTokens(steps, slice, fold)
    ensures total == WrapSum(tokens)
  {
    tokens, total := [], 0;
    for i := 0 to |steps|
      invariant tokens == MatchingTokens(steps[..i], slice, fold)
      invariant total == WrapSum(tokens)
    {
      assert steps[..i + 1][..i] == steps[..i];
      if Matches(fold, steps[i], slice) {
        assert (tokens + [steps[i].tokens.Total()])[..|tokens|] == tokens;
        total := WrapAdd(total, steps[i].tokens.Total());
        tokens := tokens + [steps[i].tokens.Total()];
      }
    }
    assert steps[..|steps|] == steps;
  }

  /** The loop that fixes the amounts */
  method ComputeParts(tokens: seq<u64>, amount: real, total: u64) returns (parts: seq<real>)
    ensures parts == Parts(tokens, amount, ShareOf(amount, total), 0.0)
  {
    parts := [];
    var given := 0.0;
    ghost var share := ShareOf(amount, total);
    assert tokens[0..] == tokens;
    for index := 0 to |tokens|
      invariant parts + Parts(tokens[index..], amount, share, given) == Parts(tokens, amount, share, 0.0)
    {
      var rest := tokens[index..];
      assert rest[1..] == tokens[index + 1..];
      var part := if index == |tokens| - 1 then MaxZero(amount - given) else Share(amount, tokens[index], total);
      parts := parts + [part];
      given := given + part;
    }
  }

  lemma {:induction false} PayNext(done: seq<ModelActivityStep>, steps: seq<ModelActivityStep>, i: nat,
                                   slice: UsageSlice, fold: Names, left: seq<real>)
    requires i < |steps|
    ensures var pays := Matches(fold, steps[i], slice) && left != [];
            done + PayAll(steps[i..], slice, fold, left)
            == (done + [if pays then Pay(steps[i], slice, left[0]) else steps[i]])
               + PayAll(steps[i + 1..], slice, fold, if pays then left[1..] else left)
  {
    assert steps[i..][1..] == steps[i + 1..];
  }

  method PayMatching(steps: seq<ModelActivityStep>, slice: UsageSlice, fold: Names, parts: seq<real>)
    returns (r: seq<ModelActivityStep>)
    ensures r == PayAll(steps, slice, fold, parts)
  {
    var left := parts;
    r := [];
    assert steps[0..] == steps;
    for i := 0 to |steps|
      invariant r + PayAll(steps[i..], slice, fold, left) == PayAll(steps, slice, fold, parts)
    {
      PayNext(r, steps, i, slice, fold, left);
      if Matches(fold, steps[i], slice) && |left| > 0 {
        r := r + [Pay(steps[i], slice, left[0])];
        left := left[1..];
      } else {
        r := r + [steps[i]];
      }
    }
  }

  method SpreadOver(steps: seq<ModelActivityStep>, slice: UsageSlice, fold: Names) returns (r: seq<ModelActivityStep>)
    ensures r == SpreadSlice(steps, slice, fold)
  {
    var tokens, total := CollectMatching(steps, slice, fold);
    if |tokens| == 0 || slice.cost.kind == Reported {
      return steps;
    }
    var parts := ComputeParts(tokens, slice.cost.amount, total);
    r := PayMatching(steps, slice, fold, parts);
  }

  method PriceSlices(usage: seq<UsageSlice>, prices: Prices, norm: Names) returns (usage': seq<UsageSlice>)
    ensures usage' == PriceAll(usage, prices, norm)
  {
    usage' := [];
    for i := 0 to |usage|
      invariant |usage'| == i
      invariant forall j | 0 <= j < i :: usage'[j] == PriceSlice(usage[j], prices, norm)
    {
      usage' := usage' + [PriceSlice(usage[i], prices, norm)];
    }
  }

  method SpreadUsage(steps: seq<ModelActivityStep>, usage: seq<UsageSlice>, fold: Names)
    returns (r: seq<ModelActivityStep>)
    ensures r == SpreadAll(steps, usage, fold)
  {
    r := steps;
    for i := 0 to |usage|
      invariant r == SpreadAll(steps, usage[..i], fold)
    {
      assert usage[..i + 1][..i] == usage[..i];
      r := SpreadOver(r, usage[i], fold);
    }
    assert usage[..|usage|] == usage;
  }

  /* ---- What repricing leaves alone ---- */

  predicate SameButCost(s: ModelActivityStep, s': ModelActivityStep) {
    s' == s.(cost := s'.cost)
  }

  predicate SameShape(steps: seq<ModelActivityStep>, steps': seq<ModelActivityStep>) {
    |steps| == |steps'| && forall i | 0 <= i < |steps| :: SameButCost(steps[i], steps'[i])
  }

  lemma {:induction false} PayAllKeepsShape(steps: seq<ModelActivityStep>, slice: UsageSlice, fold: Names,
                                            parts: seq<real>)
    ensures SameShape(steps, PayAll(steps, slice, fold, parts))
  {
    if steps != [] {
      PayAllKeepsShape(steps[1..], slice, fold,
                       if Matches(fold, steps[0], slice) && parts != [] then parts[1..] else parts);
    }
  }

  lemma {:induction false} SpreadKeepsShape(steps: seq<ModelActivityStep>, slice: UsageSlice, fold: Names)
    ensures SameShape(steps, SpreadSlice(steps, slice, fold))
  {
    PayAllKeepsShape(steps, slice, fold, SliceParts(steps, slice, fold));
  }

  /** Repricing changes nothing in the turns but costs. */
  lemma {:induction false} SpreadAllKeepsShape(steps: seq<ModelActivityStep>, usage: seq<UsageSlice>, fold: Names)
    ensures SameShape(steps, SpreadAll(steps, usage, fold))
  {
    if usage != [] {
      var before, slice := SpreadAll(steps, usage[..|usage| - 1], fold), usage[|usage| - 1];
      SpreadAllKeepsShape(steps, usage[..|usage| - 1], fold);
      SpreadKeepsShape(before, slice, fold);
      forall i | 0 <= i < |steps|
        ensures SameButCost(steps[i], SpreadSlice(before, slice, fold)[i])
      {
        assert SameButCost(steps[i], before[i]);
      }
    }
  }

  /* ---- Shares ---- */

  lemma {:induction false} ShareAdds(amount: real, p: nat, q: nat, total: nat)
    ensures Share(amount, p, total) + Share(amount, q, total) == Share(amount, p + q, total)
  {
    if total != 0 {
      var t, x, y := total as real, p as real, q as real;
      assert (p + q) as real == x + y;
      assert amount * (x + y) == amount * x + amount * y;
      DivAdds(amount * x, amount * y, t);
    }
  }

  lemma {:induction false} DivAdds(x: real, y: real, t: real)
    requires t > 0.0
    ensures x / t + y / t == (x + y) / t
  {}

  lemma {:induction false} DivBound(x: real, y: real, t: real)
    requires t > 0.0 && 0.0 <= x <= y
    ensures 0.0 <= x / t <= y / t
  {}

  lemma {:induction false} ShareBound(amount: real, p: nat, total: nat)
    requires 0.0 <= amount && p <= total
    ensures 0.0 <= Share(amount, p, total) <= amount
  {
    if total != 0 {
      var t, x := total as real, p as real;
      MulBound(amount, x, t);
      DivBound(amount * x, amount * t, t);
      assert amount * t / t == amount;
    }
  }

  lemma {:induction false} MulBound(a: real, x: real, t: real)
    requires 0.0 <= a && 0.0 <= x <= t
    ensures 0.0 <= a * x <= a * t
  {}

  /* ---- Each slice's cost is exactly spent ---- */

  /** What the steps say was spent under the slice's name */
  function SpentOn(steps: seq<ModelActivityStep>, slice: UsageSlice, fold: Names): Ledger {
    Booked(steps, fold, fold(SliceKey(slice)))
  }

  predicate CostsNonNegative(steps: seq<ModelActivityStep>) {
    forall i | 0 <= i < |steps| :: 0.0 <= steps[i].cost.amount
  }

  lemma {:induction false} BookedCons(s: ModelActivityStep, rest: seq<ModelActivityStep>, norm: Names, k: ModelKey)
    ensures Booked([s] + rest, norm, k)
         == if norm(StepKey(s)) == k then Plus(StepEntry()(s), Booked(rest, norm, k)) else Booked(rest, norm, k)
  {
    var only := Only(StepEntry(), NormKey(norm), k);
    assert only(s) == if norm(StepKey(s)) == k then StepEntry()(s) else Zero();
    assert ([s] + rest)[1..] == rest;
    PlusZero(Booked(rest, norm, k));
  }

  lemma {:induction false} SpentOnCons(steps: seq<ModelActivityStep>, slice: UsageSlice, fold: Names)
    requires steps != []
    ensures SpentOn(steps, slice, fold)
         == if Matches(fold, steps[0], slice) then Plus(StepEntry()(steps[0]), SpentOn(steps[1..], slice, fold))
            else SpentOn(steps[1..], slice, fold)
  {
    assert steps == [steps[0]] + steps[1..];
    BookedCons(steps[0], steps[1..], fold, fold(SliceKey(slice)));
  }

  lemma {:induction false} GrandPlus(a: Ledger, b: Ledger)
    ensures Plus(a, b).Grand() == a.Grand() + b.Grand()
  {}

  lemma {:induction false} StepTotalExact(s: ModelActivityStep)
    ensures StepEntry()(s).Grand() <= U64_MAX ==> s.tokens.Total() == StepEntry()(s).Grand()
  {
    TotalCaps(s.tokens, s.cost.amount);
  }

  function SumOf(parts: seq<real>): real {
    if parts == [] then 0.0 else parts[0] + SumOf(parts[1..])
  }

  lemma {:induction false} WrapSumExact(tokens: seq<u64>)
    requires Sum(tokens) <= U64_MAX
    ensures WrapSum(tokens) == Sum(tokens)
  {
    if tokens != [] {
      var front, t := tokens[..|tokens| - 1], tokens[|tokens| - 1];
      assert tokens == front + [t];
      SumSnoc(front, t);
      WrapSumExact(front);
    }
  }

  predicate NonNegative(parts: seq<real>) {
    forall i | 0 <= i < |parts| :: 0.0 <= parts[i]
  }

  /** The last part is what the others leave: nothing was clipped. */
  predicate Unclipped(parts: seq<real>, amount: real) {
    parts != [] && parts[|parts| - 1] == amount - SumOf(parts[..|parts| - 1])
  }

  ghost predicate Additive(share: nat -> real) {
    forall p: nat, q: nat, r: nat | p + q == r :: share(p) + share(q) == share(r)
  }

  /** Proportional shares: they add up, and none exceeds the whole. */
  ghost predicate Fair(share: nat -> real, amount: real, total: nat) {
    && Additive(share)
    && (forall p: nat | p <= total :: 0.0 <= share(p) <= amount)
  }

  lemma {:induction false} ShareIsAdditive(amount: real, total: nat)
    ensures Additive(ShareOf(amount, total))
    ensures ShareOf(amount, total)(0) == 0.0
  {
    var share := ShareOf(amount, total);
    forall p: nat, q: nat, r: nat | p + q == r
      ensures share(p) + share(q) == share(r)
    {
      ShareAdds(amount, p, q, total);
    }
    assert share(0) + share(0) == share(0);
  }

  lemma {:induction false} ShareIsFair(amount: real, total: nat)
    requires 0.0 <= amount
    ensures Fair(ShareOf(amount, total), amount, total)
  {
    var share := ShareOf(amount, total);
    ShareIsAdditive(amount, total);
    forall p: nat | p <= total
      ensures 0.0 <= share(p) <= amount
    {
      ShareBound(amount, p, total);
    }
  }

  lemma {:induction false} FairShares(share: nat -> real, amount: real, total: nat, p: nat, q: nat)
    requires Fair(share, amount, total) && p + q <= total
    ensures share(p) + share(q) == share(p + q)
    ensures 0.0 <= share(p) <= amount && 0.0 <= share(q)
  {}

  /** The parts spend all that is left, and nothing was clipped. */
  predicate SpendsAll(parts: seq<real>, left: real) {
    SumOf(parts) == left && NonNegative(parts) && Unclipped(parts, left)
  }

  lemma {:induction false} LastPart(tokens: seq<u64>, amount: real, share: nat -> real, given: real)
    requires |tokens| == 1 && 0.0 <= amount - given
    ensures SpendsAll(Parts(tokens, amount, share, given), amount - given)
  {
    assert Parts(tokens, amount, share, given)[..0] == [];
  }

  lemma {:induction false} PartsNext(tokens: seq<u64>, amount: real, share: nat -> real, given: real, next: real)
    requires |tokens| > 1 && 0.0 <= share(tokens[0]) && given + share(tokens[0]) == next
    requires SpendsAll(Parts(tokens[1..], amount, share, next), amount - next)
    ensures SpendsAll(Parts(tokens, amount, share, given), amount - given)
  {
    PrependPart(share(tokens[0]), Parts(tokens[1..], amount, share, next), amount - given);
  }

  /** The shares given out and the remainder kept for the last step add up to the whole cost;
      the remainder is never negative, so `max(0.0)` never clips. */
  lemma {:induction false} PartsAddUp(tokens: seq<u64>, amount: real, share: nat -> real, total: nat, prior: nat)
    requires Fair(share, amount, total) && prior + Sum(tokens) == total && tokens != []
    ensures SpendsAll(Parts(tokens, amount, share, share(prior)), amount - share(prior))
  {
    FairShares(share, amount, total, prior, tokens[0]);
    if |tokens| == 1 {
      LastPart(tokens, amount, share, share(prior));
    } else {
      PartsAddUp(tokens[1..], amount, share, total, prior + tokens[0]);
      PartsNext(tokens, amount, share, share(prior), share(prior + tokens[0]));
    }
  }

  lemma {:induction false} PrependPart(part: real, tail: seq<real>, left: real)
    requires 0.0 <= part && NonNegative(tail) && Unclipped(tail, left - part) && SumOf(tail) == left - part
    ensures SumOf([part] + tail) == left
    ensures NonNegative([part] + tail)
    ensures Unclipped([part] + tail, left)
  {
    var parts := [part] + tail;
    assert parts[1..] == tail;
    assert parts[..|parts| - 1] == [part] + tail[..|tail| - 1];
    assert ([part] + tail[..|tail| - 1])[1..] == tail[..|tail| - 1];
  }

  lemma {:induction false} SlicePartsAddUp(steps: seq<ModelActivityStep>, slice: UsageSlice, fold: Names)
    requires 0.0 <= slice.cost.amount && SpentOn(steps, slice, fold).Grand() <= U64_MAX
    requires MatchingTokens(steps, slice, fold) != []
    ensures SumOf(SliceParts(steps, slice, fold)) == slice.cost.amount
    ensures NonNegative(SliceParts(steps, slice, fold))
    ensures Unclipped(SliceParts(steps, slice, fold), slice.cost.amount)
  {
    var tokens := MatchingTokens(steps, slice, fold);
    MatchingTokensExact(steps, slice, fold);
    WrapSumExact(tokens);
    ShareIsFair(slice.cost.amount, WrapSum(tokens));
    ShareIsAdditive(slice.cost.amount, WrapSum(tokens));
    PartsAddUp(tokens, slice.cost.amount, ShareOf(slice.cost.amount, WrapSum(tokens)), WrapSum(tokens), 0);
  }

  function Shares(tokens: seq<u64>, share: nat -> real): real {
    if tokens == [] then 0.0 else share(tokens[0]) + Shares(tokens[1..], share)
  }

  lemma {:induction false} SharesAdd(tokens: seq<u64>, share: nat -> real)
    requires Additive(share)
    ensures Shares(tokens, share) == share(Sum(tokens))
  {
    if tokens == [] {
      assert share(0) + share(0) == share(0);
    } else {
      SharesAdd(tokens[1..], share);
      assert share(tokens[0]) + share(Sum(tokens[1..])) == share(Sum(tokens));
    }
  }

  /** Whatever the total is: everybody but the last gets a share, and the last what is left, if
      anything is left. */
  lemma {:induction false} PartsSum(tokens: seq<u64>, amount: real, share: nat -> real, given: real)
    requires tokens != []
    ensures var front := Shares(tokens[..|tokens| - 1], share);
            SumOf(Parts(tokens, amount, share, given)) == front + MaxZero(amount - given - front)
  {
    if |tokens| == 1 {
      assert tokens[..0] == [];
    } else {
      var part, rest := share(tokens[0]), tokens[1..];
      PartsSum(rest, amount, share, given + part);
      assert tokens[..|tokens| - 1][1..] == rest[..|rest| - 1];
      assert ([part] + Parts(rest, amount, share, given + part))[1..] == Parts(rest, amount, share, given + part);
    }
  }

  lemma {:induction false} ShareFits(amount: real, p: nat, total: nat)
    requires 0.0 <= amount
    ensures Share(amount, p, total) <= amount <==> amount == 0.0 || total == 0 || p <= total
  {
    if p <= total {
      ShareBound(amount, p, total);
    } else if amount != 0.0 && total != 0 {
      ShareBound(amount, total, total);
      ShareBound(amount, p - total, p);
      ShareAdds(amount, total, p - total, total);
      assert Share(amount, total, total) == amount;
      SharePositive(amount, p - total, total);
    }
  }

  lemma {:induction false} SharePositive(amount: real, p: nat, total: nat)
    requires 0.0 < amount && 0 < p && 0 < total
    ensures 0.0 < Share(amount, p, total)
  {
    var x, t := p as real, total as real;
    assert 0.0 < amount * x;
    DivPositive(amount * x, t);
  }

  lemma {:induction false} DivPositive(x: real, t: real)
    requires 0.0 < x && 0.0 < t
    ensures 0.0 < x / t
  {}

  /** The code adds the tokens of the matching steps with a `sum` that wraps around.  A slice's
      cost is spent exactly if and only if nobody is due a share, or the tokens of all steps but
      the last do not exceed that sum - as when it did not wrap. */
  lemma {:induction false} SlicePartsExactly(steps: seq<ModelActivityStep>, slice: UsageSlice, fold: Names)
    requires 0.0 <= slice.cost.amount && MatchingTokens(steps, slice, fold) != []
    ensures var tokens := MatchingTokens(steps, slice, fold);
            SumOf(SliceParts(steps, slice, fold)) == slice.cost.amount
            <==> || slice.cost.amount == 0.0 || WrapSum(tokens) == 0
                 || Sum(tokens[..|tokens| - 1]) <= WrapSum(tokens)
  {
    var tokens, amount := MatchingTokens(steps, slice, fold), slice.cost.amount;
    var total, front := WrapSum(tokens), Sum(tokens[..|tokens| - 1]);
    ShareIsAdditive(amount, total);
    PartsSum(tokens, amount, ShareOf(amount, total), 0.0);
    SharesAdd(tokens[..|tokens| - 1], ShareOf(amount, total));
    ShareFits(amount, front, total);
  }

  lemma {:induction false} MatchingTokensCons(s: ModelActivityStep, rest: seq<ModelActivityStep>, slice: UsageSlice,
                                              fold: Names)
    ensures MatchingTokens([s] + rest, slice, fold)
         == (if Matches(fold, s, slice) then [s.tokens.Total()] else []) + MatchingTokens(rest, slice, fold)
  {
    if rest == [] {
      assert [s] + rest == [s];
      assert [s][..0] == [];
    } else {
      var n := |rest| - 1;
      assert ([s] + rest)[..n + 1] == [s] + rest[..n];
      MatchingTokensCons(s, rest[..n], slice, fold);
    }
  }

  lemma {:induction false} MatchingTokensExact(steps: seq<ModelActivityStep>, slice: UsageSlice, fold: Names)
    requires SpentOn(steps, slice, fold).Grand() <= U64_MAX
    ensures Sum(MatchingTokens(steps, slice, fold)) == SpentOn(steps, slice, fold).Grand()
  {
    if steps != [] {
      var s, rest := steps[0], steps[1..];
      var tail := MatchingTokens(rest, slice, fold);
      assert steps == [s] + rest;
      SpentOnCons(steps, slice, fold);
      MatchingTokensCons(s, rest, slice, fold);
      GrandPlus(StepEntry()(s), SpentOn(rest, slice, fold));
      StepTotalExact(s);
      MatchingTokensExact(rest, slice, fold);
      assert ([s.tokens.Total()] + tail)[1..] == tail;
      assert [] + tail == tail;
    }
  }

  lemma {:induction false} PayAllSpends(steps: seq<ModelActivityStep>, slice: UsageSlice, fold: Names, parts: seq<real>)
    requires |parts| == |MatchingTokens(steps, slice, fold)|
    ensures SpentOn(PayAll(steps, slice, fold, parts), slice, fold).cost == SumOf(parts)
  {
    if steps != [] {
      var s, rest, k := steps[0], steps[1..], fold(SliceKey(slice));
      assert steps == [s] + rest;
      MatchingTokensCons(s, rest, slice, fold);
      if Matches(fold, s, slice) {
        PayAllSpends(rest, slice, fold, parts[1..]);
        BookedCons(Pay(s, slice, parts[0]), PayAll(rest, slice, fold, parts[1..]), fold, k);
      } else {
        PayAllSpends(rest, slice, fold, parts);
        BookedCons(s, PayAll(rest, slice, fold, parts), fold, k);
      }
    }
  }

  lemma {:induction false} PayAllNonNegative(steps: seq<ModelActivityStep>, slice: UsageSlice, fold: Names,
                                             parts: seq<real>)
    requires NonNegative(parts) && CostsNonNegative(steps)
    ensures CostsNonNegative(PayAll(steps, slice, fold, parts))
  {
    if steps != [] {
      var pays := Matches(fold, steps[0], slice) && parts != [];
      PayAllNonNegative(steps[1..], slice, fold, if pays then parts[1..] else parts);
    }
  }

  /** What is spent on the slice's steps once its turn has come */
  function Paid(steps: seq<ModelActivityStep>, slice: UsageSlice, fold: Names): real {
    if slice.cost.kind == Reported || MatchingTokens(steps, slice, fold) == [] then SpentOn(steps, slice, fold).cost
    else SumOf(SliceParts(steps, slice, fold))
  }

  lemma {:induction false} SpreadSliceSpends(steps: seq<ModelActivityStep>, slice: UsageSlice, fold: Names)
    ensures SpentOn(SpreadSlice(steps, slice, fold), slice, fold).cost == Paid(steps, slice, fold)
  {
    if slice.cost.kind != Reported && MatchingTokens(steps, slice, fold) != [] {
      PayAllSpends(steps, slice, fold, SliceParts(steps, slice, fold));
    }
  }

  lemma {:induction false} ShareNonNegative(amount: real, p: nat, total: nat)
    requires 0.0 <= amount
    ensures 0.0 <= Share(amount, p, total)
  {
    if total != 0 {
      MulBound(amount, p as real, p as real);
      DivBound(amount * p as real, amount * p as real, total as real);
    }
  }

  lemma {:induction false} PartsNonNegative(tokens: seq<u64>, amount: real, share: nat -> real, given: real)
    requires forall p: nat :: 0.0 <= share(p)
    ensures NonNegative(Parts(tokens, amount, share, given))
  {
    if |tokens| > 1 {
      PartsNonNegative(tokens[1..], amount, share, given + share(tokens[0]));
    }
  }

  lemma {:induction false} SlicePartsNonNegative(steps: seq<ModelActivityStep>, slice: UsageSlice, fold: Names)
    requires 0.0 <= slice.cost.amount
    ensures NonNegative(SliceParts(steps, slice, fold))
  {
    var tokens, amount := MatchingTokens(steps, slice, fold), slice.cost.amount;
    forall p: nat
      ensures 0.0 <= ShareOf(amount, WrapSum(tokens))(p)
    {
      ShareNonNegative(amount, p, WrapSum(tokens));
    }
    PartsNonNegative(tokens, amount, ShareOf(amount, WrapSum(tokens)), 0.0);
  }

  /** Paying one slice does not touch what was spent on another. */
  lemma {:induction false} PayAllElsewhere(steps: seq<ModelActivityStep>, slice: UsageSlice, other: UsageSlice,
                                           fold: Names, parts: seq<real>)
    requires fold(SliceKey(slice)) != fold(SliceKey(other))
    ensures SpentOn(PayAll(steps, slice, fold, parts), other, fold) == SpentOn(steps, other, fold)
  {
    if steps != [] {
      var s, rest, k := steps[0], steps[1..], fold(SliceKey(other));
      SpentOnCons(steps, other, fold);
      if Matches(fold, s, slice) && parts != [] {
        PayAllElsewhere(rest, slice, other, fold, parts[1..]);
        BookedCons(Pay(s, slice, parts[0]), PayAll(rest, slice, fold, parts[1..]), fold, k);
      } else {
        PayAllElsewhere(rest, slice, other, fold, parts);
        BookedCons(s, PayAll(rest, slice, fold, parts), fold, k);
      }
    }
  }

  lemma {:induction false} SpreadSliceElsewhere(steps: seq<ModelActivityStep>, slice: UsageSlice, other: UsageSlice,
                                                fold: Names)
    requires fold(SliceKey(slice)) != fold(SliceKey(other))
    ensures SpentOn(SpreadSlice(steps, slice, fold), other, fold) == SpentOn(steps, other, fold)
  {
    PayAllElsewhere(steps, slice, other, fold, SliceParts(steps, slice, fold));
  }

  function TokensOnly(a: Ledger): Ledger {
    a.(cost := 0.0)
  }

  lemma {:induction false} ShapeTail(steps: seq<ModelActivityStep>, steps': seq<ModelActivityStep>)
    requires SameShape(steps, steps') && steps != []
    ensures SameButCost(steps[0], steps'[0])
    ensures SameShape(steps[1..], steps'[1..])
    ensures steps == [steps[0]] + steps[1..] && steps' == [steps'[0]] + steps'[1..]
  {
    forall i | 0 <= i < |steps| - 1
      ensures SameButCost(steps[1..][i], steps'[1..][i])
    {
      assert SameButCost(steps[i + 1], steps'[i + 1]);
    }
  }

  lemma {:induction false} TokensOnlyPlus(a: Ledger, b: Ledger, a': Ledger, b': Ledger)
    requires TokensOnly(a) == TokensOnly(a') && TokensOnly(b) == TokensOnly(b')
    ensures TokensOnly(Plus(a, b)) == TokensOnly(Plus(a', b'))
  {}

  /** Steps that differ in cost only hold the same tokens, whatever names are looked at. */
  lemma {:induction false} ShapeKeepsTokens(steps: seq<ModelActivityStep>, steps': seq<ModelActivityStep>, norm: Names,
                                            k: ModelKey)
    requires SameShape(steps, steps')
    ensures TokensOnly(Booked(steps, norm, k)) == TokensOnly(Booked(steps', norm, k))
  {
    if steps != [] {
      ShapeTail(steps, steps');
      ShapeKeepsTokens(steps[1..], steps'[1..], norm, k);
      BookedCons(steps[0], steps[1..], norm, k);
      BookedCons(steps'[0], steps'[1..], norm, k);
      TokensOnlyPlus(StepEntry()(steps[0]), Booked(steps[1..], norm, k), StepEntry()(steps'[0]),
                     Booked(steps'[1..], norm, k));
    } else {
      assert steps' == [];
    }
  }

  lemma {:induction false} ShapeKeepsMatching(steps: seq<ModelActivityStep>, steps': seq<ModelActivityStep>,
                                              slice: UsageSlice, fold: Names)
    requires SameShape(steps, steps')
    ensures MatchingTokens(steps, slice, fold) == MatchingTokens(steps', slice, fold)
  {
    if steps != [] {
      ShapeTail(steps, steps');
      ShapeKeepsMatching(steps[1..], steps'[1..], slice, fold);
      MatchingTokensCons(steps[0], steps[1..], slice, fold);
      MatchingTokensCons(steps'[0], steps'[1..], slice, fold);
    }
  }

  predicate AmountsNonNegative(usage: seq<UsageSlice>) {
    forall i | 0 <= i < |usage| :: 0.0 <= usage[i].cost.amount
  }

  ghost predicate TokensFit(steps: seq<ModelActivityStep>, fold: Names) {
    forall k :: Booked(steps, fold, k).Grand() <= U64_MAX
  }

  /** No other slice interferes with what is spent on this one. */
  lemma {:induction false} SpreadAllSpends(steps: seq<ModelActivityStep>, usage: seq<UsageSlice>, fold: Names, i: nat)
    requires i < |usage| && Apart(usage, fold)
    ensures SpentOn(SpreadAll(steps, usage, fold), usage[i], fold).cost == Paid(steps, usage[i], fold)
  {
    var front, last := usage[..|usage| - 1], usage[|usage| - 1];
    var before := SpreadAll(steps, front, fold);
    if i < |front| {
      SpreadAllSpends(steps, front, fold, i);
      SpreadSliceElsewhere(before, last, usage[i], fold);
    } else {
      SpreadAllKeepsShape(steps, front, fold);
      ShapeKeepsMatching(steps, before, last, fold);
      SpreadSliceSpends(before, last, fold);
      SpreadAllElsewhere(steps, front, last, fold);
    }
  }

  lemma {:induction false} SpreadAllElsewhere(steps: seq<ModelActivityStep>, usage: seq<UsageSlice>, other: UsageSlice,
                                              fold: Names)
    requires forall slice | slice in usage :: fold(SliceKey(slice)) != fold(SliceKey(other))
    ensures SpentOn(SpreadAll(steps, usage, fold), other, fold) == SpentOn(steps, other, fold)
  {
    if usage != [] {
      var front := usage[..|usage| - 1];
      SpreadAllElsewhere(steps, front, other, fold);
      SpreadSliceElsewhere(SpreadAll(steps, front, fold), usage[|usage| - 1], other, fold);
    }
  }

  /** Repricing leaves no negative cost behind, however large the token counts are. */
  lemma {:induction false} SpreadAllNonNegative(steps: seq<ModelActivityStep>, usage: seq<UsageSlice>, fold: Names)
    requires AmountsNonNegative(usage) && CostsNonNegative(steps)
    ensures CostsNonNegative(SpreadAll(steps, usage, fold))
  {
    if usage != [] {
      var front, last := usage[..|usage| - 1], usage[|usage| - 1];
      var before := SpreadAll(steps, front, fold);
      SpreadAllNonNegative(steps, front, fold);
      SlicePartsNonNegative(before, last, fold);
      PayAllNonNegative(before, last, fold, SliceParts(before, last, fold));
    }
  }
}
