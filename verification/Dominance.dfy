/** A session's dominant category and the share of its tokens that was classified at all. */
module Dominance {
  import opened Ledgers
  import opened Sequences
  import opened Text
  import opened Usage
  import opened Sessions
  import opened Reconciliation
  import C = Categories

  datatype LabelledTurn = LabelledTurn(turn: TurnSnapshot, category: C.Assignment)

  predicate Classified(t: LabelledTurn) {
    t.category.status == C.Classified
  }

  /** `TurnSnapshot::total_tokens` */
  function TokensOf(t: LabelledTurn): u64 {
    StepTokens(t.turn.modelActivity)
  }

  predicate Counts(t: LabelledTurn, c: C.CategoryId) {
    Classified(t) && t.category.categoryId == c
  }

  /* ---- Weights ---- */

  function WeightMeter(c: C.CategoryId): LabelledTurn -> Ledger {
    (t: LabelledTurn) => if Counts(t, c) then Ledger(TokensOf(t), 0, 0, 0, 0, 0.0) else Zero()
  }

  /** The tokens of a category's turns, saturated */
  function Weight(ts: seq<LabelledTurn>, c: C.CategoryId): u64 {
    Min(Total(ts, WeightMeter(c)).input, U64_MAX)
  }

  predicate Present(ts: seq<LabelledTurn>, c: C.CategoryId) {
    exists i :: 0 <= i < |ts| && Counts(ts[i], c)
  }

  /** `best` is the greatest confidence among the turns of the category. */
  predicate IsConfidence(ts: seq<LabelledTurn>, c: C.CategoryId, best: real) {
    && (exists i :: 0 <= i < |ts| && Counts(ts[i], c) && ts[i].category.confidence == best)
    && (forall i | 0 <= i < |ts| && Counts(ts[i], c) :: ts[i].category.confidence <= best)
  }

  /** The position of the category's name in alphabetical order */
  function Rank(c: C.CategoryId): nat {
    match c
    case Content => 0
    case Debugging => 1
    case Documentation => 2
    case Implementation => 3
    case Operations => 4
    case Planning => 5
    case Research => 6
    case ReviewRefactoring => 7
    case Testing => 8
    case Unknown => 9
  }

  const BY_NAME: seq<C.CategoryId> := [
    C.Content, C.Debugging, C.Documentation, C.Implementation, C.Operations,
    C.Planning, C.Research, C.ReviewRefactoring, C.Testing, C.Unknown]

  datatype Standing = Standing(weight: u64, assignment: C.Assignment)

  type Standings = map<C.CategoryId, Standing>

  function AddTurn(standings: Standings, t: LabelledTurn): Standings {
    var c := t.category.categoryId;
    var before := if c in standings then standings[c] else Standing(0, t.category);
    var better := t.category.confidence > before.assignment.confidence;
    standings[c := Standing(SatAdd(before.weight, TokensOf(t)), if better then t.category else before.assignment)]
  }

  /** `weighted` after the turns `ts` */
  ghost predicate StandingsOf(standings: Standings, ts: seq<LabelledTurn>) {
    && (forall c :: c in standings <==> Present(ts, c))
    && (forall c | c in standings :: StandingOf(standings[c], ts, c))
  }

  /** Turn `i` is the first one of the category with the greatest confidence, and `a` its assignment. */
  predicate FirstBest(ts: seq<LabelledTurn>, c: C.CategoryId, i: nat, a: C.Assignment) {
    && i < |ts| && Counts(ts[i], c) && ts[i].category == a
    && (forall j | 0 <= j < i && Counts(ts[j], c) :: ts[j].category.confidence < a.confidence)
    && (forall j | i <= j < |ts| && Counts(ts[j], c) :: ts[j].category.confidence <= a.confidence)
  }

  /** What is kept for a category: its weight, and the first assignment of the greatest confidence */
  ghost predicate StandingOf(s: Standing, ts: seq<LabelledTurn>, c: C.CategoryId) {
    s.weight == Weight(ts, c) && exists i: nat :: FirstBest(ts, c, i, s.assignment)
  }

  lemma {:induction false} FirstBestIsConfidence(ts: seq<LabelledTurn>, c: C.CategoryId, i: nat, a: C.Assignment)
    requires FirstBest(ts, c, i, a)
    ensures IsConfidence(ts, c, a.confidence)
  {
    assert Counts(ts[i], c) && ts[i].category.confidence == a.confidence;
  }

  lemma {:induction false} WeightSnoc(ts: seq<LabelledTurn>, t: LabelledTurn, c: C.CategoryId)
    ensures Weight(ts + [t], c) == if Counts(t, c) then SatAdd(Weight(ts, c), TokensOf(t)) else Weight(ts, c)
  {
    TotalSnoc(ts, t, WeightMeter(c));
  }

  lemma {:induction false} AbsentWeighsNothing(ts: seq<LabelledTurn>, c: C.CategoryId)
    requires !Present(ts, c)
    ensures Weight(ts, c) == 0
  {
    forall t | t in ts
      ensures WeightMeter(c)(t) == Zero()
    {
      var i :| 0 <= i < |ts| && ts[i] == t;
    }
    TotalZero(ts, WeightMeter(c));
  }

  lemma {:induction false} PresentSnoc(ts: seq<LabelledTurn>, t: LabelledTurn, c: C.CategoryId)
    ensures Present(ts + [t], c) <==> Present(ts, c) || Counts(t, c)
  {
    var longer := ts + [t];
    assert longer[|ts|] == t;
    assert forall i | 0 <= i < |ts| :: longer[i] == ts[i];
  }

  lemma {:induction false} FirstBestStays(ts: seq<LabelledTurn>, t: LabelledTurn, c: C.CategoryId, i: nat,
                                          a: C.Assignment)
    requires FirstBest(ts, c, i, a) && (Counts(t, c) ==> t.category.confidence <= a.confidence)
    ensures FirstBest(ts + [t], c, i, a)
  {
    var longer := ts + [t];
    assert forall j | 0 <= j < |ts| :: longer[j] == ts[j];
  }

  lemma {:induction false} FirstBestMoves(ts: seq<LabelledTurn>, t: LabelledTurn, c: C.CategoryId)
    requires Counts(t, c)
    requires forall j | 0 <= j < |ts| && Counts(ts[j], c) :: ts[j].category.confidence < t.category.confidence
    ensures FirstBest(ts + [t], c, |ts|, t.category)
  {
    var longer := ts + [t];
    assert forall j | 0 <= j < |ts| :: longer[j] == ts[j];
  }

  lemma {:induction false} StandingStays(s: Standing, ts: seq<LabelledTurn>, t: LabelledTurn, c: C.CategoryId)
    requires StandingOf(s, ts, c) && !Counts(t, c)
    ensures StandingOf(s, ts + [t], c)
  {
    WeightSnoc(ts, t, c);
    var i: nat :| FirstBest(ts, c, i, s.assignment);
    FirstBestStays(ts, t, c, i, s.assignment);
  }

  lemma {:induction false} StandingGrows(standings: Standings, ts: seq<LabelledTurn>, t: LabelledTurn)
    requires StandingsOf(standings, ts) && Classified(t)
    ensures StandingOf(AddTurn(standings, t)[t.category.categoryId], ts + [t], t.category.categoryId)
  {
    var c := t.category.categoryId;
    WeightSnoc(ts, t, c);
    if c in standings {
      var a := standings[c].assignment;
      assert StandingOf(standings[c], ts, c);
      var i: nat :| FirstBest(ts, c, i, a);
      if t.category.confidence > a.confidence {
        FirstBestMoves(ts, t, c);
      } else {
        FirstBestStays(ts, t, c, i, a);
      }
    } else {
      AbsentWeighsNothing(ts, c);
      FirstBestMoves(ts, t, c);
    }
  }

  lemma {:induction false} AddTurnKeeps(standings: Standings, ts: seq<LabelledTurn>, t: LabelledTurn)
    requires StandingsOf(standings, ts)
    ensures StandingsOf(if Classified(t) then AddTurn(standings, t) else standings, ts + [t])
  {
    var after := if Classified(t) then AddTurn(standings, t) else standings;
    forall c
      ensures c in after <==> Present(ts + [t], c)
    {
      PresentSnoc(ts, t, c);
    }
    forall c | c in after
      ensures StandingOf(after[c], ts + [t], c)
    {
      if Counts(t, c) {
        StandingGrows(standings, ts, t);
      } else {
        StandingStays(standings[c], ts, t, c);
      }
    }
  }

  method Weigh(ts: seq<LabelledTurn>) returns (standings: Standings)
    ensures StandingsOf(standings, ts)
  {
    standings := map[];
    for i := 0 to |ts|
      invariant StandingsOf(standings, ts[..i])
    {
      AddTurnKeeps(standings, ts[..i], ts[i]);
      assert ts[..i + 1] == ts[..i] + [ts[i]];
      if Classified(ts[i]) {
        standings := AddTurn(standings, ts[i]);
      }
    }
    assert ts[..|ts|] == ts;
  }

  /* ---- The dominant category ---- */

  predicate Beats(a: Standing, ra: nat, b: Standing, rb: nat) {
    || a.weight > b.weight
    || (a.weight == b.weight && a.assignment.confidence > b.assignment.confidence)
    || (a.weight == b.weight && a.assignment.confidence == b.assignment.confidence && ra >= rb)
  }

  /** `max_by`: of equals the last one wins */
  predicate Leads(standings: Standings, c: C.CategoryId) {
    c in standings && forall d | d in standings :: Beats(standings[c], Rank(c), standings[d], Rank(d))
  }

  lemma {:induction false} RankIsPosition(c: C.CategoryId)
    ensures BY_NAME[Rank(c)] == c
  {}

  lemma {:induction false} PositionIsRank(i: nat)
    requires i < 10
    ensures Rank(BY_NAME[i]) == i
  {}

  method Leader(standings: Standings) returns (leader: Option<C.CategoryId>)
    ensures leader == None <==> standings == map[]
    ensures leader.Some? ==> Leads(standings, leader.value)
  {
    leader := None;
    for i := 0 to |BY_NAME|
      invariant leader == None ==> forall j | 0 <= j < i :: BY_NAME[j] !in standings
      invariant leader.Some? ==> leader.value in standings && Rank(leader.value) < i
      invariant leader.Some? ==> forall j | 0 <= j < i && BY_NAME[j] in standings ::
        Beats(standings[leader.value], Rank(leader.value), standings[BY_NAME[j]], j)
    {
      var c := BY_NAME[i];
      PositionIsRank(i);
      if c in standings && (leader == None || Beats(standings[c], i, standings[leader.value], Rank(leader.value))) {
        leader := Some(c);
      }
    }
    forall c | c in standings
      ensures leader.Some? && Beats(standings[leader.value], Rank(leader.value), standings[c], Rank(c))
    {
      RankIsPosition(c);
    }
  }

  /* ---- The same, told from the turns alone ---- */

  /** The tokens of all turns classified as `c` */
  function CategoryTokens(ts: seq<LabelledTurn>, c: C.CategoryId): nat {
    if ts == [] then 0
    else
      var before, t := CategoryTokens(ts[..|ts| - 1], c), ts[|ts| - 1];
      if t.category.status == C.Classified && t.category.categoryId == c then before + TokensOf(t) else before
  }

  /** They are added up with saturation. */
  function Heaviness(ts: seq<LabelledTurn>, c: C.CategoryId): nat {
    if CategoryTokens(ts, c) < 0xFFFF_FFFF_FFFF_FFFF then CategoryTokens(ts, c) else 0xFFFF_FFFF_FFFF_FFFF
  }

  /** `a` comes before `b` in a dictionary, and does not begin it. */
  predicate Alphabetical(a: string, b: string) {
    exists k :: 0 <= k < |a| && k < |b| && a[k] < b[k] && forall m | 0 <= m < k :: a[m] == b[m]
  }

  /** Turn `j` gives way to turn `i`: its category weighs less; of equal weight, it is less certain, or as
      certain and of an earlier name.  Within one category, the first of the most certain ones counts. */
  predicate GivesWay(ts: seq<LabelledTurn>, j: nat, i: nat)
    requires i < |ts| && j < |ts|
  {
    var a, b := ts[i].category, ts[j].category;
    var heavy, light := Heaviness(ts, a.categoryId), Heaviness(ts, b.categoryId);
    if a.categoryId == b.categoryId then b.confidence < a.confidence || (b.confidence == a.confidence && i <= j)
    else
      || light < heavy
      || (light == heavy
          && (|| b.confidence < a.confidence
              || (b.confidence == a.confidence && Alphabetical(C.NameOf(b.categoryId), C.NameOf(a.categoryId)))))
  }

  predicate IsDominant(ts: seq<LabelledTurn>, i: nat) {
    && i < |ts| && ts[i].category.status == C.Classified
    && forall j | 0 <= j < |ts| && ts[j].category.status == C.Classified :: GivesWay(ts, j, i)
  }

  lemma {:induction false} MeterSnoc(ts: seq<LabelledTurn>, t: LabelledTurn, c: C.CategoryId)
    ensures Total(ts + [t], WeightMeter(c)).input
         == Total(ts, WeightMeter(c)).input + if Counts(t, c) then TokensOf(t) else 0
  {
    TotalSnoc(ts, t, WeightMeter(c));
  }

  lemma {:induction false} CategorySnoc(ts: seq<LabelledTurn>, t: LabelledTurn, c: C.CategoryId)
    ensures CategoryTokens(ts + [t], c) == CategoryTokens(ts, c) + if Counts(t, c) then TokensOf(t) else 0
  {
    assert (ts + [t])[..|ts|] == ts;
  }

  lemma {:induction false} MeterCounts(ts: seq<LabelledTurn>, c: C.CategoryId)
    ensures Total(ts, WeightMeter(c)).input == CategoryTokens(ts, c)
  {
    if ts != [] {
      var front, t := ts[..|ts| - 1], ts[|ts| - 1];
      assert ts == front + [t];
      MeterCounts(front, c);
      MeterSnoc(front, t, c);
      CategorySnoc(front, t, c);
    }
  }

  lemma {:induction false} WeightIsCounted(ts: seq<LabelledTurn>, c: C.CategoryId)
    ensures Weight(ts, c) == Heaviness(ts, c)
  {
    MeterCounts(ts, c);
  }

  lemma {:induction false} FirstLetters(c: C.CategoryId)
    ensures var name, n := C.NameOf(c), Rank(c);
            && |name| > 3
            && name[0] == (if n == 0 then 'c' else if n <= 2 then 'd' else if n == 3 then 'i' else if n == 4 then 'o'
                           else if n == 5 then 'p' else if n <= 7 then 'r' else if n == 8 then 't' else 'u')
            && (n == 1 ==> name[1] == 'e') && (n == 2 ==> name[1] == 'o')
            && (n == 6 ==> name[1] == 'e' && name[2] == 's') && (n == 7 ==> name[1] == 'e' && name[2] == 'v')
  {}

  lemma {:induction false} NamesInOrder(c: C.CategoryId, d: C.CategoryId)
    requires Rank(c) < Rank(d)
    ensures Alphabetical(C.NameOf(c), C.NameOf(d))
  {
    var a, b := C.NameOf(c), C.NameOf(d);
    FirstLetters(c);
    FirstLetters(d);
    if Rank(c) == 1 && Rank(d) == 2 {
      assert a[1] < b[1];
    } else if Rank(c) == 6 && Rank(d) == 7 {
      assert a[2] < b[2];
    } else {
      assert a[0] < b[0];
    }
  }

  lemma {:induction false} AlphabeticalOneWay(a: string, b: string)
    requires Alphabetical(a, b)
    ensures a != b && !Alphabetical(b, a)
  {
    var k :| 0 <= k < |a| && k < |b| && a[k] < b[k] && forall m | 0 <= m < k :: a[m] == b[m];
  }

  /** Ranks are positions in alphabetical order. */
  lemma {:induction false} RankIsAlphabetical(c: C.CategoryId, d: C.CategoryId)
    ensures Rank(c) < Rank(d) <==> Alphabetical(C.NameOf(c), C.NameOf(d))
  {
    if Rank(c) < Rank(d) {
      NamesInOrder(c, d);
    } else if Rank(d) < Rank(c) {
      NamesInOrder(d, c);
      AlphabeticalOneWay(C.NameOf(d), C.NameOf(c));
    } else {
      RankInjective(c, d);
    }
  }

  lemma {:induction false} BestOf(standings: Standings, ts: seq<LabelledTurn>, j: nat) returns (best: real)
    requires StandingsOf(standings, ts) && j < |ts| && Classified(ts[j])
    ensures IsConfidence(ts, ts[j].category.categoryId, best) && ts[j].category.confidence <= best
  {
    var c := ts[j].category.categoryId;
    assert Counts(ts[j], c);
    StandingIsBest(standings, ts, c);
    best := standings[c].assignment.confidence;
  }

  lemma {:induction false} WeakerGivesWay(ts: seq<LabelledTurn>, i: nat, j: nat, best: real)
    requires i < |ts| && j < |ts| && ts[j].category.categoryId != ts[i].category.categoryId
    requires ts[j].category.confidence <= best
    requires var c, d := ts[i].category.categoryId, ts[j].category.categoryId;
             || Weight(ts, d) < Weight(ts, c)
             || (Weight(ts, d) == Weight(ts, c)
                 && (best < ts[i].category.confidence || (best == ts[i].category.confidence && Rank(d) <= Rank(c))))
    ensures GivesWay(ts, j, i)
  {
    var c, d := ts[i].category.categoryId, ts[j].category.categoryId;
    WeightIsCounted(ts, c);
    WeightIsCounted(ts, d);
    RankIsAlphabetical(d, c);
    if Rank(c) == Rank(d) {
      RankInjective(c, d);
    }
  }

  lemma {:induction false} OthersGiveWay(standings: Standings, ts: seq<LabelledTurn>, i: nat, j: nat)
    requires StandingsOf(standings, ts)
    requires i < |ts| && j < |ts| && Classified(ts[j])
    requires FirstBest(ts, ts[i].category.categoryId, i, ts[i].category)
    requires Dominates(ts, ts[i].category.categoryId, ts[i].category.confidence)
    ensures GivesWay(ts, j, i)
  {
    assert Counts(ts[j], ts[j].category.categoryId);
    if ts[i].category.categoryId != ts[j].category.categoryId {
      var best := BestOf(standings, ts, j);
      assert Present(ts, ts[j].category.categoryId);
      WeakerGivesWay(ts, i, j, best);
    }
  }

  lemma {:induction false} DominatingTurn(standings: Standings, ts: seq<LabelledTurn>, c: C.CategoryId,
                                          a: C.Assignment, i: nat)
    requires StandingsOf(standings, ts) && FirstBest(ts, c, i, a) && Dominates(ts, c, a.confidence)
    ensures IsDominant(ts, i) && ts[i].category == a
  {
    forall j | 0 <= j < |ts| && ts[j].category.status == C.Classified
      ensures GivesWay(ts, j, i)
    {
      OthersGiveWay(standings, ts, i, j);
    }
  }

  lemma {:induction false} ClassifiedIsPresent(ts: seq<LabelledTurn>)
    ensures (exists c :: Present(ts, c)) <==> exists i :: 0 <= i < |ts| && ts[i].category.status == C.Classified
  {
    if i :| 0 <= i < |ts| && ts[i].category.status == C.Classified {
      assert Counts(ts[i], ts[i].category.categoryId);
      assert Present(ts, ts[i].category.categoryId);
    }
  }

  /** `dominant_category`: the assignment of the turn that all other classified turns give way to */
  method DominantCategory(ts: seq<LabelledTurn>) returns (dominant: C.Assignment)
    ensures if exists i :: 0 <= i < |ts| && ts[i].category.status == C.Classified
            then exists i: nat :: IsDominant(ts, i) && ts[i].category == dominant
            else dominant == C.Assignment(C.Unknown, 0.0, "2026-01", "unavailable", C.Unavailable)
    ensures (forall c :: !Present(ts, c)) ==> dominant == C.Default()
    ensures (exists c :: Present(ts, c)) ==> Dominates(ts, dominant.categoryId, dominant.confidence)
    ensures (exists c :: Present(ts, c)) ==> exists i: nat :: FirstBest(ts, dominant.categoryId, i, dominant)
  {
    var standings := Weigh(ts);
    var leader := Leader(standings);
    ClassifiedIsPresent(ts);
    if leader == None {
      return C.Default();
    }
    LeaderDominates(standings, ts, leader.value);
    dominant := standings[leader.value].assignment;
    assert StandingOf(standings[leader.value], ts, leader.value);
    ghost var i: nat :| FirstBest(ts, leader.value, i, dominant);
    DominatingTurn(standings, ts, leader.value, dominant, i);
  }

  /** `c` has the greatest classified token weight; among equals the greatest confidence, which is
      `best`; among those the last name. */
  ghost predicate Dominates(ts: seq<LabelledTurn>, c: C.CategoryId, best: real) {
    && Present(ts, c) && IsConfidence(ts, c, best)
    && forall d, other | Present(ts, d) && IsConfidence(ts, d, other) ::
         || Weight(ts, d) < Weight(ts, c)
         || (Weight(ts, d) == Weight(ts, c) && (other < best || (other == best && Rank(d) <= Rank(c))))
  }

  lemma {:induction false} StandingIsBest(standings: Standings, ts: seq<LabelledTurn>, c: C.CategoryId)
    requires StandingsOf(standings, ts) && c in standings
    ensures StandingOf(standings[c], ts, c) && standings[c].assignment.categoryId == c
    ensures IsConfidence(ts, c, standings[c].assignment.confidence)
  {
    assert StandingOf(standings[c], ts, c);
    var i: nat :| FirstBest(ts, c, i, standings[c].assignment);
    FirstBestIsConfidence(ts, c, i, standings[c].assignment);
  }

  lemma {:induction false} LeaderDominates(standings: Standings, ts: seq<LabelledTurn>, c: C.CategoryId)
    requires StandingsOf(standings, ts) && Leads(standings, c)
    ensures standings[c].assignment.categoryId == c
    ensures Dominates(ts, c, standings[c].assignment.confidence)
  {
    StandingIsBest(standings, ts, c);
    forall d, other | Present(ts, d) && IsConfidence(ts, d, other)
      ensures || Weight(ts, d) < Weight(ts, c)
              || (Weight(ts, d) == Weight(ts, c)
                  && (other < standings[c].assignment.confidence
                      || (other == standings[c].assignment.confidence && Rank(d) <= Rank(c))))
    {
      StandingIsBest(standings, ts, d);
      ConfidenceIsUnique(ts, d, other, standings[d].assignment.confidence);
    }
  }

  lemma {:induction false} ConfidenceIsUnique(ts: seq<LabelledTurn>, c: C.CategoryId, a: real, b: real)
    requires IsConfidence(ts, c, a) && IsConfidence(ts, c, b)
    ensures a == b
  {}

  lemma {:induction false} RankInjective(c: C.CategoryId, d: C.CategoryId)
    requires Rank(c) == Rank(d)
    ensures c == d
  {
    RankIsPosition(c);
    RankIsPosition(d);
  }

  /* ---- The order of turns does not matter ---- */

  lemma {:induction false} SameMembers(ts: seq<LabelledTurn>, us: seq<LabelledTurn>, i: nat) returns (j: nat)
    requires multiset(ts) == multiset(us) && i < |ts|
    ensures j < |us| && us[j] == ts[i]
  {
    assert ts[i] in multiset(us);
    j :| 0 <= j < |us| && us[j] == ts[i];
  }

  lemma {:induction false} PermutationKeepsConfidence(ts: seq<LabelledTurn>, us: seq<LabelledTurn>, c: C.CategoryId,
                                                      best: real)
    requires multiset(ts) == multiset(us) && IsConfidence(ts, c, best)
    ensures IsConfidence(us, c, best) && Present(us, c)
  {
    var i :| 0 <= i < |ts| && Counts(ts[i], c) && ts[i].category.confidence == best;
    var j := SameMembers(ts, us, i);
    forall n | 0 <= n < |us| && Counts(us[n], c)
      ensures us[n].category.confidence <= best
    {
      var m := SameMembers(us, ts, n);
    }
  }

  lemma {:induction false} PermutationKeepsWeight(ts: seq<LabelledTurn>, us: seq<LabelledTurn>, c: C.CategoryId)
    requires multiset(ts) == multiset(us)
    ensures Weight(ts, c) == Weight(us, c)
  {
    TotalPermutation(ts, us, WeightMeter(c));
  }

  /** The dominant category, its weight and its confidence are the same for any order of the turns. */
  lemma {:induction false} DominantIgnoresOrder(ts: seq<LabelledTurn>, us: seq<LabelledTurn>, c: C.CategoryId, a: real,
                                                d: C.CategoryId, b: real)
    requires multiset(ts) == multiset(us) && Dominates(ts, c, a) && Dominates(us, d, b)
    ensures c == d && a == b && Weight(ts, c) == Weight(us, d)
  {
    PermutationKeepsConfidence(ts, us, c, a);
    PermutationKeepsConfidence(us, ts, d, b);
    PermutationKeepsWeight(ts, us, c);
    PermutationKeepsWeight(ts, us, d);
    if Rank(c) == Rank(d) {
      RankInjective(c, d);
    }
  }

  /* ---- Coverage ---- */

  function TurnsIn(ts: seq<LabelledTurn>): (turns: seq<TurnSnapshot>)
    ensures |turns| == |ts| && forall i | 0 <= i < |ts| :: turns[i] == ts[i].turn
  {
    seq(|ts|, i requires 0 <= i < |ts| => ts[i].turn)
  }

  function ClassifiedTokens(ts: seq<LabelledTurn>): u64 {
    if ts == [] then 0
    else
      var before := ClassifiedTokens(ts[..|ts| - 1]);
      if Classified(ts[|ts| - 1]) then WrapAdd(before, TokensOf(ts[|ts| - 1])) else before
  }

  function Ratio(a: nat, b: nat): real {
    if b == 0 then 0.0 else a as real / b as real
  }

  /** `calculate_classified_token_coverage` */
  function Coverage(ts: seq<LabelledTurn>, usage: seq<UsageSlice>): real {
    Ratio(ClassifiedTokens(ts), SliceTokens(usage))
  }

  /** What each turn adds to the classified tokens */
  function Classifications(ts: seq<LabelledTurn>): (r: seq<nat>)
    ensures |r| == |ts|
    ensures forall i | 0 <= i < |ts| ::
              r[i] == if ts[i].category.status == C.Classified then StepTokens(ts[i].turn.modelActivity) else 0
  {
    seq(|ts|, i requires 0 <= i < |ts| =>
          if ts[i].category.status == C.Classified then StepTokens(ts[i].turn.modelActivity) else 0)
  }

  lemma {:induction false} ClassifiedSnoc(ts: seq<LabelledTurn>, t: LabelledTurn)
    ensures Sum(Classifications(ts + [t]))
         == Sum(Classifications(ts)) + if t.category.status == C.Classified then StepTokens(t.turn.modelActivity) else 0
  {
    var more := if t.category.status == C.Classified then StepTokens(t.turn.modelActivity) else 0;
    assert Classifications(ts + [t]) == Classifications(ts) + [more];
    SumSnoc(Classifications(ts), more);
  }

  /** The tokens of the classified turns, and no others, are added up, modulo 2^64. */
  lemma {:induction false} ClassifiedAreCounted(ts: seq<LabelledTurn>)
    ensures ClassifiedTokens(ts) == Sum(Classifications(ts)) % 0x1_0000_0000_0000_0000
  {
    if ts != [] {
      var front, t := ts[..|ts| - 1], ts[|ts| - 1];
      ClassifiedAreCounted(front);
      assert ts == front + [t];
      ClassifiedSnoc(front, t);
      if Classified(t) {
        WrapsAround(Sum(Classifications(front)), TokensOf(t));
      }
    }
  }

  /** `x` is the share of `a` in `b`. */
  predicate IsShare(x: real, a: nat, b: nat) {
    if b == 0 then x == 0.0 else x * b as real == a as real
  }

  lemma {:induction false} RatioIsShare(a: nat, b: nat)
    ensures IsShare(Ratio(a, b), a, b)
  {
    if b != 0 {
      Quotient(a as real, b as real);
    }
  }

  lemma {:induction false} Quotient(x: real, t: real)
    requires t != 0.0
    ensures x / t * t == x
  {}

  /** The coverage is their share of the session's tokens. */
  lemma {:induction false} CoverageIsShare(ts: seq<LabelledTurn>, usage: seq<UsageSlice>)
    ensures IsShare(Coverage(ts, usage), ClassifiedTokens(ts), SliceTokens(usage))
  {
    RatioIsShare(ClassifiedTokens(ts), SliceTokens(usage));
  }

  function HeldIn(t: LabelledTurn): nat {
    Total(t.turn.modelActivity, StepEntry()).Grand()
  }

  /** The exact number of tokens in the turns */
  function Held(ts: seq<LabelledTurn>): nat {
    if ts == [] then 0 else Held(ts[..|ts| - 1]) + HeldIn(ts[|ts| - 1])
  }

  lemma {:induction false} TurnsInSnoc(ts: seq<LabelledTurn>, t: LabelledTurn)
    ensures TurnsIn(ts + [t]) == TurnsIn(ts) + [t.turn]
  {}

  lemma {:induction false} TotalOfTurnsSnoc(turns: seq<TurnSnapshot>, turn: TurnSnapshot)
    ensures Total(AllSteps(turns + [turn]), StepEntry()).Grand()
         == Total(AllSteps(turns), StepEntry()).Grand() + Total(turn.modelActivity, StepEntry()).Grand()
  {
    AllStepsSnoc(turns, turn);
    TotalAppend(AllSteps(turns), turn.modelActivity, StepEntry());
  }

  lemma {:induction false} TotalOfNoTurns(ts: seq<LabelledTurn>)
    requires ts == []
    ensures Total(AllSteps(TurnsIn(ts)), StepEntry()).Grand() == 0
  {
    assert TurnsIn(ts) == [];
  }

  lemma {:induction false} HeldIsTotal(ts: seq<LabelledTurn>)
    ensures Held(ts) == Total(AllSteps(TurnsIn(ts)), StepEntry()).Grand()
  {
    if ts == [] {
      TotalOfNoTurns(ts);
    } else {
      var front, last := ts[..|ts| - 1], ts[|ts| - 1];
      HeldIsTotal(front);
      TurnsInSnoc(front, last);
      TotalOfTurnsSnoc(TurnsIn(front), last.turn);
      assert ts == front + [last];
    }
  }

  lemma {:induction false} TokensHeld(t: LabelledTurn)
    ensures HeldIn(t) <= U64_MAX ==> HeldIn(t) == TokensOf(t)
  {
    StepTotals(t.turn.modelActivity);
  }

  lemma {:induction false} ClassifiedWithin(ts: seq<LabelledTurn>)
    requires Held(ts) <= U64_MAX
    ensures ClassifiedTokens(ts) <= Held(ts)
    ensures (forall i | 0 <= i < |ts| :: Classified(ts[i])) ==> ClassifiedTokens(ts) == Held(ts)
  {
    if ts != [] {
      ClassifiedWithin(ts[..|ts| - 1]);
      TokensHeld(ts[|ts| - 1]);
    }
  }

  lemma {:induction false} Fraction(a: nat, b: nat)
    requires a <= b && b > 0
    ensures 0.0 <= a as real / b as real <= 1.0
    ensures a == b ==> a as real / b as real == 1.0
  {}

  /** The coverage of a client's snapshot is a fraction, as the server demands, and it is all of it
      when every turn is classified - as long as the session's tokens fit a `u64`. */
  lemma {:induction false} CoverageIsFraction(cs: seq<ModelCall>, usage: seq<UsageSlice>, ts: seq<LabelledTurn>)
    requires |cs| <= U32_MAX && Lists(usage, Aggregate(cs)) && Total(cs, CallEntry()).Grand() <= U64_MAX
    requires TurnsIn(ts) == SessionTurns(cs)
    ensures 0.0 <= Coverage(ts, usage) <= 1.0
    ensures SliceTokens(usage) > 0 && (forall i | 0 <= i < |ts| :: Classified(ts[i])) ==> Coverage(ts, usage) == 1.0
  {
    TurnsHoldEverything(cs);
    ClientTotalsReconcile(cs, usage);
    TurnTotals(SessionTurns(cs));
    HeldIsTotal(ts);
    ClassifiedWithin(ts);
    if SliceTokens(usage) > 0 {
      Fraction(ClassifiedTokens(ts), SliceTokens(usage));
    }
  }
}
