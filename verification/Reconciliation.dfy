/** The server's cross-check of a snapshot. */
module Reconciliation {
  /* `validate_snapshot` adds up the turns once more, model by model, and compares the result with
     the per-model slices.  Both sides name a model by a normalized key; the normalization is a
     parameter `norm` here and is fixed in module `Ingest`. */

  import opened Ledgers
  import opened Sequences
  import opened Text
  import opened Usage
  import opened Turns
  import opened Sessions

  /* ---- What the check demands ---- */

  const TOLERANCE := 0.000001

  predicate Close(x: real, y: real) {
    -TOLERANCE <= x - y <= TOLERANCE
  }

  /** `TurnSnapshot::total_tokens` */
  function StepTokens(steps: seq<ModelActivityStep>): u64 {
    if steps == [] then 0
    else WrapAdd(StepTokens(steps[..|steps| - 1]), steps[|steps| - 1].tokens.Total())
  }

  function TurnTokens(turns: seq<TurnSnapshot>): u64 {
    if turns == [] then 0
    else WrapAdd(TurnTokens(turns[..|turns| - 1]), StepTokens(turns[|turns| - 1].modelActivity))
  }

  /** `SessionSnapshot::total_tokens` */
  function SliceTokens(usage: seq<UsageSlice>): u64 {
    if usage == [] then 0
    else WrapAdd(SliceTokens(usage[..|usage| - 1]), usage[|usage| - 1].tokens.Total())
  }

  function StepCost(steps: seq<ModelActivityStep>): real {
    if steps == [] then 0.0 else StepCost(steps[..|steps| - 1]) + steps[|steps| - 1].cost.amount
  }

  function TurnCost(turns: seq<TurnSnapshot>): real {
    if turns == [] then 0.0
    else TurnCost(turns[..|turns| - 1]) + StepCost(turns[|turns| - 1].modelActivity)
  }

  function SliceCost(usage: seq<UsageSlice>): real {
    if usage == [] then 0.0 else SliceCost(usage[..|usage| - 1]) + usage[|usage| - 1].cost.amount
  }

  predicate TurnsInOrder(turns: seq<TurnSnapshot>) {
    forall i, j | 0 <= i < j < |turns| :: turns[i].sequence < turns[j].sequence
  }

  predicate StepsInOrder(steps: seq<ModelActivityStep>) {
    forall i, j | 0 <= i < j < |steps| :: steps[i].sequence < steps[j].sequence
  }

  function NormKey(norm: ModelKey -> ModelKey): ModelActivityStep -> ModelKey {
    (s: ModelActivityStep) => norm(StepKey(s))
  }

  /** What the steps say was spent under the normalized key `k` */
  function Booked(steps: seq<ModelActivityStep>, norm: ModelKey -> ModelKey, k: ModelKey): Ledger {
    Total(steps, Only(StepEntry(), NormKey(norm), k))
  }

  predicate SliceAgrees(slice: UsageSlice, steps: seq<ModelActivityStep>, norm: ModelKey -> ModelKey) {
    var booked := Booked(steps, norm, norm(SliceKey(slice)));
    && Entry(slice.tokens, booked.cost) == Cap(booked)
    && Close(booked.cost, slice.cost.amount)
  }

  predicate Apart(usage: seq<UsageSlice>, norm: ModelKey -> ModelKey) {
    forall i, j | 0 <= i < j < |usage| :: norm(SliceKey(usage[i])) != norm(SliceKey(usage[j]))
  }

  /** The models that the steps name */
  function StepNames(steps: seq<ModelActivityStep>, norm: ModelKey -> ModelKey): set<ModelKey> {
    set i | 0 <= i < |steps| :: norm(StepKey(steps[i]))
  }

  /** The models that the slices name */
  function SliceNames(usage: seq<UsageSlice>, norm: ModelKey -> ModelKey): set<ModelKey> {
    set i | 0 <= i < |usage| :: norm(SliceKey(usage[i]))
  }

  /** Per model: both sides name the same models, each once, and agree on each. */
  predicate ModelsReconcile(steps: seq<ModelActivityStep>, usage: seq<UsageSlice>, norm: ModelKey -> ModelKey) {
    && Apart(usage, norm)
    && StepNames(steps, norm) == SliceNames(usage, norm)
    && (forall i | 0 <= i < |usage| :: SliceAgrees(usage[i], steps, norm))
  }

  predicate TotalsReconcile(turns: seq<TurnSnapshot>, usage: seq<UsageSlice>) {
    TurnTokens(turns) == SliceTokens(usage) && Close(TurnCost(turns), SliceCost(usage))
  }

  predicate InOrder(turns: seq<TurnSnapshot>) {
    TurnsInOrder(turns) && forall turn | turn in turns :: StepsInOrder(turn.modelActivity)
  }

  predicate Reconciles(turns: seq<TurnSnapshot>, usage: seq<UsageSlice>, norm: ModelKey -> ModelKey) {
    && TotalsReconcile(turns, usage)
    && InOrder(turns)
    && ModelsReconcile(AllSteps(turns), usage, norm)
  }

  /* ---- The check itself ---- */

  datatype Mismatch =
    | TokenTotals | CostTotals | TurnOrder | StepOrder
    | MissingFromTurns | ModelTotals | MissingFromSession

  datatype Booking = Booking(tokens: TokenBreakdown, cost: real)

  type Books = map<ModelKey, Booking>

  predicate BooksOf(books: Books, steps: seq<ModelActivityStep>, norm: ModelKey -> ModelKey) {
    && books.Keys == StepNames(steps, norm)
    && (forall k | k in books :: Entry(books[k].tokens, books[k].cost) == Cap(Booked(steps, norm, k)))
  }

  function BookStep(books: Books, k: ModelKey, s: ModelActivityStep): Books {
    var before := if k in books then books[k] else Booking(NO_TOKENS, 0.0);
    books[k := Booking(AddAssign(before.tokens, s.tokens), before.cost + s.cost.amount)]
  }

  lemma {:induction false} BookedSnoc(steps: seq<ModelActivityStep>, s: ModelActivityStep, norm: ModelKey -> ModelKey,
                                      k: ModelKey)
    ensures Booked(steps + [s], norm, k)
         == if norm(StepKey(s)) == k then Plus(Booked(steps, norm, k), StepEntry()(s)) else Booked(steps, norm, k)
  {
    var only := Only(StepEntry(), NormKey(norm), k);
    TotalSnoc(steps, s, only);
    assert only(s) == if norm(StepKey(s)) == k then StepEntry()(s) else Zero();
    PlusZero(Booked(steps, norm, k));
  }

  lemma {:induction false} NothingBooked(steps: seq<ModelActivityStep>, norm: ModelKey -> ModelKey, k: ModelKey)
    requires k !in StepNames(steps, norm)
    ensures Booked(steps, norm, k) == Zero()
  {
    forall s | s in steps
      ensures norm(StepKey(s)) != k
    {
      var i :| 0 <= i < |steps| && steps[i] == s;
    }
    TotalZero(steps, Only(StepEntry(), NormKey(norm), k));
  }

  lemma {:induction false} StepNamesSnoc(steps: seq<ModelActivityStep>, s: ModelActivityStep,
                                         norm: ModelKey -> ModelKey)
    ensures StepNames(steps + [s], norm) == StepNames(steps, norm) + {norm(StepKey(s))}
  {
    var longer := steps + [s];
    assert longer[|steps|] == s;
    forall k | k in StepNames(steps, norm)
      ensures k in StepNames(longer, norm)
    {
      var i :| 0 <= i < |steps| && norm(StepKey(steps[i])) == k;
      assert longer[i] == steps[i];
    }
  }

  lemma {:induction false} SliceNamesSnoc(usage: seq<UsageSlice>, slice: UsageSlice, norm: ModelKey -> ModelKey)
    ensures SliceNames(usage + [slice], norm) == SliceNames(usage, norm) + {norm(SliceKey(slice))}
  {
    var longer := usage + [slice];
    assert longer[|usage|] == slice;
    forall k | k in SliceNames(usage, norm)
      ensures k in SliceNames(longer, norm)
    {
      var i :| 0 <= i < |usage| && norm(SliceKey(usage[i])) == k;
      assert longer[i] == usage[i];
    }
  }

  lemma {:induction false} BookStepAt(books: Books, steps: seq<ModelActivityStep>, s: ModelActivityStep,
                                      norm: ModelKey -> ModelKey)
    requires BooksOf(books, steps, norm)
    ensures var k := norm(StepKey(s));
            var after := BookStep(books, k, s)[k];
            Entry(after.tokens, after.cost) == Cap(Booked(steps + [s], norm, k))
  {
    var k := norm(StepKey(s));
    BookedSnoc(steps, s, norm, k);
    if k !in books {
      NothingBooked(steps, norm, k);
    }
    var before := if k in books then books[k] else Booking(NO_TOKENS, 0.0);
    AddAssignCaps(before.tokens, before.cost, s.tokens, s.cost.amount);
  }

  lemma {:induction false} BookStepKeeps(books: Books, steps: seq<ModelActivityStep>, s: ModelActivityStep,
                                         norm: ModelKey -> ModelKey)
    requires BooksOf(books, steps, norm)
    ensures BooksOf(BookStep(books, norm(StepKey(s)), s), steps + [s], norm)
  {
    var key := norm(StepKey(s));
    var after := BookStep(books, key, s);
    StepNamesSnoc(steps, s, norm);
    forall k | k in after
      ensures Entry(after[k].tokens, after[k].cost) == Cap(Booked(steps + [s], norm, k))
    {
      if k == key {
        BookStepAt(books, steps, s, norm);
      } else {
        BookedSnoc(steps, s, norm, k);
      }
    }
  }

  /** Fills `turn_models` */
  method BookSteps(steps: seq<ModelActivityStep>, norm: ModelKey -> ModelKey) returns (books: Books)
    ensures BooksOf(books, steps, norm)
  {
    books := map[];
    for i := 0 to |steps|
      invariant BooksOf(books, steps[..i], norm)
    {
      BookStepKeeps(books, steps[..i], steps[i], norm);
      assert steps[..i + 1] == steps[..i] + [steps[i]];
      books := BookStep(books, norm(StepKey(steps[i])), steps[i]);
    }
    assert steps[..|steps|] == steps;
  }

  /** `books` is what remains of `all` once the slices `done` were taken out, each in agreement. */
  predicate Drained(all: Books, books: Books, done: seq<UsageSlice>, steps: seq<ModelActivityStep>,
                    norm: ModelKey -> ModelKey) {
    && books == all - SliceNames(done, norm)
    && SliceNames(done, norm) <= all.Keys
    && (forall i | 0 <= i < |done| :: SliceAgrees(done[i], steps, norm))
    && Apart(done, norm)
  }

  predicate BookingAgrees(booked: Booking, slice: UsageSlice) {
    booked.tokens == slice.tokens && Close(booked.cost, slice.cost.amount)
  }

  lemma {:induction false} BookingDecides(all: Books, books: Books, done: seq<UsageSlice>, slice: UsageSlice,
                                          steps: seq<ModelActivityStep>, norm: ModelKey -> ModelKey)
    requires BooksOf(all, steps, norm) && Drained(all, books, done, steps, norm)
    requires norm(SliceKey(slice)) in books
    ensures BookingAgrees(books[norm(SliceKey(slice))], slice) <==> SliceAgrees(slice, steps, norm)
  {}

  lemma {:induction false} DrainOne(all: Books, books: Books, done: seq<UsageSlice>, slice: UsageSlice,
                                    steps: seq<ModelActivityStep>, norm: ModelKey -> ModelKey)
    requires Drained(all, books, done, steps, norm)
    requires norm(SliceKey(slice)) in books && SliceAgrees(slice, steps, norm)
    ensures Drained(all, books - {norm(SliceKey(slice))}, done + [slice], steps, norm)
  {
    var key, longer := norm(SliceKey(slice)), done + [slice];
    SliceNamesSnoc(done, slice, norm);
    assert books - {key} == all - (SliceNames(done, norm) + {key});
    forall i, j | 0 <= i < j < |longer|
      ensures norm(SliceKey(longer[i])) != norm(SliceKey(longer[j]))
    {
      assert norm(SliceKey(done[i])) in SliceNames(done, norm);
    }
  }

  /** A slice whose model is not on the books (any more) */
  lemma {:induction false} SliceMissing(all: Books, books: Books, usage: seq<UsageSlice>, i: nat,
                                        steps: seq<ModelActivityStep>, norm: ModelKey -> ModelKey)
    requires i < |usage|
    requires BooksOf(all, steps, norm) && Drained(all, books, usage[..i], steps, norm)
    requires norm(SliceKey(usage[i])) !in books
    ensures !ModelsReconcile(steps, usage, norm)
  {
    var key := norm(SliceKey(usage[i]));
    assert key in SliceNames(usage, norm);
    if key in SliceNames(usage[..i], norm) {
      var j :| 0 <= j < i && norm(SliceKey(usage[..i][j])) == key;
      assert usage[..i][j] == usage[j];
    }
  }

  lemma {:induction false} SliceDisagrees(all: Books, books: Books, usage: seq<UsageSlice>, i: nat,
                                          steps: seq<ModelActivityStep>, norm: ModelKey -> ModelKey)
    requires i < |usage|
    requires BooksOf(all, steps, norm) && Drained(all, books, usage[..i], steps, norm)
    requires norm(SliceKey(usage[i])) in books && !BookingAgrees(books[norm(SliceKey(usage[i]))], usage[i])
    ensures !ModelsReconcile(steps, usage, norm)
  {
    BookingDecides(all, books, usage[..i], usage[i], steps, norm);
  }

  lemma {:induction false} DrainNext(all: Books, books: Books, usage: seq<UsageSlice>, i: nat,
                                     steps: seq<ModelActivityStep>, norm: ModelKey -> ModelKey)
    requires i < |usage|
    requires BooksOf(all, steps, norm) && Drained(all, books, usage[..i], steps, norm)
    requires norm(SliceKey(usage[i])) in books && BookingAgrees(books[norm(SliceKey(usage[i]))], usage[i])
    ensures Drained(all, books - {norm(SliceKey(usage[i]))}, usage[..i + 1], steps, norm)
  {
    BookingDecides(all, books, usage[..i], usage[i], steps, norm);
    DrainOne(all, books, usage[..i], usage[i], steps, norm);
    assert usage[..i + 1] == usage[..i] + [usage[i]];
  }

  lemma {:induction false} DrainedDry(all: Books, books: Books, usage: seq<UsageSlice>, steps: seq<ModelActivityStep>,
                                      norm: ModelKey -> ModelKey)
    requires BooksOf(all, steps, norm) && Drained(all, books, usage, steps, norm)
    ensures books == map[] <==> ModelsReconcile(steps, usage, norm)
  {
    var theirs, ours := StepNames(steps, norm), SliceNames(usage, norm);
    assert books.Keys == theirs - ours;
    assert ours <= theirs;
    if theirs - ours == {} {
      assert forall k | k in theirs :: k !in theirs - ours ==> k in ours;
    }
    assert books.Keys == {} <==> books == map[];
  }

  /** The slice's model is not in the turns, or an earlier slice has the same. */
  predicate Missing(usage: seq<UsageSlice>, i: nat, steps: seq<ModelActivityStep>, norm: ModelKey -> ModelKey)
    requires i < |usage|
  {
    var key := norm(SliceKey(usage[i]));
    key !in StepNames(steps, norm) || key in SliceNames(usage[..i], norm)
  }

  predicate InAgreement(usage: seq<UsageSlice>, i: nat, steps: seq<ModelActivityStep>, norm: ModelKey -> ModelKey)
    requires i < |usage|
  {
    !Missing(usage, i, steps, norm) && SliceAgrees(usage[i], steps, norm)
  }

  /** Slice `i` is the first one that is not in agreement. */
  predicate FirstFailure(usage: seq<UsageSlice>, i: nat, steps: seq<ModelActivityStep>, norm: ModelKey -> ModelKey) {
    && i < |usage| && !InAgreement(usage, i, steps, norm)
    && forall j | 0 <= j < i :: InAgreement(usage, j, steps, norm)
  }

  /** What the loop over the slices complains about */
  ghost predicate Complaint(verdict: Option<Mismatch>, usage: seq<UsageSlice>, steps: seq<ModelActivityStep>,
                            norm: ModelKey -> ModelKey) {
    match verdict
    case None => ModelsReconcile(steps, usage, norm)
    case Some(MissingFromTurns) =>
      exists i: nat :: FirstFailure(usage, i, steps, norm) && Missing(usage, i, steps, norm)
    case Some(ModelTotals) =>
      exists i: nat ::
        FirstFailure(usage, i, steps, norm) && !Missing(usage, i, steps, norm) && !SliceAgrees(usage[i], steps, norm)
    case Some(MissingFromSession) =>
      && (forall i | 0 <= i < |usage| :: InAgreement(usage, i, steps, norm))
      && !(StepNames(steps, norm) <= SliceNames(usage, norm))
    case Some(_) => false
  }

  lemma {:induction false} AllInAgreement(usage: seq<UsageSlice>, steps: seq<ModelActivityStep>,
                                          norm: ModelKey -> ModelKey)
    ensures ModelsReconcile(steps, usage, norm)
       <==> && (forall i | 0 <= i < |usage| :: InAgreement(usage, i, steps, norm))
            && StepNames(steps, norm) <= SliceNames(usage, norm)
  {
    if ModelsReconcile(steps, usage, norm) {
      forall i | 0 <= i < |usage|
        ensures InAgreement(usage, i, steps, norm)
      {
        assert norm(SliceKey(usage[i])) in SliceNames(usage, norm);
        assert forall m | 0 <= m < i :: usage[..i][m] == usage[m];
      }
    } else if forall i | 0 <= i < |usage| :: InAgreement(usage, i, steps, norm) {
      forall i, j | 0 <= i < j < |usage|
        ensures norm(SliceKey(usage[i])) != norm(SliceKey(usage[j]))
      {
        assert InAgreement(usage, j, steps, norm) && usage[..j][i] == usage[i];
      }
      assert forall i | 0 <= i < |usage| :: InAgreement(usage, i, steps, norm) && SliceAgrees(usage[i], steps, norm);
    }
  }

  /** The slice at which the loop stops, if it does */
  predicate StopsAtSlice(verdict: Option<Mismatch>) {
    verdict == Some(MissingFromTurns) || verdict == Some(ModelTotals)
  }

  lemma {:induction false} StoppingSlice(verdict: Option<Mismatch>, usage: seq<UsageSlice>,
                                         steps: seq<ModelActivityStep>, norm: ModelKey -> ModelKey) returns (i: nat)
    requires Complaint(verdict, usage, steps, norm) && StopsAtSlice(verdict)
    ensures FirstFailure(usage, i, steps, norm)
    ensures verdict == Some(MissingFromTurns) <==> Missing(usage, i, steps, norm)
  {
    if verdict == Some(MissingFromTurns) {
      i :| FirstFailure(usage, i, steps, norm) && Missing(usage, i, steps, norm);
    } else {
      i :| FirstFailure(usage, i, steps, norm) && !Missing(usage, i, steps, norm);
    }
  }

  /** There is only one thing to complain about. */
  lemma {:induction false} ComplaintIsUnique(a: Option<Mismatch>, b: Option<Mismatch>, usage: seq<UsageSlice>,
                                             steps: seq<ModelActivityStep>, norm: ModelKey -> ModelKey)
    requires Complaint(a, usage, steps, norm) && Complaint(b, usage, steps, norm)
    ensures a == b
  {
    AllInAgreement(usage, steps, norm);
    if StopsAtSlice(a) {
      var i := StoppingSlice(a, usage, steps, norm);
      if StopsAtSlice(b) {
        var j := StoppingSlice(b, usage, steps, norm);
        assert i == j;
      }
    } else if StopsAtSlice(b) {
      var j := StoppingSlice(b, usage, steps, norm);
    }
  }

  lemma {:induction false} DrainedAgrees(all: Books, books: Books, usage: seq<UsageSlice>, i: nat,
                                         steps: seq<ModelActivityStep>, norm: ModelKey -> ModelKey)
    requires i <= |usage| && BooksOf(all, steps, norm) && Drained(all, books, usage[..i], steps, norm)
    ensures forall j | 0 <= j < i :: InAgreement(usage, j, steps, norm)
    ensures i < |usage| ==> (norm(SliceKey(usage[i])) !in books <==> Missing(usage, i, steps, norm))
  {
    forall j | 0 <= j < i
      ensures InAgreement(usage, j, steps, norm)
    {
      var done := usage[..i];
      assert done[j] == usage[j] && done[..j] == usage[..j];
      assert SliceAgrees(done[j], steps, norm) && norm(SliceKey(done[j])) in SliceNames(done, norm);
    }
  }

  /** Empties `turn_models`, slice by slice.  It runs dry without a complaint exactly when the
      session's slices and the booked turns are in one-to-one agreement. */
  method DrainSlices(all: Books, usage: seq<UsageSlice>, ghost steps: seq<ModelActivityStep>,
                     norm: ModelKey -> ModelKey)
    returns (verdict: Option<Mismatch>)
    requires BooksOf(all, steps, norm)
    ensures verdict == None <==> ModelsReconcile(steps, usage, norm)
    ensures Complaint(verdict, usage, steps, norm)
  {
    var books := all;
    for i := 0 to |usage|
      invariant Drained(all, books, usage[..i], steps, norm)
    {
      var key := norm(SliceKey(usage[i]));
      DrainedAgrees(all, books, usage, i, steps, norm);
      if key !in books {
        SliceMissing(all, books, usage, i, steps, norm);
        assert FirstFailure(usage, i, steps, norm);
        return Some(MissingFromTurns);
      }
      if !BookingAgrees(books[key], usage[i]) {
        SliceDisagrees(all, books, usage, i, steps, norm);
        BookingDecides(all, books, usage[..i], usage[i], steps, norm);
        assert FirstFailure(usage, i, steps, norm);
        return Some(ModelTotals);
      }
      DrainNext(all, books, usage, i, steps, norm);
      books := books - {key};
    }
    assert usage[..|usage|] == usage;
    DrainedAgrees(all, books, usage, |usage|, steps, norm);
    DrainedDry(all, books, usage, steps, norm);
    if books != map[] {
      DrainedRest(all, books, usage, steps, norm);
      return Some(MissingFromSession);
    }
    return None;
  }

  lemma {:induction false} DrainedRest(all: Books, books: Books, usage: seq<UsageSlice>, steps: seq<ModelActivityStep>,
                                       norm: ModelKey -> ModelKey)
    requires BooksOf(all, steps, norm) && Drained(all, books, usage, steps, norm) && books != map[]
    ensures !(StepNames(steps, norm) <= SliceNames(usage, norm))
  {
    assert books.Keys != {};
    var k :| k in books.Keys;
    assert k in StepNames(steps, norm) && k !in SliceNames(usage, norm);
  }

  /** The loop over `windows(2)` */
  method CheckTurnOrder(turns: seq<TurnSnapshot>) returns (ok: bool)
    ensures ok <==> TurnsInOrder(turns)
  {
    if |turns| == 0 {
      return true;
    }
    for i := 1 to |turns|
      invariant forall a, b | 0 <= a < b < i :: turns[a].sequence < turns[b].sequence
    {
      if turns[i - 1].sequence >= turns[i].sequence {
        return false;
      }
    }
    return true;
  }

  method CheckStepOrder(steps: seq<ModelActivityStep>) returns (ok: bool)
    ensures ok <==> StepsInOrder(steps)
  {
    if |steps| == 0 {
      return true;
    }
    for i := 1 to |steps|
      invariant forall a, b | 0 <= a < b < i :: steps[a].sequence < steps[b].sequence
    {
      if steps[i - 1].sequence >= steps[i].sequence {
        return false;
      }
    }
    return true;
  }

  lemma {:induction false} InOrderMeans(turns: seq<TurnSnapshot>)
    ensures InOrder(turns)
       <==> && (forall i, j | 0 <= i < j < |turns| :: turns[i].sequence < turns[j].sequence)
            && (forall t, i, j | 0 <= t < |turns| && 0 <= i < j < |turns[t].modelActivity| ::
                  turns[t].modelActivity[i].sequence < turns[t].modelActivity[j].sequence)
  {
    if forall t | 0 <= t < |turns| :: StepsInOrder(turns[t].modelActivity) {
      forall turn | turn in turns
        ensures StepsInOrder(turn.modelActivity)
      {
        var t :| 0 <= t < |turns| && turns[t] == turn;
      }
    } else {
      var t :| 0 <= t < |turns| && !StepsInOrder(turns[t].modelActivity);
      assert turns[t] in turns;
    }
  }

  /** The same demands, spelled out: costs agree to within a millionth in either direction, in all
      and for every model. */
  lemma {:induction false} ReconcilesMeans(turns: seq<TurnSnapshot>, usage: seq<UsageSlice>, norm: ModelKey -> ModelKey)
    ensures Reconciles(turns, usage, norm)
       <==> && TurnTokens(turns) == SliceTokens(usage)
            && -0.000001 <= TurnCost(turns) - SliceCost(usage) <= 0.000001
            && (forall i, j | 0 <= i < j < |turns| :: turns[i].sequence < turns[j].sequence)
            && (forall t, i, j | 0 <= t < |turns| && 0 <= i < j < |turns[t].modelActivity| ::
                  turns[t].modelActivity[i].sequence < turns[t].modelActivity[j].sequence)
            && (forall i, j | 0 <= i < j < |usage| :: norm(SliceKey(usage[i])) != norm(SliceKey(usage[j])))
            && StepNames(AllSteps(turns), norm) == SliceNames(usage, norm)
            && (forall i | 0 <= i < |usage| ::
                  var booked := Booked(AllSteps(turns), norm, norm(SliceKey(usage[i])));
                  && Entry(usage[i].tokens, booked.cost) == Cap(booked)
                  && -0.000001 <= booked.cost - usage[i].cost.amount <= 0.000001)
  {
    InOrderMeans(turns);
  }

  /** The reconciliation block of `validate_snapshot`: it passes a snapshot exactly when both
      accounts of the session agree - costs to within a millionth in either direction, in all and
      for every model - and otherwise names the first test that failed. */
  method CheckReconciliation(turns: seq<TurnSnapshot>, usage: seq<UsageSlice>, norm: ModelKey -> ModelKey)
    returns (verdict: Option<Mismatch>)
    ensures verdict == None <==> Reconciles(turns, usage, norm)
    ensures verdict == Some(TokenTotals) <==> TurnTokens(turns) != SliceTokens(usage)
    ensures verdict == Some(CostTotals) <==>
            TurnTokens(turns) == SliceTokens(usage) && !Close(TurnCost(turns), SliceCost(usage))
    ensures verdict == Some(TurnOrder) <==> TotalsReconcile(turns, usage) && !TurnsInOrder(turns)
    ensures verdict == Some(StepOrder) <==> TotalsReconcile(turns, usage) && TurnsInOrder(turns) && !InOrder(turns)
    ensures TotalsReconcile(turns, usage) && InOrder(turns) ==> Complaint(verdict, usage, AllSteps(turns), norm)
    ensures verdict == None
       <==> && TurnTokens(turns) == SliceTokens(usage)
            && -0.000001 <= TurnCost(turns) - SliceCost(usage) <= 0.000001
            && (forall i, j | 0 <= i < j < |turns| :: turns[i].sequence < turns[j].sequence)
            && (forall t, i, j | 0 <= t < |turns| && 0 <= i < j < |turns[t].modelActivity| ::
                  turns[t].modelActivity[i].sequence < turns[t].modelActivity[j].sequence)
            && (forall i, j | 0 <= i < j < |usage| :: norm(SliceKey(usage[i])) != norm(SliceKey(usage[j])))
            && StepNames(AllSteps(turns), norm) == SliceNames(usage, norm)
            && (forall i | 0 <= i < |usage| ::
                  var booked := Booked(AllSteps(turns), norm, norm(SliceKey(usage[i])));
                  && Entry(usage[i].tokens, booked.cost) == Cap(booked)
                  && -0.000001 <= booked.cost - usage[i].cost.amount <= 0.000001)
    ensures TurnCost(turns) - SliceCost(usage) < -0.000001 || TurnCost(turns) - SliceCost(usage) > 0.000001 ==>
              verdict == Some(TokenTotals) || verdict == Some(CostTotals)
    ensures forall i | 0 <= i < |usage| ::
              var gap := Booked(AllSteps(turns), norm, norm(SliceKey(usage[i]))).cost - usage[i].cost.amount;
              gap < -0.000001 || gap > 0.000001 ==> verdict != None
  {
    ReconcilesMeans(turns, usage, norm);
    if TurnTokens(turns) != SliceTokens(usage) {
      return Some(TokenTotals);
    }
    if !Close(TurnCost(turns), SliceCost(usage)) {
      return Some(CostTotals);
    }
    var ordered := CheckTurnOrder(turns);
    if !ordered {
      return Some(TurnOrder);
    }
    for i := 0 to |turns|
      invariant forall j | 0 <= j < i :: StepsInOrder(turns[j].modelActivity)
    {
      ordered := CheckStepOrder(turns[i].modelActivity);
      if !ordered {
        assert turns[i] in turns;
        return Some(StepOrder);
      }
    }
    var steps := AllSteps(turns);
    var books := BookSteps(steps, norm);
    verdict := DrainSlices(books, usage, steps, norm);
  }

  /* ---- The client's snapshots ---- */

  /** `usage` lists the values of the map, each once, in some order. */
  predicate Lists(usage: seq<UsageSlice>, slices: SliceMap) {
    && (forall i, j | 0 <= i < j < |usage| :: SliceKey(usage[i]) != SliceKey(usage[j]))
    && (forall slice | slice in usage :: SliceKey(slice) in slices && slices[SliceKey(slice)] == slice)
    && (forall k | k in slices :: slices[k] in usage)
  }

  /** The normalization keeps the session's models apart. */
  ghost predicate InjectiveOn(norm: ModelKey -> ModelKey, cs: seq<ModelCall>) {
    forall c, d | c in cs && d in cs && norm(c.key) == norm(d.key) :: c.key == d.key
  }

  function Is(k: ModelKey): ModelKey -> bool {
    (x: ModelKey) => x == k
  }

  function Any(): ModelKey -> bool {
    (x: ModelKey) => true
  }

  lemma {:induction false} BookedIsUsed(cs: seq<ModelCall>, norm: ModelKey -> ModelKey, k: ModelKey)
    requires |cs| <= U32_MAX && InjectiveOn(norm, cs)
    requires exists c :: c in cs && c.key == k
    ensures CappedFrom(Booked(AllSteps(SessionTurns(cs)), norm, norm(k)), UsedBy(cs, k))
  {
    var steps := AllSteps(SessionTurns(cs));
    forall s | s in steps
      ensures Only(StepEntry(), NormKey(norm), norm(k))(s) == StepMeter(Is(k))(s)
    {
      SessionStepKeys(cs, StepKey(s));
    }
    TotalCongruence(steps, Only(StepEntry(), NormKey(norm), norm(k)), StepMeter(Is(k)));
    SessionTurnsConserve(cs, Is(k));
    TotalCongruence(cs, CallMeter(Is(k)), Only(CallEntry(), ByModel(), k));
  }

  lemma {:induction false} ListedSlice(cs: seq<ModelCall>, usage: seq<UsageSlice>, slice: UsageSlice)
    requires Lists(usage, Aggregate(cs)) && slice in usage
    ensures SumsUp(slice, cs, SliceKey(slice))
    ensures exists c :: c in cs && c.key == SliceKey(slice)
  {
    AggregateSumsUp(cs, SliceKey(slice));
  }

  lemma {:induction false} ListedModel(cs: seq<ModelCall>, usage: seq<UsageSlice>, c: ModelCall)
    requires Lists(usage, Aggregate(cs)) && c in cs
    ensures exists slice :: slice in usage && SliceKey(slice) == c.key
  {
    AggregateSumsUp(cs, c.key);
    assert Aggregate(cs)[c.key] in usage;
  }

  lemma {:induction false} SlicesAgree(cs: seq<ModelCall>, usage: seq<UsageSlice>, norm: ModelKey -> ModelKey,
                                       slice: UsageSlice)
    requires |cs| <= U32_MAX && InjectiveOn(norm, cs)
    requires Lists(usage, Aggregate(cs)) && slice in usage
    ensures SliceAgrees(slice, AllSteps(SessionTurns(cs)), norm)
  {
    ListedSlice(cs, usage, slice);
    BookedIsUsed(cs, norm, SliceKey(slice));
  }

  lemma {:induction false} StepNameIsUsed(cs: seq<ModelCall>, i: nat)
    requires |cs| <= U32_MAX && i < |AllSteps(SessionTurns(cs))|
    ensures exists c :: c in cs && c.key == StepKey(AllSteps(SessionTurns(cs))[i])
  {
    var steps := AllSteps(SessionTurns(cs));
    assert steps[i] in steps;
    SessionStepKeys(cs, StepKey(steps[i]));
  }

  lemma {:induction false} UsedIsStepName(cs: seq<ModelCall>, norm: ModelKey -> ModelKey, c: ModelCall)
    requires |cs| <= U32_MAX && c in cs
    ensures norm(c.key) in StepNames(AllSteps(SessionTurns(cs)), norm)
  {
    var steps := AllSteps(SessionTurns(cs));
    SessionStepKeys(cs, c.key);
    var s :| s in steps && StepKey(s) == c.key;
    var i :| 0 <= i < |steps| && steps[i] == s;
  }

  lemma {:induction false} ListedAt(cs: seq<ModelCall>, usage: seq<UsageSlice>, c: ModelCall) returns (i: nat)
    requires Lists(usage, Aggregate(cs)) && c in cs
    ensures i < |usage| && SliceKey(usage[i]) == c.key
  {
    ListedModel(cs, usage, c);
    i :| 0 <= i < |usage| && SliceKey(usage[i]) == c.key;
  }

  /** Turns and slices name the same models, however names are normalized. */
  lemma {:induction false} ClientNamesAgree(cs: seq<ModelCall>, usage: seq<UsageSlice>, norm: ModelKey -> ModelKey)
    requires |cs| <= U32_MAX && Lists(usage, Aggregate(cs))
    ensures StepNames(AllSteps(SessionTurns(cs)), norm) == SliceNames(usage, norm)
  {
    var steps := AllSteps(SessionTurns(cs));
    forall i | 0 <= i < |steps|
      ensures norm(StepKey(steps[i])) in SliceNames(usage, norm)
    {
      StepNameIsUsed(cs, i);
      var c :| c in cs && c.key == StepKey(steps[i]);
      var j := ListedAt(cs, usage, c);
    }
    forall i | 0 <= i < |usage|
      ensures norm(SliceKey(usage[i])) in StepNames(steps, norm)
    {
      ListedSlice(cs, usage, usage[i]);
      var c :| c in cs && c.key == SliceKey(usage[i]);
      UsedIsStepName(cs, norm, c);
    }
  }

  lemma {:induction false} ClientApart(cs: seq<ModelCall>, usage: seq<UsageSlice>, norm: ModelKey -> ModelKey)
    requires |cs| <= U32_MAX && Lists(usage, Aggregate(cs))
    ensures Apart(usage, norm) <==> InjectiveOn(norm, cs)
  {
    if InjectiveOn(norm, cs) {
      forall i, j | 0 <= i < j < |usage|
        ensures norm(SliceKey(usage[i])) != norm(SliceKey(usage[j]))
      {
        ListedSlice(cs, usage, usage[i]);
        ListedSlice(cs, usage, usage[j]);
      }
    } else {
      var c, d :| c in cs && d in cs && norm(c.key) == norm(d.key) && c.key != d.key;
      var i := ListedAt(cs, usage, c);
      var j := ListedAt(cs, usage, d);
      assert norm(SliceKey(usage[i])) == norm(SliceKey(usage[j])) && i != j;
    }
  }

  /** Model by model, both accounts agree - even where additions saturate - if and only if the
      server's normalization does not merge two of the session's models. */
  lemma {:induction false} ClientModelsReconcile(cs: seq<ModelCall>, usage: seq<UsageSlice>, norm: ModelKey -> ModelKey)
    requires |cs| <= U32_MAX && Lists(usage, Aggregate(cs))
    ensures ModelsReconcile(AllSteps(SessionTurns(cs)), usage, norm) <==> InjectiveOn(norm, cs)
  {
    ClientApart(cs, usage, norm);
    ClientNamesAgree(cs, usage, norm);
    if InjectiveOn(norm, cs) {
      forall i | 0 <= i < |usage|
        ensures SliceAgrees(usage[i], AllSteps(SessionTurns(cs)), norm)
      {
        SlicesAgree(cs, usage, norm, usage[i]);
      }
    }
  }

  /* ---- Grand totals ---- */

  lemma {:induction false} StepTotals(steps: seq<ModelActivityStep>)
    ensures StepCost(steps) == Total(steps, StepEntry()).cost
    ensures Total(steps, StepEntry()).Grand() <= U64_MAX ==> StepTokens(steps) == Total(steps, StepEntry()).Grand()
  {
    if steps != [] {
      var front, s := steps[..|steps| - 1], steps[|steps| - 1];
      assert steps == front + [s];
      StepTotals(front);
      TotalSnoc(front, s, StepEntry());
      TotalCaps(s.tokens, s.cost.amount);
    }
  }

  lemma {:induction false} TurnTotals(turns: seq<TurnSnapshot>)
    ensures TurnCost(turns) == Total(AllSteps(turns), StepEntry()).cost
    ensures Total(AllSteps(turns), StepEntry()).Grand() <= U64_MAX ==>
              TurnTokens(turns) == Total(AllSteps(turns), StepEntry()).Grand()
  {
    if turns != [] {
      var front, turn := turns[..|turns| - 1], turns[|turns| - 1];
      TurnTotals(front);
      StepTotals(turn.modelActivity);
      TotalAppend(AllSteps(front), turn.modelActivity, StepEntry());
    }
  }

  lemma {:induction false} SliceTotals(usage: seq<UsageSlice>)
    ensures SliceCost(usage) == Total(usage, SliceEntry()).cost
    ensures Total(usage, SliceEntry()).Grand() <= U64_MAX ==> SliceTokens(usage) == Total(usage, SliceEntry()).Grand()
  {
    if usage != [] {
      var front, slice := usage[..|usage| - 1], usage[|usage| - 1];
      assert usage == front + [slice];
      SliceTotals(front);
      TotalSnoc(front, slice, SliceEntry());
      TotalCaps(slice.tokens, slice.cost.amount);
    }
  }

  function TotalsOf(steps: seq<ModelActivityStep>): (r: seq<nat>)
    ensures |r| == |steps|
    ensures forall i | 0 <= i < |steps| :: r[i] == steps[i].tokens.Total()
  {
    seq(|steps|, i requires 0 <= i < |steps| => steps[i].tokens.Total())
  }

  lemma {:induction false} WrapsAround(x: nat, b: u64)
    ensures WrapAdd(x % 0x1_0000_0000_0000_0000, b) == (x + b) % 0x1_0000_0000_0000_0000
  {}

  lemma {:induction false} TotalsSnoc(steps: seq<ModelActivityStep>, s: ModelActivityStep)
    ensures Sum(TotalsOf(steps + [s])) == Sum(TotalsOf(steps)) + s.tokens.Total()
  {
    assert TotalsOf(steps + [s]) == TotalsOf(steps) + [s.tokens.Total()];
    SumSnoc(TotalsOf(steps), s.tokens.Total());
  }

  lemma {:induction false} StepTokensWrap(steps: seq<ModelActivityStep>)
    ensures StepTokens(steps) == Sum(TotalsOf(steps)) % 0x1_0000_0000_0000_0000
  {
    if steps != [] {
      var front, s := steps[..|steps| - 1], steps[|steps| - 1];
      assert steps == front + [s];
      StepTokensWrap(front);
      TotalsSnoc(front, s);
      WrapsAround(Sum(TotalsOf(front)), s.tokens.Total());
    }
  }

  lemma {:induction false} TotalsAppend(a: seq<ModelActivityStep>, b: seq<ModelActivityStep>)
    ensures Sum(TotalsOf(a + b)) == Sum(TotalsOf(a)) + Sum(TotalsOf(b))
  {
    assert TotalsOf(a + b) == TotalsOf(a) + TotalsOf(b);
    SumAppend(TotalsOf(a), TotalsOf(b));
  }

  lemma {:induction false} WrapsTogether(a: u64, b: u64, x: nat, y: nat)
    requires a == x % 0x1_0000_0000_0000_0000 && b == y % 0x1_0000_0000_0000_0000
    ensures WrapAdd(a, b) == (x + y) % 0x1_0000_0000_0000_0000
  {}

  /** The token totals of the turns are added up modulo 2^64. */
  lemma {:induction false} TurnTokensWrap(turns: seq<TurnSnapshot>)
    ensures TurnTokens(turns) == Sum(TotalsOf(AllSteps(turns))) % 0x1_0000_0000_0000_0000
  {
    if turns != [] {
      var front, turn := turns[..|turns| - 1], turns[|turns| - 1];
      var before, more := Sum(TotalsOf(AllSteps(front))), Sum(TotalsOf(turn.modelActivity));
      TurnTokensWrap(front);
      StepTokensWrap(turn.modelActivity);
      TotalsAppend(AllSteps(front), turn.modelActivity);
      WrapsTogether(TurnTokens(front), StepTokens(turn.modelActivity), before, more);
    }
  }

  function SliceTotalsOf(usage: seq<UsageSlice>): (r: seq<nat>)
    ensures |r| == |usage|
    ensures forall i | 0 <= i < |usage| :: r[i] == usage[i].tokens.Total()
  {
    seq(|usage|, i requires 0 <= i < |usage| => usage[i].tokens.Total())
  }

  lemma {:induction false} SliceTotalsSnoc(usage: seq<UsageSlice>, slice: UsageSlice)
    ensures Sum(SliceTotalsOf(usage + [slice])) == Sum(SliceTotalsOf(usage)) + slice.tokens.Total()
  {
    assert SliceTotalsOf(usage + [slice]) == SliceTotalsOf(usage) + [slice.tokens.Total()];
    SumSnoc(SliceTotalsOf(usage), slice.tokens.Total());
  }

  /** And so are those of the slices. */
  lemma {:induction false} SliceTokensWrap(usage: seq<UsageSlice>)
    ensures SliceTokens(usage) == Sum(SliceTotalsOf(usage)) % 0x1_0000_0000_0000_0000
  {
    if usage != [] {
      var front, slice := usage[..|usage| - 1], usage[|usage| - 1];
      assert usage == front + [slice];
      SliceTokensWrap(front);
      SliceTotalsSnoc(front, slice);
      WrapsAround(Sum(SliceTotalsOf(front)), slice.tokens.Total());
    }
  }

  function SliceKeys(usage: seq<UsageSlice>): (ks: seq<ModelKey>)
    ensures |ks| == |usage|
    ensures forall i | 0 <= i < |usage| :: ks[i] == SliceKey(usage[i])
  {
    seq(|usage|, i requires 0 <= i < |usage| => SliceKey(usage[i]))
  }

  lemma {:induction false} SlicesConserve(cs: seq<ModelCall>, usage: seq<UsageSlice>)
    requires forall slice | slice in usage :: SumsUp(slice, cs, SliceKey(slice))
    ensures CappedFrom(Total(usage, SliceEntry()), Total(SliceKeys(usage), ClassTotal(cs, CallEntry(), ByModel())))
  {
    if usage != [] {
      var slice, rest, g := usage[0], usage[1..], ClassTotal(cs, CallEntry(), ByModel());
      SlicesConserve(cs, rest);
      assert SliceKeys(usage)[1..] == SliceKeys(rest);
      CappedFromPlus(SliceEntry()(slice), g(SliceKey(slice)), Total(rest, SliceEntry()), Total(SliceKeys(rest), g));
    }
  }

  lemma {:induction false} ListedSlicesConserve(cs: seq<ModelCall>, usage: seq<UsageSlice>)
    requires Lists(usage, Aggregate(cs))
    ensures CappedFrom(Total(usage, SliceEntry()), Total(cs, CallEntry()))
  {
    forall slice | slice in usage
      ensures SumsUp(slice, cs, SliceKey(slice))
    {
      ListedSlice(cs, usage, slice);
    }
    SlicesConserve(cs, usage);
    forall c | c in cs
      ensures ByModel()(c) in SliceKeys(usage)
    {
      ListedModel(cs, usage, c);
      var i :| 0 <= i < |usage| && SliceKey(usage[i]) == c.key;
      assert SliceKeys(usage)[i] == c.key;
    }
    TotalByClass(cs, CallEntry(), ByModel(), SliceKeys(usage));
  }

  lemma {:induction false} TurnsHoldEverything(cs: seq<ModelCall>)
    requires |cs| <= U32_MAX
    ensures CappedFrom(Total(AllSteps(SessionTurns(cs)), StepEntry()), Total(cs, CallEntry()))
  {
    SessionTurnsConserve(cs, Any());
    TotalCongruence(cs, CallMeter(Any()), CallEntry());
    TotalCongruence(AllSteps(SessionTurns(cs)), StepMeter(Any()), StepEntry());
  }

  /** Money always agrees; tokens agree as long as the session's total is a `u64`. */
  lemma {:induction false} ClientTotalsReconcile(cs: seq<ModelCall>, usage: seq<UsageSlice>)
    requires |cs| <= U32_MAX && Lists(usage, Aggregate(cs))
    ensures TurnCost(SessionTurns(cs)) == SliceCost(usage) == Total(cs, CallEntry()).cost
    ensures Total(cs, CallEntry()).Grand() <= U64_MAX ==>
              TurnTokens(SessionTurns(cs)) == SliceTokens(usage) == Total(cs, CallEntry()).Grand()
  {
    TurnsHoldEverything(cs);
    ListedSlicesConserve(cs, usage);
    TurnTotals(SessionTurns(cs));
    SliceTotals(usage);
  }

  lemma {:induction false} ClientInOrder(cs: seq<ModelCall>)
    requires |cs| <= U32_MAX
    ensures InOrder(SessionTurns(cs))
  {
    var turns, numbers := SessionTurns(cs), TurnNumbers(cs);
    TurnsOfLength(cs, numbers);
    forall i | 0 <= i < |turns|
      ensures turns[i].sequence == numbers[i]
      ensures StepsInOrder(turns[i].modelActivity)
    {
      TurnAt(cs, numbers, i);
      StepsCompactRuns(ActivityOrder(InTurn(cs, numbers[i])));
    }
  }

  /** End to end: whatever a session's messages are, the snapshot that the client builds passes
      the server's check if and only if the server's normalization keeps the session's models
      apart (and the session's tokens fit a `u64`). */
  lemma {:induction false} ClientSnapshotReconciles(cs: seq<ModelCall>, usage: seq<UsageSlice>,
                                                    norm: ModelKey -> ModelKey)
    requires |cs| <= U32_MAX && Lists(usage, Aggregate(cs))
    requires Total(cs, CallEntry()).Grand() <= U64_MAX
    ensures Reconciles(SessionTurns(cs), usage, norm) <==> InjectiveOn(norm, cs)
  {
    ClientTotalsReconcile(cs, usage);
    ClientInOrder(cs);
    ClientModelsReconcile(cs, usage, norm);
  }
}
