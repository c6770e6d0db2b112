/** `turn_from_messages`: the model activity of one turn. */
module Turns {
  /* The calls are compacted into runs of calls to the same model, and the workflow signals seen
     during each run are counted. */

  import opened Ledgers
  import opened Sequences
  import opened Usage

  /* ---- Activity order ---- */

  /** Inserts `c` behind every message that does not come after it. */
  function Insert(sorted: seq<ModelCall>, c: ModelCall): (r: seq<ModelCall>)
    ensures |r| == |sorted| + 1
  {
    if sorted != [] && c.activity < sorted[|sorted| - 1].activity
    then Insert(sorted[..|sorted| - 1], c) + [sorted[|sorted| - 1]]
    else sorted + [c]
  }

  /** `sort_by_key(|m| m.activity_sequence)`: a stable sort. */
  function ActivityOrder(cs: seq<ModelCall>): (ordered: seq<ModelCall>)
    ensures |ordered| == |cs|
  {
    if cs == [] then [] else Insert(ActivityOrder(cs[..|cs| - 1]), cs[|cs| - 1])
  }

  predicate InActivityOrder(cs: seq<ModelCall>) {
    forall i, j | 0 <= i < j < |cs| :: cs[i].activity <= cs[j].activity
  }

  function At(cs: seq<ModelCall>, number: nat): seq<ModelCall> {
    if cs == [] then []
    else At(cs[..|cs| - 1], number)
         + if cs[|cs| - 1].activity == number then [cs[|cs| - 1]] else []
  }

  lemma {:induction false} AtSnoc(cs: seq<ModelCall>, c: ModelCall, number: nat)
    ensures At(cs + [c], number) == At(cs, number) + if c.activity == number then [c] else []
  {
    assert (cs + [c])[..|cs|] == cs;
  }

  predicate NoneAfter(cs: seq<ModelCall>, c: ModelCall) {
    forall i | 0 <= i < |cs| :: cs[i].activity <= c.activity
  }

  lemma {:induction false} SnocInOrder(cs: seq<ModelCall>, c: ModelCall)
    ensures InActivityOrder(cs + [c]) <==> InActivityOrder(cs) && NoneAfter(cs, c)
  {
    var longer := cs + [c];
    if InActivityOrder(longer) {
      assert forall i, j | 0 <= i < j < |cs| :: longer[i] == cs[i] && longer[j] == cs[j];
      assert forall i | 0 <= i < |cs| :: longer[i] == cs[i] && longer[|cs|] == c;
    }
  }

  lemma {:induction false} InsertStaysBelow(sorted: seq<ModelCall>, c: ModelCall, last: ModelCall)
    requires NoneAfter(sorted, last) && c.activity <= last.activity
    ensures NoneAfter(Insert(sorted, c), last)
  {
    if sorted != [] && c.activity < sorted[|sorted| - 1].activity {
      InsertStaysBelow(sorted[..|sorted| - 1], c, last);
    }
  }

  lemma {:induction false} InsertSorts(sorted: seq<ModelCall>, c: ModelCall)
    requires InActivityOrder(sorted)
    ensures InActivityOrder(Insert(sorted, c))
    ensures multiset(Insert(sorted, c)) == multiset(sorted) + multiset{c}
  {
    if sorted != [] && c.activity < sorted[|sorted| - 1].activity {
      var front, last := sorted[..|sorted| - 1], sorted[|sorted| - 1];
      assert sorted == front + [last];
      SnocInOrder(front, last);
      InsertSorts(front, c);
      InsertStaysBelow(front, c, last);
      SnocInOrder(Insert(front, c), last);
    } else {
      SnocInOrder(sorted, c);
    }
  }

  lemma {:induction false} InsertIsStable(sorted: seq<ModelCall>, c: ModelCall, number: nat)
    requires InActivityOrder(sorted)
    ensures At(Insert(sorted, c), number) == At(sorted + [c], number)
  {
    if sorted != [] && c.activity < sorted[|sorted| - 1].activity {
      var front, last := sorted[..|sorted| - 1], sorted[|sorted| - 1];
      assert sorted == front + [last];
      SnocInOrder(front, last);
      InsertIsStable(front, c, number);
      AtSnoc(sorted, c, number);
      AtSnoc(Insert(front, c), last, number);
      AtSnoc(front, c, number);
      AtSnoc(front, last, number);
    }
  }

  /** The result is ordered and holds the same messages. */
  lemma {:induction false} ActivityOrderSorts(cs: seq<ModelCall>)
    ensures InActivityOrder(ActivityOrder(cs))
    ensures multiset(ActivityOrder(cs)) == multiset(cs)
  {
    if cs != [] {
      var front, last := cs[..|cs| - 1], cs[|cs| - 1];
      ActivityOrderSorts(front);
      InsertSorts(ActivityOrder(front), last);
      assert cs == front + [last];
    }
  }

  /** Messages of one activity number stay in their given order; with the order and the contents
      this determines the result. */
  lemma {:induction false} ActivityOrderIsStable(cs: seq<ModelCall>, number: nat)
    ensures At(ActivityOrder(cs), number) == At(cs, number)
  {
    if cs != [] {
      var front, last := cs[..|cs| - 1], cs[|cs| - 1];
      ActivityOrderIsStable(front, number);
      ActivityOrderSorts(front);
      InsertIsStable(ActivityOrder(front), last, number);
      AtSnoc(ActivityOrder(front), last, number);
    }
  }

  /* ---- Runs ---- */

  /** `as u32` */
  function AsU32(n: nat): (r: u32)
    ensures n <= U32_MAX ==> r == n
  {
    n % (U32_MAX + 1)
  }

  function Start(position: nat, c: ModelCall): ModelActivityStep {
    ModelActivityStep(AsU32(position), c.key.provider, c.key.model, c.tokens, c.cost, 1)
  }

  function Extend(step: ModelActivityStep, c: ModelCall): ModelActivityStep {
    step.(tokens := AddAssign(step.tokens, c.tokens),
          cost := step.cost.(amount := step.cost.amount + c.cost.amount),
          callCount := Min(step.callCount + 1, U32_MAX))
  }

  predicate Continues(steps: seq<ModelActivityStep>, c: ModelCall) {
    steps != [] && StepKey(steps[|steps| - 1]) == c.key
  }

  function AddMessage(steps: seq<ModelActivityStep>, c: ModelCall): seq<ModelActivityStep> {
    if Continues(steps, c) then steps[|steps| - 1 := Extend(steps[|steps| - 1], c)]
    else steps + [Start(|steps|, c)]
  }

  function Steps(cs: seq<ModelCall>): (steps: seq<ModelActivityStep>)
    ensures |steps| <= |cs|
  {
    if cs == [] then [] else AddMessage(Steps(cs[..|cs| - 1]), cs[|cs| - 1])
  }

  function AddCall(runs: seq<seq<ModelCall>>, c: ModelCall): seq<seq<ModelCall>> {
    if runs != [] && runs[|runs| - 1] != [] && runs[|runs| - 1][0].key == c.key
    then runs[..|runs| - 1] + [runs[|runs| - 1] + [c]]
    else runs + [[c]]
  }

  /** The maximal stretches of calls to one model. */
  function Runs(cs: seq<ModelCall>): seq<seq<ModelCall>> {
    if cs == [] then [] else AddCall(Runs(cs[..|cs| - 1]), cs[|cs| - 1])
  }

  predicate IsRun(run: seq<ModelCall>) {
    run != [] && forall c | c in run :: c.key == run[0].key
  }

  predicate Switches(runs: seq<seq<ModelCall>>, i: nat)
    requires 0 < i < |runs|
  {
    runs[i - 1] != [] && runs[i] != [] && runs[i - 1][0].key != runs[i][0].key
  }

  predicate AreMaximalRuns(runs: seq<seq<ModelCall>>) {
    && (forall i | 0 <= i < |runs| :: IsRun(runs[i]))
    && (forall i | 0 < i < |runs| :: Switches(runs, i))
  }

  /** `step` is what a run of messages compacts to: its model, its number of calls, the cost
      description of its first call and the (saturated) sums of tokens and money. */
  predicate Compacts(step: ModelActivityStep, run: seq<ModelCall>) {
    && IsRun(run)
    && StepKey(step) == run[0].key
    && step.callCount == |run|
    && step.cost == run[0].cost.(amount := step.cost.amount)
    && Entry(step.tokens, step.cost.amount) == Cap(Total(run, CallEntry()))
  }

  lemma {:induction false} LongerRun(runs: seq<seq<ModelCall>>, run: seq<ModelCall>, c: ModelCall)
    requires AreMaximalRuns(runs + [run]) && run != [] && run[0].key == c.key
    ensures AreMaximalRuns(runs + [run + [c]])
    ensures Concat(runs + [run + [c]]) == Concat(runs + [run]) + [c]
  {
    var before, after := runs + [run], runs + [run + [c]];
    ConcatSnoc(runs, run);
    ConcatSnoc(runs, run + [c]);
    assert IsRun(before[|runs|]);
    forall i | 0 <= i < |after|
      ensures IsRun(after[i])
      ensures 0 < i ==> Switches(after, i)
    {
      assert IsRun(before[i]) && (0 < i ==> Switches(before, i));
    }
  }

  lemma {:induction false} NewRun(runs: seq<seq<ModelCall>>, c: ModelCall)
    requires AreMaximalRuns(runs)
    requires runs != [] && runs[|runs| - 1] != [] ==> runs[|runs| - 1][0].key != c.key
    ensures AreMaximalRuns(runs + [[c]])
    ensures Concat(runs + [[c]]) == Concat(runs) + [c]
  {
    var after := runs + [[c]];
    ConcatSnoc(runs, [c]);
    forall i | 0 <= i < |after|
      ensures IsRun(after[i])
      ensures 0 < i ==> Switches(after, i)
    {
      if i < |runs| {
        assert IsRun(runs[i]) && (0 < i ==> Switches(runs, i));
      } else if 0 < i {
        assert IsRun(runs[i - 1]);
      }
    }
  }

  lemma {:induction false} AddCallKeepsRuns(runs: seq<seq<ModelCall>>, c: ModelCall)
    requires AreMaximalRuns(runs)
    ensures AreMaximalRuns(AddCall(runs, c))
    ensures Concat(AddCall(runs, c)) == Concat(runs) + [c]
  {
    if runs != [] && runs[|runs| - 1] != [] && runs[|runs| - 1][0].key == c.key {
      assert runs == runs[..|runs| - 1] + [runs[|runs| - 1]];
      LongerRun(runs[..|runs| - 1], runs[|runs| - 1], c);
    } else {
      NewRun(runs, c);
    }
  }

  /** The runs hold all calls, in order. */
  predicate Partitions(runs: seq<seq<ModelCall>>, cs: seq<ModelCall>) {
    Concat(runs) == cs && AreMaximalRuns(runs)
  }

  lemma {:induction false} NextCallPartitions(runs: seq<seq<ModelCall>>, front: seq<ModelCall>, c: ModelCall,
                                              cs: seq<ModelCall>)
    requires Partitions(runs, front) && cs == front + [c]
    ensures Partitions(AddCall(runs, c), cs)
  {
    AddCallKeepsRuns(runs, c);
  }

  lemma {:induction false} RunsPartition(cs: seq<ModelCall>)
    ensures Partitions(Runs(cs), cs)
  {
    if cs != [] {
      RunsPartition(cs[..|cs| - 1]);
      NextCallPartitions(Runs(cs[..|cs| - 1]), cs[..|cs| - 1], cs[|cs| - 1], cs);
    }
  }

  lemma {:induction false} CompactsStart(position: nat, c: ModelCall)
    ensures Compacts(Start(position, c), [c])
  {
    assert Total([c], CallEntry()) == Plus(CallEntry()(c), Total([], CallEntry()));
    PlusZero(CallEntry()(c));
  }

  lemma {:induction false} CompactsExtend(step: ModelActivityStep, run: seq<ModelCall>, c: ModelCall)
    requires Compacts(step, run) && c.key == run[0].key
    requires |run| < U32_MAX
    ensures Compacts(Extend(step, c), run + [c])
  {
    TotalSnoc(run, c, CallEntry());
    AddAssignCaps(step.tokens, step.cost.amount, c.tokens, c.cost.amount);
  }

  predicate CompactEach(steps: seq<ModelActivityStep>, runs: seq<seq<ModelCall>>) {
    && |steps| == |runs|
    && (forall i | 0 <= i < |steps| :: Compacts(steps[i], runs[i]))
  }

  predicate CompactAll(steps: seq<ModelActivityStep>, runs: seq<seq<ModelCall>>) {
    && CompactEach(steps, runs)
    && (forall i | 0 <= i < |steps| :: steps[i].sequence == i)
  }

  lemma {:induction false} AddMessageCompacts(steps: seq<ModelActivityStep>, runs: seq<seq<ModelCall>>, c: ModelCall)
    requires CompactAll(steps, runs)
    requires |steps| <= U32_MAX && forall i | 0 <= i < |runs| :: |runs[i]| < U32_MAX
    ensures CompactAll(AddMessage(steps, c), AddCall(runs, c))
  {
    if steps != [] {
      assert Compacts(steps[|steps| - 1], runs[|runs| - 1]);
    }
    if Continues(steps, c) {
      CompactsExtend(steps[|steps| - 1], runs[|runs| - 1], c);
    } else {
      CompactsStart(|steps|, c);
    }
  }

  /** Compaction keeps exactly one step per maximal run, numbered from zero. */
  lemma {:induction false} StepsCompactRuns(cs: seq<ModelCall>)
    requires |cs| <= U32_MAX
    ensures CompactAll(Steps(cs), Runs(cs))
  {
    if cs != [] {
      var front, c := cs[..|cs| - 1], cs[|cs| - 1];
      StepsCompactRuns(front);
      RunsPartition(front);
      forall i | 0 <= i < |Runs(front)|
        ensures |Runs(front)[i]| < U32_MAX
      {
        ConcatLength(Runs(front), i);
      }
      AddMessageCompacts(Steps(front), Runs(front), c);
    }
  }

  /* ---- Compaction is a lossless run-length encoding ---- */

  function Keys(cs: seq<ModelCall>): (r: seq<ModelKey>)
    ensures |r| == |cs|
    ensures forall i | 0 <= i < |cs| :: r[i] == cs[i].key
  {
    if cs == [] then [] else Keys(cs[..|cs| - 1]) + [cs[|cs| - 1].key]
  }

  /** Spells every step out as often as it was called. */
  function Expand(steps: seq<ModelActivityStep>): seq<ModelKey> {
    if steps == [] then []
    else Expand(steps[..|steps| - 1]) + seq(steps[|steps| - 1].callCount, _ => StepKey(steps[|steps| - 1]))
  }

  lemma {:induction false} KeysOfRun(step: ModelActivityStep, run: seq<ModelCall>)
    requires Compacts(step, run)
    ensures Keys(run) == seq(step.callCount, _ => StepKey(step))
  {
    assert forall j | 0 <= j < |run| :: run[j] in run;
  }

  lemma {:induction false} ExpandRuns(steps: seq<ModelActivityStep>, runs: seq<seq<ModelCall>>)
    requires CompactEach(steps, runs)
    ensures Expand(steps) == Keys(Concat(runs))
  {
    if steps != [] {
      var n := |steps| - 1;
      ExpandRuns(steps[..n], runs[..n]);
      assert Compacts(steps[n], runs[n]);
      KeysOfRun(steps[n], runs[n]);
      KeysAppend(Concat(runs[..n]), runs[n]);
    }
  }

  lemma {:induction false} KeysAppend(a: seq<ModelCall>, b: seq<ModelCall>)
    ensures Keys(a + b) == Keys(a) + Keys(b)
  {}

  /** Expanding the steps gives back the models called, call by call; neighbouring steps differ,
      and no shorter list of steps would do. */
  lemma {:induction false} StepsAreRunLengthEncoding(cs: seq<ModelCall>)
    requires |cs| <= U32_MAX
    ensures Expand(Steps(cs)) == Keys(cs)
    ensures forall i | 0 < i < |Steps(cs)| :: StepKey(Steps(cs)[i - 1]) != StepKey(Steps(cs)[i])
    ensures forall i | 0 <= i < |Steps(cs)| :: 0 < Steps(cs)[i].callCount
  {
    StepsCompactRuns(cs);
    RunsPartition(cs);
    ExpandRuns(Steps(cs), Runs(cs));
    var steps, runs := Steps(cs), Runs(cs);
    forall i | 0 < i < |steps|
      ensures StepKey(steps[i - 1]) != StepKey(steps[i])
    {
      assert Compacts(steps[i - 1], runs[i - 1]) && Compacts(steps[i], runs[i]) && Switches(runs, i);
    }
  }

  predicate IsEncoding(steps: seq<ModelActivityStep>) {
    && (forall i | 0 <= i < |steps| :: 0 < steps[i].callCount)
    && forall i | 0 < i < |steps| :: StepKey(steps[i - 1]) != StepKey(steps[i])
  }

  lemma {:induction false} ExpandEnd(steps: seq<ModelActivityStep>)
    requires IsEncoding(steps) && steps != []
    ensures var e, s := Expand(steps), steps[|steps| - 1];
            && EndsWithExactly(e, StepKey(s), s.callCount)
            && e[..|e| - s.callCount] == Expand(steps[..|steps| - 1])
            && (s.callCount == |e| <==> |steps| == 1)
  {
    var front, s := steps[..|steps| - 1], steps[|steps| - 1];
    assert Expand(steps) == Expand(front) + seq(s.callCount, _ => StepKey(s));
    if front != [] {
      var t := front[|front| - 1];
      assert t == steps[|steps| - 2];
      assert Expand(front) == Expand(front[..|front| - 1]) + seq(t.callCount, _ => StepKey(t));
    }
  }

  predicate EndsWithExactly(e: seq<ModelKey>, k: ModelKey, n: nat) {
    && n <= |e|
    && (forall j | |e| - n <= j < |e| :: e[j] == k)
    && (n < |e| ==> e[|e| - n - 1] != k)
  }

  lemma {:induction false} TrailingCountUnique(e: seq<ModelKey>, k: ModelKey, n: nat, n': nat)
    requires EndsWithExactly(e, k, n) && EndsWithExactly(e, k, n')
    ensures n == n'
  {}

  /** The encoding is unique: two step lists without equal neighbours that spell the same calls
      have the same models and the same counts. */
  lemma {:induction false} EncodingUnique(a: seq<ModelActivityStep>, b: seq<ModelActivityStep>)
    requires IsEncoding(a) && IsEncoding(b) && Expand(a) == Expand(b)
    ensures |a| == |b|
    ensures forall i | 0 <= i < |a| :: StepKey(a[i]) == StepKey(b[i]) && a[i].callCount == b[i].callCount
  {
    if a != [] {
      ExpandEnd(a);
    }
    if b != [] {
      ExpandEnd(b);
    }
    if a != [] && b != [] {
      var e := Expand(a);
      assert e[|e| - 1] == StepKey(a[|a| - 1]) == StepKey(b[|b| - 1]);
      TrailingCountUnique(Expand(a), StepKey(a[|a| - 1]), a[|a| - 1].callCount, b[|b| - 1].callCount);
      EncodingUnique(a[..|a| - 1], b[..|b| - 1]);
    }
  }

  /* ---- Conservation ---- */

  /** Counts the steps whose model satisfies `p`. */
  function StepMeter(p: ModelKey -> bool): ModelActivityStep -> Ledger {
    (s: ModelActivityStep) => if p(StepKey(s)) then StepEntry()(s) else Zero()
  }

  function CallMeter(p: ModelKey -> bool): ModelCall -> Ledger {
    (c: ModelCall) => if p(c.key) then CallEntry()(c) else Zero()
  }

  lemma {:induction false} StepConserves(step: ModelActivityStep, run: seq<ModelCall>, p: ModelKey -> bool)
    requires Compacts(step, run)
    ensures CappedFrom(StepMeter(p)(step), Total(run, CallMeter(p)))
  {
    if p(run[0].key) {
      TotalCongruence(run, CallMeter(p), CallEntry());
    } else {
      TotalZero(run, CallMeter(p));
    }
  }

  lemma {:induction false} NextRunConserves(steps: seq<ModelActivityStep>, runs: seq<seq<ModelCall>>,
                                            front: seq<ModelActivityStep>, step: ModelActivityStep,
                                            front': seq<seq<ModelCall>>, run: seq<ModelCall>, p: ModelKey -> bool)
    requires steps == front + [step] && runs == front' + [run]
    requires CappedFrom(Total(front, StepMeter(p)), Total(Concat(front'), CallMeter(p)))
    requires Compacts(step, run)
    ensures CappedFrom(Total(steps, StepMeter(p)), Total(Concat(runs), CallMeter(p)))
  {
    StepConserves(step, run, p);
    TotalSnoc(front, step, StepMeter(p));
    ConcatSnoc(front', run);
    TotalAppend(Concat(front'), run, CallMeter(p));
    CappedFromPlus(Total(front, StepMeter(p)), Total(Concat(front'), CallMeter(p)),
                   StepMeter(p)(step), Total(run, CallMeter(p)));
  }

  /** Whatever models are looked at, the steps hold the tokens and the money of the calls. */
  lemma {:induction false} RunsConserve(steps: seq<ModelActivityStep>, runs: seq<seq<ModelCall>>, p: ModelKey -> bool)
    requires CompactEach(steps, runs)
    ensures CappedFrom(Total(steps, StepMeter(p)), Total(Concat(runs), CallMeter(p)))
  {
    if steps == [] {
      assert runs == [];
    } else {
      var front, step := steps[..|steps| - 1], steps[|steps| - 1];
      var front', run := runs[..|runs| - 1], runs[|runs| - 1];
      RunsConserve(front, front', p);
      NextRunConserves(steps, runs, front, step, front', run, p);
    }
  }

  lemma {:induction false} StepsConserve(cs: seq<ModelCall>, p: ModelKey -> bool)
    requires |cs| <= U32_MAX
    ensures CappedFrom(Total(Steps(cs), StepMeter(p)), Total(cs, CallMeter(p)))
  {
    StepsCompactRuns(cs);
    RunsPartition(cs);
    RunsConserve(Steps(cs), Runs(cs), p);
  }

  /** A step exists for a model exactly when the model was called. */
  lemma {:induction false} StepKeysAreCallKeys(cs: seq<ModelCall>, k: ModelKey)
    requires |cs| <= U32_MAX
    ensures (exists s :: s in Steps(cs) && StepKey(s) == k) <==> (exists c :: c in cs && c.key == k)
  {
    StepsAreRunLengthEncoding(cs);
    var steps := Steps(cs);
    if exists s :: s in steps && StepKey(s) == k {
      var i :| 0 <= i < |steps| && StepKey(steps[i]) == k;
      ExpandHas(steps, i);
      var j :| 0 <= j < |cs| && Keys(cs)[j] == k;
      assert cs[j] in cs;
    }
    if exists c :: c in cs && c.key == k {
      var j :| 0 <= j < |cs| && cs[j].key == k;
      assert Keys(cs)[j] in Expand(steps);
      ExpandOnly(steps, k);
    }
  }

  lemma {:induction false} ExpandHas(steps: seq<ModelActivityStep>, i: nat)
    requires i < |steps| && IsEncoding(steps)
    ensures StepKey(steps[i]) in Expand(steps)
  {
    if i < |steps| - 1 {
      ExpandHas(steps[..|steps| - 1], i);
    } else {
      var e := Expand(steps);
      assert e[|e| - 1] == StepKey(steps[i]);
    }
  }

  lemma {:induction false} ExpandOnly(steps: seq<ModelActivityStep>, k: ModelKey)
    requires k in Expand(steps)
    ensures exists s :: s in steps && StepKey(s) == k
  {
    var n := |steps| - 1;
    if k in Expand(steps[..n]) {
      ExpandOnly(steps[..n], k);
    } else {
      assert steps[n] in steps;
    }
  }

  /* ---- Workflow signals ---- */

  type SignalTable = map<(WorkflowSignal, u32), u32>

  function Get(table: SignalTable, signal: WorkflowSignal, step: u32): u32 {
    if (signal, step) in table then table[(signal, step)] else 0
  }

  /** `u32` addition in a release build */
  function Bump(n: u32): u32 {
    if n == U32_MAX then 0 else n + 1
  }

  /** `*signal_counts.entry((signal, step_index)).or_default() += 1` */
  function CountOne(table: SignalTable, signal: WorkflowSignal, step: u32): SignalTable {
    table[(signal, step) := Bump(Get(table, signal, step))]
  }

  function Count(table: SignalTable, signals: seq<WorkflowSignal>, step: u32): SignalTable {
    if signals == [] then table
    else CountOne(Count(table, signals[..|signals| - 1], step), signals[|signals| - 1], step)
  }

  /** The number of the step that received the last call */
  function Current(steps: seq<ModelActivityStep>): u32 {
    if steps == [] then 0 else steps[|steps| - 1].sequence
  }

  function Table(cs: seq<ModelCall>): SignalTable {
    if cs == [] then map[]
    else Count(Table(cs[..|cs| - 1]), cs[|cs| - 1].signals, Current(Steps(cs)))
  }

  function Occurs(signals: seq<WorkflowSignal>, signal: WorkflowSignal): nat {
    multiset(signals)[signal]
  }

  function Occurrences(cs: seq<ModelCall>, signal: WorkflowSignal): nat {
    if cs == [] then 0 else Occurrences(cs[..|cs| - 1], signal) + Occurs(cs[|cs| - 1].signals, signal)
  }

  lemma {:induction false} CountOneCounts(table: SignalTable, last: WorkflowSignal, step: u32, signal: WorkflowSignal,
                                          other: u32)
    ensures var after := CountOne(table, last, step);
            && Get(after, signal, other)
               == (var before := Get(table, signal, other);
                   if signal == last && other == step then Bump(before) else before)
            && ((signal, other) in after <==> (signal, other) in table || (signal == last && other == step))
  {}

  lemma {:induction false} OccursSnoc(signals: seq<WorkflowSignal>, last: WorkflowSignal, signal: WorkflowSignal)
    ensures Occurs(signals + [last], signal) == Occurs(signals, signal) + if signal == last then 1 else 0
  {}

  lemma {:induction false} BumpWraps(n: nat)
    ensures Bump(n % 0x1_0000_0000) == (n + 1) % 0x1_0000_0000
  {}

  /** A counter is the number of its signals, modulo 2^32. */
  lemma {:induction false} CountCounts(table: SignalTable, signals: seq<WorkflowSignal>, step: u32,
                                       signal: WorkflowSignal, other: u32, before: nat)
    requires Get(table, signal, other) == before % 0x1_0000_0000
    ensures Get(Count(table, signals, step), signal, other)
         == (before + if other == step then Occurs(signals, signal) else 0) % 0x1_0000_0000
  {
    if signals != [] {
      var front, last := signals[..|signals| - 1], signals[|signals| - 1];
      assert signals == front + [last];
      OccursSnoc(front, last, signal);
      CountCounts(table, front, step, signal, other, before);
      CountOneCounts(Count(table, front, step), last, step, signal, other);
      BumpWraps(before + Occurs(front, signal));
    }
  }

  lemma {:induction false} CountKeys(table: SignalTable, signals: seq<WorkflowSignal>, step: u32,
                                     signal: WorkflowSignal, other: u32)
    ensures (signal, other) in Count(table, signals, step)
       <==> (signal, other) in table || (other == step && Occurs(signals, signal) > 0)
  {
    if signals != [] {
      var front, last := signals[..|signals| - 1], signals[|signals| - 1];
      assert signals == front + [last];
      OccursSnoc(front, last, signal);
      CountKeys(table, front, step, signal, other);
      CountOneCounts(Count(table, front, step), last, step, signal, other);
    }
  }

  /** The calls seen so far have as many runs as steps, and signals go to the last one. */
  lemma {:induction false} CurrentStep(cs: seq<ModelCall>)
    requires 0 < |cs| <= U32_MAX
    ensures 0 < |Runs(cs)| <= U32_MAX
    ensures Current(Steps(cs)) == |Runs(cs)| - 1
  {
    StepsCompactRuns(cs);
  }

  function RunOccurrences(runs: seq<seq<ModelCall>>, signal: WorkflowSignal, i: nat): nat {
    if i < |runs| then Occurrences(runs[i], signal) else 0
  }

  lemma {:induction false} OccurrencesSnoc(cs: seq<ModelCall>, c: ModelCall, signal: WorkflowSignal)
    ensures Occurrences(cs + [c], signal) == Occurrences(cs, signal) + Occurs(c.signals, signal)
  {
    assert (cs + [c])[..|cs|] == cs;
  }

  lemma {:induction false} AddCallOccurrences(runs: seq<seq<ModelCall>>, c: ModelCall, signal: WorkflowSignal, i: nat)
    ensures RunOccurrences(AddCall(runs, c), signal, i)
         == RunOccurrences(runs, signal, i) + if i == |AddCall(runs, c)| - 1 then Occurs(c.signals, signal) else 0
  {
    if |AddCall(runs, c)| == |runs| {
      OccurrencesSnoc(runs[|runs| - 1], c, signal);
    } else {
      OccurrencesSnoc([], c, signal);
      assert [] + [c] == [c];
    }
  }

  lemma {:induction false} TableDomain(cs: seq<ModelCall>, signal: WorkflowSignal, i: u32)
    requires |cs| <= U32_MAX
    ensures (signal, i) in Table(cs) <==> RunOccurrences(Runs(cs), signal, i) > 0
  {
    if cs != [] {
      var front, c := cs[..|cs| - 1], cs[|cs| - 1];
      TableDomain(front, signal, i);
      CurrentStep(cs);
      CountKeys(Table(front), c.signals, Current(Steps(cs)), signal, i);
      AddCallOccurrences(Runs(front), c, signal, i);
    }
  }

  lemma {:induction false} RunOccurrencesBound(cs: seq<ModelCall>, signal: WorkflowSignal, i: nat)
    ensures RunOccurrences(Runs(cs), signal, i) <= Occurrences(cs, signal)
  {
    RunsPartition(cs);
    if i < |Runs(cs)| {
      OccurrencesConcat(Runs(cs), signal, i);
    }
  }

  lemma {:induction false} CountNextCall(table: SignalTable, runs: seq<seq<ModelCall>>, c: ModelCall, step: u32,
                                         signal: WorkflowSignal, i: u32)
    requires step == |AddCall(runs, c)| - 1
    requires Get(table, signal, i) == RunOccurrences(runs, signal, i) % 0x1_0000_0000
    ensures Get(Count(table, c.signals, step), signal, i)
         == RunOccurrences(AddCall(runs, c), signal, i) % 0x1_0000_0000
  {
    CountCounts(table, c.signals, step, signal, i, RunOccurrences(runs, signal, i));
    AddCallOccurrences(runs, c, signal, i);
  }

  /** The table holds, for every step, how often each signal occurred in the step's own run - modulo
      2^32, as the counters wrap around. */
  lemma {:induction false} TableCountsRuns(cs: seq<ModelCall>, signal: WorkflowSignal, i: u32)
    requires |cs| <= U32_MAX
    ensures Get(Table(cs), signal, i) == RunOccurrences(Runs(cs), signal, i) % 0x1_0000_0000
  {
    if cs != [] {
      TableCountsRuns(cs[..|cs| - 1], signal, i);
      CurrentStep(cs);
      CountNextCall(Table(cs[..|cs| - 1]), Runs(cs[..|cs| - 1]), cs[|cs| - 1], Current(Steps(cs)), signal, i);
    }
  }

  lemma {:induction false} NoWrap(a: nat, n: nat, bound: nat)
    requires a == n % 0x1_0000_0000 && n <= bound <= U32_MAX
    ensures a == n
  {}

  lemma {:induction false} TableCountsExactly(cs: seq<ModelCall>, signal: WorkflowSignal, i: u32)
    requires |cs| <= U32_MAX && Occurrences(cs, signal) <= U32_MAX
    ensures Get(Table(cs), signal, i) == RunOccurrences(Runs(cs), signal, i)
  {
    TableCountsRuns(cs, signal, i);
    RunOccurrencesBound(cs, signal, i);
    NoWrap(Get(Table(cs), signal, i), RunOccurrences(Runs(cs), signal, i), Occurrences(cs, signal));
  }

  lemma {:induction false} OccurrencesAppend(a: seq<ModelCall>, b: seq<ModelCall>, signal: WorkflowSignal)
    ensures Occurrences(a + b, signal) == Occurrences(a, signal) + Occurrences(b, signal)
  {
    if b == [] {
      assert a + b == a;
    } else {
      assert (a + b)[..|a + b| - 1] == a + b[..|b| - 1];
      OccurrencesAppend(a, b[..|b| - 1], signal);
    }
  }

  lemma {:induction false} OccurrencesConcat(runs: seq<seq<ModelCall>>, signal: WorkflowSignal, i: nat)
    requires i < |runs|
    ensures Occurrences(runs[i], signal) <= Occurrences(Concat(runs), signal)
  {
    var n := |runs| - 1;
    OccurrencesAppend(Concat(runs[..n]), runs[n], signal);
    if i < n {
      OccurrencesConcat(runs[..n], signal, i);
    }
  }

  /** All signals, in the order in which the table's keys are sorted. */
  const ALL_SIGNALS := [Read, Searched, Edited, TestsRun, TestsFailed, Planned, Delegated, GitUsed, Built, Deployed]

  /** The table's entries for `signal` and the first `n` steps, by step. */
  function Row(table: SignalTable, signal: WorkflowSignal, n: nat): seq<SignalCount>
    requires n <= U32_MAX + 1
  {
    if n == 0 then []
    else Row(table, signal, n - 1)
         + if (signal, n - 1) in table then [SignalCount(signal, table[(signal, n - 1)], n - 1)] else []
  }

  /** The table's entries in key order: by signal, then by step. */
  function Listing(table: SignalTable, signals: seq<WorkflowSignal>, n: nat): seq<SignalCount>
    requires n <= U32_MAX + 1
  {
    if signals == [] then []
    else Listing(table, signals[..|signals| - 1], n) + Row(table, signals[|signals| - 1], n)
  }

  lemma {:induction false} RowHas(table: SignalTable, signal: WorkflowSignal, n: nat, e: SignalCount)
    requires n <= U32_MAX + 1
    ensures e in Row(table, signal, n)
       <==> && e.signal == signal && e.modelStepIndex < n
            && (signal, e.modelStepIndex) in table && e.count == table[(signal, e.modelStepIndex)]
  {
    if n != 0 {
      RowHas(table, signal, n - 1, e);
    }
  }

  lemma {:induction false} ListingHas(table: SignalTable, signals: seq<WorkflowSignal>, n: nat, e: SignalCount)
    requires n <= U32_MAX + 1
    ensures e in Listing(table, signals, n)
       <==> && e.signal in signals && e.modelStepIndex < n
            && (e.signal, e.modelStepIndex) in table && e.count == table[(e.signal, e.modelStepIndex)]
  {
    if signals != [] {
      var front, last := signals[..|signals| - 1], signals[|signals| - 1];
      assert signals == front + [last];
      ListingHas(table, front, n, e);
      RowHas(table, last, n, e);
    }
  }

  /** The order of the table's keys: by signal, then by step */
  predicate Precedes(a: SignalCount, b: SignalCount) {
    Rank(a.signal) < Rank(b.signal) || (a.signal == b.signal && a.modelStepIndex < b.modelStepIndex)
  }

  predicate InKeyOrder(list: seq<SignalCount>) {
    forall p, q | 0 <= p < q < |list| :: Precedes(list[p], list[q])
  }

  lemma {:induction false} RowInOrder(table: SignalTable, signal: WorkflowSignal, n: nat)
    requires n <= U32_MAX + 1
    ensures InKeyOrder(Row(table, signal, n))
    ensures forall p | 0 <= p < |Row(table, signal, n)| ::
              Row(table, signal, n)[p].signal == signal && Row(table, signal, n)[p].modelStepIndex < n
  {
    if n != 0 {
      RowInOrder(table, signal, n - 1);
    }
  }

  lemma {:induction false} ListingInOrder(table: SignalTable, signals: seq<WorkflowSignal>, n: nat)
    requires n <= U32_MAX + 1 && forall i, j | 0 <= i < j < |signals| :: Rank(signals[i]) < Rank(signals[j])
    ensures InKeyOrder(Listing(table, signals, n))
  {
    if signals != [] {
      var front, last := signals[..|signals| - 1], signals[|signals| - 1];
      ListingInOrder(table, front, n);
      RowInOrder(table, last, n);
      forall p | 0 <= p < |Listing(table, front, n)|
        ensures Rank(Listing(table, front, n)[p].signal) < Rank(last)
      {
        ListingHas(table, front, n, Listing(table, front, n)[p]);
      }
    }
  }

  function SumCounts(list: seq<SignalCount>, signal: WorkflowSignal): nat {
    if list == [] then 0
    else SumCounts(list[..|list| - 1], signal)
         + if list[|list| - 1].signal == signal then list[|list| - 1].count else 0
  }

  lemma {:induction false} SumCountsAppend(a: seq<SignalCount>, b: seq<SignalCount>, signal: WorkflowSignal)
    ensures SumCounts(a + b, signal) == SumCounts(a, signal) + SumCounts(b, signal)
  {
    if b == [] {
      assert a + b == a;
    } else {
      assert (a + b)[..|a + b| - 1] == a + b[..|b| - 1];
      SumCountsAppend(a, b[..|b| - 1], signal);
    }
  }

  lemma {:induction false} RowEntries(table: SignalTable, signal: WorkflowSignal, n: nat)
    requires n <= U32_MAX
    ensures forall e | e in Row(table, signal, n) :: e.signal == signal && e.modelStepIndex < n
  {
    if n != 0 {
      RowEntries(table, signal, n - 1);
    }
  }

  lemma {:induction false} RowStepSums(table: SignalTable, signal: WorkflowSignal, n: nat)
    requires n < U32_MAX
    ensures SumCounts(Row(table, signal, n + 1), signal)
         == SumCounts(Row(table, signal, n), signal) + Get(table, signal, n)
  {
    var row := Row(table, signal, n);
    if (signal, n) in table {
      var entry := SignalCount(signal, table[(signal, n)], n);
      assert (row + [entry])[..|row|] == row;
    } else {
      assert row + [] == row;
    }
  }

  lemma {:induction false} RowSums(table: SignalTable, runs: seq<seq<ModelCall>>, signal: WorkflowSignal)
    requires |runs| <= U32_MAX
    requires forall i: u32 :: Get(table, signal, i) == RunOccurrences(runs, signal, i)
    ensures SumCounts(Row(table, signal, |runs|), signal) == Occurrences(Concat(runs), signal)
  {
    RowPrefixSums(table, runs, runs, signal);
  }

  lemma {:induction false} RowPrefixSums(table: SignalTable, runs: seq<seq<ModelCall>>, part: seq<seq<ModelCall>>,
                                         signal: WorkflowSignal)
    requires part <= runs && |runs| <= U32_MAX
    requires forall i: u32 :: Get(table, signal, i) == RunOccurrences(runs, signal, i)
    ensures SumCounts(Row(table, signal, |part|), signal) == Occurrences(Concat(part), signal)
  {
    if part != [] {
      var front, run := part[..|part| - 1], part[|part| - 1];
      assert part == front + [run];
      RowPrefixSums(table, runs, front, signal);
      RowStepSums(table, signal, |front|);
      ConcatSnoc(front, run);
      OccurrencesAppend(Concat(front), run, signal);
    }
  }

  lemma {:induction false} SumCountsElsewhere(list: seq<SignalCount>, signal: WorkflowSignal)
    requires forall e | e in list :: e.signal != signal
    ensures SumCounts(list, signal) == 0
  {
    if list != [] {
      SumCountsElsewhere(list[..|list| - 1], signal);
    }
  }

  lemma {:induction false} ListingSums(cs: seq<ModelCall>, signals: seq<WorkflowSignal>, signal: WorkflowSignal)
    requires Distinct(signals)
    requires |cs| <= U32_MAX && Occurrences(cs, signal) <= U32_MAX && |Runs(cs)| <= U32_MAX
    ensures SumCounts(Listing(Table(cs), signals, |Runs(cs)|), signal)
         == if signal in signals then Occurrences(cs, signal) else 0
    ensures forall e | e in Listing(Table(cs), signals, |Runs(cs)|) :: e.modelStepIndex < |Runs(cs)|
  {
    if signals != [] {
      var front, last, n := signals[..|signals| - 1], signals[|signals| - 1], |Runs(cs)|;
      assert signals == front + [last];
      ListingSums(cs, front, signal);
      RowEntries(Table(cs), last, n);
      SumCountsAppend(Listing(Table(cs), front, n), Row(Table(cs), last, n), signal);
      if signal == last {
        forall i: u32
          ensures Get(Table(cs), signal, i) == RunOccurrences(Runs(cs), signal, i)
        {
          TableCountsExactly(cs, signal, i);
        }
        RowSums(Table(cs), Runs(cs), signal);
        RunsPartition(cs);
      } else {
        SumCountsElsewhere(Row(Table(cs), last, n), signal);
      }
    }
  }

  function Rank(signal: WorkflowSignal): nat {
    match signal
    case Read => 0
    case Searched => 1
    case Edited => 2
    case TestsRun => 3
    case TestsFailed => 4
    case Planned => 5
    case Delegated => 6
    case GitUsed => 7
    case Built => 8
    case Deployed => 9
  }

  lemma {:induction false} AllSignalsListed(signal: WorkflowSignal)
    ensures Distinct(ALL_SIGNALS)
    ensures signal in ALL_SIGNALS
  {
    assert ALL_SIGNALS[Rank(signal)] == signal;
    assert forall i | 0 <= i < |ALL_SIGNALS| :: Rank(ALL_SIGNALS[i]) == i;
  }

  /** Each signal's listed counts add up to its occurrences in the turn, and every listed step
      exists. */
  lemma {:induction false} SignalsConserved(cs: seq<ModelCall>, signal: WorkflowSignal)
    requires |cs| <= U32_MAX && Occurrences(cs, signal) <= U32_MAX
    ensures var list := Listing(Table(cs), ALL_SIGNALS, |Steps(cs)|);
            && SumCounts(list, signal) == Occurrences(cs, signal)
            && forall e | e in list :: e.modelStepIndex < |Steps(cs)|
  {
    StepsCompactRuns(cs);
    AllSignalsListed(signal);
    ListingSums(cs, ALL_SIGNALS, signal);
  }

  /* ---- The turn ---- */

  function Turn(sequence: u32, cs: seq<ModelCall>): TurnSnapshot {
    var calls := ActivityOrder(cs);
    TurnSnapshot(sequence, Steps(calls), Listing(Table(calls), ALL_SIGNALS, Min(|Steps(calls)|, U32_MAX + 1)))
  }

  /** The signals listed for the runs, told from the runs alone */
  ghost predicate ListsSignals(list: seq<SignalCount>, runs: seq<seq<ModelCall>>) {
    && (forall e: SignalCount :: e in list <==>
          && e.modelStepIndex < |runs|
          && 0 < Occurrences(runs[e.modelStepIndex], e.signal)
          && e.count == Occurrences(runs[e.modelStepIndex], e.signal) % 0x1_0000_0000)
    && (forall p, q | 0 <= p < q < |list| ::
          || Rank(list[p].signal) < Rank(list[q].signal)
          || (list[p].signal == list[q].signal && list[p].modelStepIndex < list[q].modelStepIndex))
  }

  lemma {:induction false} ListedEntry(cs: seq<ModelCall>, e: SignalCount)
    requires |cs| <= U32_MAX && |Runs(cs)| <= U32_MAX
    ensures e in Listing(Table(cs), ALL_SIGNALS, |Runs(cs)|)
       <==> && e.modelStepIndex < |Runs(cs)|
            && 0 < Occurrences(Runs(cs)[e.modelStepIndex], e.signal)
            && e.count == Occurrences(Runs(cs)[e.modelStepIndex], e.signal) % 0x1_0000_0000
  {
    ListingHas(Table(cs), ALL_SIGNALS, |Runs(cs)|, e);
    AllSignalsListed(e.signal);
    TableDomain(cs, e.signal, e.modelStepIndex);
    TableCountsRuns(cs, e.signal, e.modelStepIndex);
  }

  /** A signal is listed for a step exactly if it occurred in the step's run, once, with the number
      of its occurrences there - modulo 2^32 - and the list is sorted by signal, then by step. */
  lemma {:induction false} SignalsOfRuns(cs: seq<ModelCall>)
    requires |cs| <= U32_MAX
    ensures ListsSignals(Listing(Table(cs), ALL_SIGNALS, Min(|Steps(cs)|, U32_MAX + 1)), Runs(cs))
  {
    StepsCompactRuns(cs);
    var runs, list := Runs(cs), Listing(Table(cs), ALL_SIGNALS, |Runs(cs)|);
    forall e: SignalCount
      ensures e in list <==>
        && e.modelStepIndex < |runs|
        && 0 < Occurrences(runs[e.modelStepIndex], e.signal)
        && e.count == Occurrences(runs[e.modelStepIndex], e.signal) % 0x1_0000_0000
    {
      ListedEntry(cs, e);
    }
    SignalsRanked();
    ListingInOrder(Table(cs), ALL_SIGNALS, |runs|);
  }

  lemma {:induction false} SignalsRanked()
    ensures forall i, j | 0 <= i < j < |ALL_SIGNALS| :: Rank(ALL_SIGNALS[i]) < Rank(ALL_SIGNALS[j])
  {
    assert forall i | 0 <= i < |ALL_SIGNALS| :: Rank(ALL_SIGNALS[i]) == i;
  }

  lemma {:induction false} NextCall(cs: seq<ModelCall>, i: nat)
    requires i < |cs|
    ensures Steps(cs[..i + 1]) == AddMessage(Steps(cs[..i]), cs[i])
    ensures Table(cs[..i + 1]) == Count(Table(cs[..i]), cs[i].signals, Current(Steps(cs[..i + 1])))
  {
    assert cs[..i + 1][..i] == cs[..i];
  }

  method CountSignals(table: SignalTable, signals: seq<WorkflowSignal>, step: u32) returns (counts: SignalTable)
    ensures counts == Count(table, signals, step)
  {
    counts := table;
    for i := 0 to |signals|
      invariant counts == Count(table, signals[..i], step)
    {
      var key := (signals[i], step);
      var before: u32 := if key in counts then counts[key] else 0;
      counts := counts[key := Bump(before)];
      assert signals[..i + 1][..i] == signals[..i];
    }
    assert signals[..|signals|] == signals;
  }

  /** Adds a call to the last step, or begins a new one. */
  method AddToSteps(steps: seq<ModelActivityStep>, call: ModelCall) returns (r: seq<ModelActivityStep>)
    ensures r == AddMessage(steps, call) && r != []
  {
    if |steps| > 0 && StepKey(steps[|steps| - 1]) == call.key {
      r := steps[|steps| - 1 := Extend(steps[|steps| - 1], call)];
    } else {
      r := steps + [Start(|steps|, call)];
    }
  }

  /** The loop over the messages in activity order */
  method CompactCalls(calls: seq<ModelCall>) returns (steps: seq<ModelActivityStep>, counts: SignalTable)
    ensures steps == Steps(calls) && counts == Table(calls)
  {
    steps, counts := [], map[];
    for i := 0 to |calls|
      invariant steps == Steps(calls[..i])
      invariant counts == Table(calls[..i])
    {
      NextCall(calls, i);
      steps := AddToSteps(steps, calls[i]);
      counts := CountSignals(counts, calls[i].signals, steps[|steps| - 1].sequence);
    }
    assert calls[..|calls|] == calls;
  }

  /** The turn, told from its messages: one step for every maximal run of them in activity order, and
      for every step the signals that occurred in its run */
  lemma {:induction false} TurnIsTold(sequence: u32, messages: seq<ModelCall>, turn: TurnSnapshot)
    requires turn == Turn(sequence, messages) && |messages| <= U32_MAX
    ensures turn.sequence == sequence
    ensures var calls := ActivityOrder(messages);
            && Partitions(Runs(calls), calls)
            && CompactAll(turn.modelActivity, Runs(calls))
            && ListsSignals(turn.workflowSignals, Runs(calls))
  {
    var calls := ActivityOrder(messages);
    RunsPartition(calls);
    StepsCompactRuns(calls);
    SignalsOfRuns(calls);
  }

  /** `turn_from_messages`; `TurnIsTold` says what the turn holds. */
  method TurnFromMessages(sequence: u32, messages: seq<ModelCall>) returns (turn: TurnSnapshot)
    ensures turn == Turn(sequence, messages)
  {
    var calls := ActivityOrder(messages);
    var steps, counts := CompactCalls(calls);
    turn := TurnSnapshot(sequence, steps, Listing(counts, ALL_SIGNALS, Min(|steps|, U32_MAX + 1)));
  }
}
