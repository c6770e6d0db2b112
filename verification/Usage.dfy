/** The records that travel from the client to the server. */
module Usage {
  import opened Ledgers
  import opened Text

  datatype TokenBreakdown = TokenBreakdown(
    input: u64,
    output: u64,
    cacheRead: u64,
    cacheWrite: u64,
    reasoning: u64)
  {
    function Total(): u64 {
      SatAdd(SatAdd(SatAdd(SatAdd(input, output), cacheRead), cacheWrite), reasoning)
    }
  }

  const NO_TOKENS := TokenBreakdown(0, 0, 0, 0, 0)

  function AddAssign(a: TokenBreakdown, b: TokenBreakdown): TokenBreakdown {
    TokenBreakdown(SatAdd(a.input, b.input), SatAdd(a.output, b.output), SatAdd(a.cacheRead, b.cacheRead),
                   SatAdd(a.cacheWrite, b.cacheWrite), SatAdd(a.reasoning, b.reasoning))
  }

  datatype CostKind = Reported | Estimated | Unpriced

  datatype Cost = Cost(
    amount: real,
    currency: string,
    kind: CostKind,
    pricebookVersion: Option<string>,
    priceSource: Option<string>)

  datatype ModelKey = ModelKey(provider: string, model: string)

  datatype WorkflowSignal =
    | Read | Searched | Edited | TestsRun | TestsFailed
    | Planned | Delegated | GitUsed | Built | Deployed

  datatype UsageMessage = UsageMessage(
    sessionId: string,
    observedAt: int,
    providerId: string,
    modelId: string,
    tokens: TokenBreakdown,
    cost: Cost,
    turnSequence: u32,
    activitySequence: u32,
    workflowSignals: seq<WorkflowSignal>)

  /** A message with its model's name canonicalized and its turn number raised to at least one,
      as both groupings of a session read it. */
  datatype ModelCall = ModelCall(
    sessionId: string,
    observedAt: int,
    key: ModelKey,
    tokens: TokenBreakdown,
    cost: Cost,
    turn: u32,
    activity: u32,
    signals: seq<WorkflowSignal>)

  datatype UsageSlice = UsageSlice(
    providerId: string,
    modelId: string,
    tokens: TokenBreakdown,
    cost: Cost)

  datatype ModelActivityStep = ModelActivityStep(
    sequence: u32,
    providerId: string,
    modelId: string,
    tokens: TokenBreakdown,
    cost: Cost,
    callCount: u32)

  datatype SignalCount = SignalCount(signal: WorkflowSignal, count: u32, modelStepIndex: u32)

  datatype TurnSnapshot = TurnSnapshot(
    sequence: u32,
    modelActivity: seq<ModelActivityStep>,
    workflowSignals: seq<SignalCount>)

  function Entry(tokens: TokenBreakdown, amount: real): Ledger {
    Ledger(tokens.input, tokens.output, tokens.cacheRead, tokens.cacheWrite, tokens.reasoning, amount)
  }

  function CallEntry(): ModelCall -> Ledger {
    (c: ModelCall) => Entry(c.tokens, c.cost.amount)
  }

  function StepEntry(): ModelActivityStep -> Ledger {
    (s: ModelActivityStep) => Entry(s.tokens, s.cost.amount)
  }

  function SliceEntry(): UsageSlice -> Ledger {
    (s: UsageSlice) => Entry(s.tokens, s.cost.amount)
  }

  /** `message.turn_sequence.max(1)` */
  function TurnOf(m: UsageMessage): (turn: u32)
    ensures turn >= 1 && (m.turnSequence >= 1 ==> turn == m.turnSequence)
  {
    if m.turnSequence == 0 then 1 else m.turnSequence
  }

  function CallOf(m: UsageMessage): ModelCall {
    ModelCall(m.sessionId, m.observedAt, ModelKey(m.providerId, Canonical(m.modelId)), m.tokens, m.cost,
              TurnOf(m), m.activitySequence, m.workflowSignals)
  }

  function CallsOf(ms: seq<UsageMessage>): (r: seq<ModelCall>)
    ensures |r| == |ms|
    ensures forall i | 0 <= i < |ms| :: r[i] == CallOf(ms[i])
  {
    seq(|ms|, i requires 0 <= i < |ms| => CallOf(ms[i]))
  }

  function StepKey(s: ModelActivityStep): ModelKey {
    ModelKey(s.providerId, s.modelId)
  }

  function SliceKey(s: UsageSlice): ModelKey {
    ModelKey(s.providerId, s.modelId)
  }

  /** `add_assign` saturates each class separately: it is the exact sum, capped. */
  lemma {:induction false} AddAssignCaps(a: TokenBreakdown, x: real, b: TokenBreakdown, y: real)
    ensures Entry(AddAssign(a, b), x + y) == Cap(Plus(Entry(a, x), Entry(b, y)))
    ensures CappedFrom(Entry(AddAssign(a, b), x + y), Plus(Entry(a, x), Entry(b, y)))
  {}

  /** `total` saturates step by step: it is the exact grand total, capped. */
  lemma {:induction false} TotalCaps(t: TokenBreakdown, x: real)
    ensures t.Total() == Min(Entry(t, x).Grand(), U64_MAX)
  {}
}
