/** The two ways in which the client adds up a session: by turn and by model. */
module Sessions {
  /* `aggregate_session` walks over the messages as given and keeps one slice per model.
     `classify_turns` first groups them by turn, orders every turn by activity and compacts it.
     Both account for the same tokens and the same money. */

  import opened Ledgers
  import opened Text
  import opened Usage
  import opened Turns

  /* ---- By model ---- */

  function ByModel(): ModelCall -> ModelKey {
    (c: ModelCall) => c.key
  }

  /** What the calls to one model consumed */
  function UsedBy(cs: seq<ModelCall>, k: ModelKey): Ledger {
    Total(cs, Only(CallEntry(), ByModel(), k))
  }

  type SliceMap = map<ModelKey, UsageSlice>

  function EmptySlice(c: ModelCall): UsageSlice {
    UsageSlice(c.key.provider, c.key.model, NO_TOKENS, c.cost.(amount := 0.0))
  }

  function AddToSlice(slice: UsageSlice, c: ModelCall): UsageSlice {
    slice.(tokens := AddAssign(slice.tokens, c.tokens),
           cost := slice.cost.(amount := slice.cost.amount + c.cost.amount))
  }

  function AddCallTo(slices: SliceMap, c: ModelCall): SliceMap {
    slices[c.key := AddToSlice(if c.key in slices then slices[c.key] else EmptySlice(c), c)]
  }

  function Aggregate(cs: seq<ModelCall>): SliceMap {
    if cs == [] then map[] else AddCallTo(Aggregate(cs[..|cs| - 1]), cs[|cs| - 1])
  }

  function FirstOf(cs: seq<ModelCall>, k: ModelKey): (c: ModelCall)
    requires exists i :: 0 <= i < |cs| && cs[i].key == k
    ensures c.key == k && c in cs
  {
    if cs[0].key == k then cs[0] else FirstOf(cs[1..], k)
  }

  /** `slice` sums up everything `cs` spent on model `k`. */
  predicate SumsUp(slice: UsageSlice, cs: seq<ModelCall>, k: ModelKey) {
    && SliceKey(slice) == k
    && Entry(slice.tokens, slice.cost.amount) == Cap(UsedBy(cs, k))
  }

  lemma {:induction false} UsedBySnoc(cs: seq<ModelCall>, c: ModelCall, k: ModelKey)
    ensures UsedBy(cs + [c], k) == if c.key == k then Plus(UsedBy(cs, k), CallEntry()(c)) else UsedBy(cs, k)
  {
    var only := Only(CallEntry(), ByModel(), k);
    TotalSnoc(cs, c, only);
    assert only(c) == if c.key == k then CallEntry()(c) else Zero();
    PlusZero(UsedBy(cs, k));
  }

  lemma {:induction false} AddToSliceSumsUp(slice: UsageSlice, cs: seq<ModelCall>, c: ModelCall)
    requires SumsUp(slice, cs, c.key)
    ensures SumsUp(AddToSlice(slice, c), cs + [c], c.key)
  {
    UsedBySnoc(cs, c, c.key);
    AddAssignCaps(slice.tokens, slice.cost.amount, c.tokens, c.cost.amount);
  }

  lemma {:induction false} UnusedModel(cs: seq<ModelCall>, k: ModelKey)
    requires forall c | c in cs :: c.key != k
    ensures UsedBy(cs, k) == Zero()
  {
    TotalZero(cs, Only(CallEntry(), ByModel(), k));
  }

  /** One slice per model called; each holds the (saturated) sums over that model's calls. */
  lemma {:induction false} AggregateSumsUp(cs: seq<ModelCall>, k: ModelKey)
    ensures k in Aggregate(cs) <==> exists c :: c in cs && c.key == k
    ensures k in Aggregate(cs) ==> SumsUp(Aggregate(cs)[k], cs, k)
  {
    if cs != [] {
      var front, c := cs[..|cs| - 1], cs[|cs| - 1];
      assert cs == front + [c];
      AggregateSumsUp(front, k);
      UsedBySnoc(front, c, k);
      if k == c.key {
        var slice := if k in Aggregate(front) then Aggregate(front)[k] else EmptySlice(c);
        if k !in Aggregate(front) {
          UnusedModel(front, k);
        }
        AddToSliceSumsUp(slice, front, c);
      }
    }
  }

  /** The slice's currency, kind and price origin are those of the first call to the model. */
  lemma {:induction false} AggregateKeepsFirstCost(cs: seq<ModelCall>, k: ModelKey)
    requires exists i :: 0 <= i < |cs| && cs[i].key == k
    ensures k in Aggregate(cs)
    ensures Aggregate(cs)[k].cost == FirstOf(cs, k).cost.(amount := Aggregate(cs)[k].cost.amount)
  {
    var front, c := cs[..|cs| - 1], cs[|cs| - 1];
    assert cs == front + [c];
    if exists i :: 0 <= i < |front| && front[i].key == k {
      AggregateKeepsFirstCost(front, k);
      FirstOfPrefix(front, c, k);
    } else {
      AggregateSumsUp(front, k);
      FirstOfLast(front, c);
    }
  }

  lemma {:induction false} FirstOfPrefix(cs: seq<ModelCall>, c: ModelCall, k: ModelKey)
    requires exists i :: 0 <= i < |cs| && cs[i].key == k
    ensures exists i :: 0 <= i < |cs + [c]| && (cs + [c])[i].key == k
    ensures FirstOf(cs + [c], k) == FirstOf(cs, k)
  {
    var i :| 0 <= i < |cs| && cs[i].key == k;
    assert (cs + [c])[i].key == k;
    if cs[0].key != k {
      assert cs[1..][i - 1].key == k;
      FirstOfPrefix(cs[1..], c, k);
      assert (cs + [c])[1..] == cs[1..] + [c];
    }
  }

  lemma {:induction false} FirstOfLast(cs: seq<ModelCall>, c: ModelCall)
    requires forall i | 0 <= i < |cs| :: cs[i].key != c.key
    ensures exists i :: 0 <= i < |cs + [c]| && (cs + [c])[i].key == c.key
    ensures FirstOf(cs + [c], c.key) == c
  {
    assert (cs + [c])[|cs|].key == c.key;
    if cs != [] {
      FirstOfLast(cs[1..], c);
      assert (cs + [c])[1..] == cs[1..] + [c];
    }
  }

  /** The first message with the smallest time of observation */
  function Earliest(cs: seq<ModelCall>): (m: ModelCall)
    requires cs != []
    ensures m in cs && forall i | 0 <= i < |cs| :: m.observedAt <= cs[i].observedAt
  {
    if |cs| == 1 then cs[0]
    else
      var m := Earliest(cs[..|cs| - 1]);
      if cs[|cs| - 1].observedAt < m.observedAt then cs[|cs| - 1] else m
  }

  function OfSession(cs: seq<ModelCall>, id: string): seq<ModelCall> {
    if cs == [] then []
    else OfSession(cs[..|cs| - 1], id) + if cs[|cs| - 1].sessionId == id then [cs[|cs| - 1]] else []
  }

  predicate OneSession(cs: seq<ModelCall>) {
    forall i, j | 0 <= i < j < |cs| :: cs[i].sessionId == cs[j].sessionId
  }

  lemma {:induction false} OfOneSession(cs: seq<ModelCall>, id: string)
    requires forall i | 0 <= i < |cs| :: cs[i].sessionId == id
    ensures OfSession(cs, id) == cs
  {
    if cs != [] {
      OfOneSession(cs[..|cs| - 1], id);
    }
  }

  /** Of several messages observed at the same time, the first one counts. */
  lemma {:induction false} EarliestAt(cs: seq<ModelCall>) returns (i: nat)
    requires cs != []
    ensures i < |cs| && Earliest(cs) == cs[i]
    ensures forall j | 0 <= j < |cs| :: cs[i].observedAt <= cs[j].observedAt
    ensures forall j | 0 <= j < i :: cs[i].observedAt < cs[j].observedAt
  {
    if |cs| == 1 {
      i := 0;
    } else {
      i := EarliestAt(cs[..|cs| - 1]);
      if cs[|cs| - 1].observedAt < cs[i].observedAt {
        i := |cs| - 1;
      }
    }
  }

  predicate IsEarliest(cs: seq<ModelCall>, i: nat) {
    && i < |cs|
    && (forall j | 0 <= j < |cs| :: cs[i].observedAt <= cs[j].observedAt)
    && (forall j | 0 <= j < i :: cs[i].observedAt < cs[j].observedAt)
  }

  method FindEarliest(messages: seq<ModelCall>) returns (first: ModelCall)
    requires messages != []
    ensures first == Earliest(messages)
    ensures exists i :: 0 <= i < |messages| && IsEarliest(messages, i) && messages[i] == first
  {
    first := messages[0];
    for i := 1 to |messages|
      invariant first == Earliest(messages[..i])
    {
      assert messages[..i + 1][..i] == messages[..i];
      if messages[i].observedAt < first.observedAt {
        first := messages[i];
      }
    }
    assert messages[..|messages|] == messages;
    ghost var i := EarliestAt(messages);
    assert IsEarliest(messages, i);
  }

  /** The calls that `aggregate_session` adds up: those of the earliest message's session */
  function AggregatedCalls(cs: seq<ModelCall>): seq<ModelCall> {
    if cs == [] then [] else OfSession(cs, Earliest(cs).sessionId)
  }

  /** Of the messages of a single session, all are added up. */
  lemma {:induction false} OneSessionAggregates(cs: seq<ModelCall>)
    requires OneSession(cs)
    ensures AggregatedCalls(cs) == cs
  {
    if cs != [] {
      assert Earliest(cs) in cs;
      OfOneSession(cs, Earliest(cs).sessionId);
    }
  }

  lemma {:induction false} NextSlice(calls: seq<ModelCall>, i: nat)
    requires i < |calls|
    ensures var before, call := Aggregate(calls[..i]), calls[i];
            Aggregate(calls[..i + 1])
            == before[call.key := AddToSlice(if call.key in before then before[call.key] else EmptySlice(call), call)]
  {
    assert calls[..i + 1][..i] == calls[..i];
  }

  /** What the messages of session `id` consumed on model `k` */
  function ConsumedBy(cs: seq<ModelCall>, id: string, k: ModelKey): Ledger {
    if cs == [] then Zero()
    else
      var before, c := ConsumedBy(cs[..|cs| - 1], id, k), cs[|cs| - 1];
      if c.sessionId == id && c.key == k then Plus(before, Entry(c.tokens, c.cost.amount)) else before
  }

  lemma {:induction false} ConsumedIsUsed(cs: seq<ModelCall>, id: string, k: ModelKey)
    ensures ConsumedBy(cs, id, k) == UsedBy(OfSession(cs, id), k)
  {
    if cs != [] {
      var front, c := cs[..|cs| - 1], cs[|cs| - 1];
      ConsumedIsUsed(front, id, k);
      UsedBySnoc(OfSession(front, id), c, k);
      assert OfSession(front, id) + [] == OfSession(front, id);
    }
  }

  /** Message `i` is the first one of session `id` that calls model `k`. */
  predicate FirstCall(cs: seq<ModelCall>, id: string, k: ModelKey, i: nat) {
    && i < |cs| && cs[i].sessionId == id && cs[i].key == k
    && forall j | 0 <= j < i && cs[j].sessionId == id :: cs[j].key != k
  }

  lemma {:induction false} FirstCallOfSession(cs: seq<ModelCall>, id: string, k: ModelKey, i: nat)
    requires FirstCall(cs, id, k, i)
    ensures exists j :: 0 <= j < |OfSession(cs, id)| && OfSession(cs, id)[j].key == k
    ensures FirstOf(OfSession(cs, id), k) == cs[i]
  {
    var front, last := cs[..|cs| - 1], cs[|cs| - 1];
    var mine := OfSession(front, id);
    if i < |front| {
      FirstCallOfSession(front, id, k, i);
      FirstOfPrefix(mine, last, k);
      assert mine + [] == mine;
      assert OfSession(cs, id) == mine || OfSession(cs, id) == mine + [last];
    } else {
      NoneOfSession(front, id, k);
      FirstOfLast(mine, last);
      assert OfSession(cs, id) == mine + [last];
    }
  }

  lemma {:induction false} NoneOfSession(cs: seq<ModelCall>, id: string, k: ModelKey)
    requires forall j | 0 <= j < |cs| && cs[j].sessionId == id :: cs[j].key != k
    ensures forall j | 0 <= j < |OfSession(cs, id)| :: OfSession(cs, id)[j].key != k
  {
    if cs != [] {
      NoneOfSession(cs[..|cs| - 1], id, k);
    }
  }

  /** What the slices say about model `k`, told from all messages: there is a slice exactly if a message
      of session `id` calls the model; it describes its cost as the first of them does, and holds their
      sums. */
  ghost predicate Accounts(slices: SliceMap, cs: seq<ModelCall>, id: string, k: ModelKey) {
    && (k in slices <==> exists i: nat :: FirstCall(cs, id, k, i))
    && (k in slices ==>
          && SliceKey(slices[k]) == k
          && Entry(slices[k].tokens, slices[k].cost.amount) == Cap(ConsumedBy(cs, id, k)))
    && (forall i: nat | k in slices && FirstCall(cs, id, k, i) ::
          slices[k].cost == cs[i].cost.(amount := slices[k].cost.amount))
  }

  lemma {:induction false} FirstCallExists(cs: seq<ModelCall>, id: string, k: ModelKey) returns (i: nat)
    requires exists c :: c in OfSession(cs, id) && c.key == k
    ensures FirstCall(cs, id, k, i)
  {
    var front, last := cs[..|cs| - 1], cs[|cs| - 1];
    if c :| c in OfSession(front, id) && c.key == k {
      i := FirstCallExists(front, id, k);
    } else {
      i := |front|;
      forall j | 0 <= j < i && cs[j].sessionId == id
        ensures cs[j].key != k
      {
        OfSessionHas(front, id, j);
      }
    }
  }

  lemma {:induction false} OfSessionHas(cs: seq<ModelCall>, id: string, j: nat)
    requires j < |cs| && cs[j].sessionId == id
    ensures cs[j] in OfSession(cs, id)
  {
    if j < |cs| - 1 {
      OfSessionHas(cs[..|cs| - 1], id, j);
    }
  }

  lemma {:induction false} AggregateAccounts(cs: seq<ModelCall>, id: string, k: ModelKey)
    ensures Accounts(Aggregate(OfSession(cs, id)), cs, id, k)
  {
    var mine := OfSession(cs, id);
    AggregateSumsUp(mine, k);
    ConsumedIsUsed(cs, id, k);
    if k in Aggregate(mine) {
      var i := FirstCallExists(cs, id, k);
    }
    forall i: nat | FirstCall(cs, id, k, i)
      ensures k in Aggregate(mine)
      ensures Aggregate(mine)[k].cost == cs[i].cost.(amount := Aggregate(mine)[k].cost.amount)
    {
      FirstCallOfSession(cs, id, k, i);
      AggregateKeepsFirstCost(mine, k);
    }
  }

  ghost predicate AccountsForSession(slices: SliceMap, cs: seq<ModelCall>) {
    forall i: nat, k | IsEarliest(cs, i) :: Accounts(slices, cs, cs[i].sessionId, k)
  }

  lemma {:induction false} AggregateAccountsForSession(cs: seq<ModelCall>)
    requires cs != []
    ensures AccountsForSession(Aggregate(AggregatedCalls(cs)), cs)
  {
    var j := EarliestAt(cs);
    forall i: nat, k | IsEarliest(cs, i)
      ensures Accounts(Aggregate(AggregatedCalls(cs)), cs, cs[i].sessionId, k)
    {
      assert i == j;
      AggregateAccounts(cs, cs[i].sessionId, k);
    }
  }

  /** The usage part of `aggregate_session`; its slices are listed from this map.  Only the session of
      the earliest message is added up. */
  method AggregateSession(messages: seq<ModelCall>) returns (grouped: Option<SliceMap>)
    ensures grouped == if messages == [] then None else Some(Aggregate(AggregatedCalls(messages)))
    ensures grouped.Some? ==> AccountsForSession(grouped.value, messages)
  {
    if |messages| == 0 {
      return None;
    }
    var first := FindEarliest(messages);
    var calls := OfSession(messages, first.sessionId);
    var slices := AddUpSlices(calls);
    grouped := Some(slices);
    AggregateAccountsForSession(messages);
  }

  /** The loop over the messages of one session */
  method AddUpSlices(calls: seq<ModelCall>) returns (slices: SliceMap)
    ensures slices == Aggregate(calls)
  {
    slices := map[];
    for i := 0 to |calls|
      invariant slices == Aggregate(calls[..i])
    {
      NextSlice(calls, i);
      var call := calls[i];
      var slice := if call.key in slices then slices[call.key] else EmptySlice(call);
      slices := slices[call.key := AddToSlice(slice, call)];
    }
    assert calls[..|calls|] == calls;
  }

  /* ---- By turn ---- */

  predicate IsLargest(s: set<u32>, m: u32) {
    m in s && forall x | x in s :: x <= m
  }

  function Largest(s: set<u32>): (m: u32)
    requires s != {}
    ensures IsLargest(s, m)
  {
    LargestExists(s);
    var m: u32 :| m in s && IsLargest(s, m);
    m
  }

  lemma {:induction false} LargestExists(s: set<u32>)
    requires s != {}
    ensures exists m: u32 :: m in s && IsLargest(s, m)
  {
    var a: u32 :| a in s;
    if s - {a} == {} {
      assert s == {a};
      assert IsLargest(s, a);
    } else {
      LargestExists(s - {a});
      var b: u32 :| b in s - {a} && IsLargest(s - {a}, b);
      LargestOfTwo(s, a, b);
    }
  }

  lemma {:induction false} LargestOfTwo(s: set<u32>, a: u32, b: u32)
    requires a in s && b in s && IsLargest(s - {a}, b)
    ensures IsLargest(s, if a <= b then b else a)
  {
    forall x | x in s
      ensures x <= a || x <= b
    {
      assert x == a || x in s - {a};
    }
  }

  /** The elements of `s` in the order in which a `BTreeMap` visits its keys */
  function Ascending(s: set<u32>): (r: seq<u32>)
    ensures forall x :: x in r <==> x in s
    ensures forall i, j | 0 <= i < j < |r| :: r[i] < r[j]
  {
    if s == {} then []
    else Ascending(s - {Largest(s)}) + [Largest(s)]
  }

  function TurnSet(cs: seq<ModelCall>): set<u32> {
    set i | 0 <= i < |cs| :: cs[i].turn
  }

  function TurnNumbers(cs: seq<ModelCall>): seq<u32> {
    Ascending(TurnSet(cs))
  }

  function InTurn(cs: seq<ModelCall>, turn: u32): (r: seq<ModelCall>)
    ensures |r| <= |cs|
  {
    if cs == [] then []
    else InTurn(cs[..|cs| - 1], turn) + if cs[|cs| - 1].turn == turn then [cs[|cs| - 1]] else []
  }

  function TurnsOf(cs: seq<ModelCall>, numbers: seq<u32>): seq<TurnSnapshot> {
    if numbers == [] then []
    else
      var last := numbers[|numbers| - 1];
      TurnsOf(cs, numbers[..|numbers| - 1]) + [Turn(last, InTurn(cs, last))]
  }

  lemma {:induction false} TurnsOfSnoc(cs: seq<ModelCall>, numbers: seq<u32>, t: u32)
    ensures TurnsOf(cs, numbers + [t]) == TurnsOf(cs, numbers) + [Turn(t, InTurn(cs, t))]
  {
    assert (numbers + [t])[..|numbers|] == numbers;
  }

  lemma {:induction false} TurnAt(cs: seq<ModelCall>, numbers: seq<u32>, i: nat)
    requires i < |numbers|
    ensures |TurnsOf(cs, numbers)| == |numbers|
    ensures TurnsOf(cs, numbers)[i] == Turn(numbers[i], InTurn(cs, numbers[i]))
  {
    if i < |numbers| - 1 {
      TurnAt(cs, numbers[..|numbers| - 1], i);
    } else if 0 < i {
      TurnAt(cs, numbers[..i], i - 1);
    }
  }

  /** The turns of a session before they are classified */
  function SessionTurns(cs: seq<ModelCall>): seq<TurnSnapshot> {
    TurnsOf(cs, TurnNumbers(cs))
  }

  predicate GroupsTurns(grouped: map<u32, seq<ModelCall>>, cs: seq<ModelCall>) {
    && grouped.Keys == TurnSet(cs)
    && forall t | t in grouped :: grouped[t] == InTurn(cs, t)
  }

  function AddToGroup(grouped: map<u32, seq<ModelCall>>, m: ModelCall): map<u32, seq<ModelCall>> {
    grouped[m.turn := (if m.turn in grouped then grouped[m.turn] else []) + [m]]
  }

  lemma {:induction false} InTurnSnoc(cs: seq<ModelCall>, m: ModelCall, turn: u32)
    ensures InTurn(cs + [m], turn) == InTurn(cs, turn) + if m.turn == turn then [m] else []
  {
    assert (cs + [m])[..|cs|] == cs;
  }

  lemma {:induction false} TurnSetSnoc(cs: seq<ModelCall>, m: ModelCall)
    ensures TurnSet(cs + [m]) == TurnSet(cs) + {m.turn}
  {
    var longer := cs + [m];
    assert longer[|cs|] == m;
    assert forall i | 0 <= i < |cs| :: longer[i] == cs[i];
  }

  lemma {:induction false} GroupNext(grouped: map<u32, seq<ModelCall>>, cs: seq<ModelCall>, m: ModelCall)
    requires GroupsTurns(grouped, cs)
    ensures GroupsTurns(AddToGroup(grouped, m), cs + [m])
  {
    TurnSetSnoc(cs, m);
    if m.turn !in grouped {
      AbsentTurn(cs, m.turn);
    }
    forall t | t in AddToGroup(grouped, m)
      ensures AddToGroup(grouped, m)[t] == InTurn(cs + [m], t)
    {
      InTurnSnoc(cs, m, t);
    }
  }

  lemma {:induction false} GroupAt(grouped: map<u32, seq<ModelCall>>, cs: seq<ModelCall>, i: nat)
    requires i < |cs| && GroupsTurns(grouped, cs[..i])
    ensures GroupsTurns(AddToGroup(grouped, cs[i]), cs[..i + 1])
  {
    GroupNext(grouped, cs[..i], cs[i]);
    assert cs[..i + 1] == cs[..i] + [cs[i]];
  }

  lemma {:induction false} GroupsNothing(cs: seq<ModelCall>)
    ensures GroupsTurns(map[], cs[..0])
  {}

  method GroupMessages(messages: seq<ModelCall>) returns (grouped: map<u32, seq<ModelCall>>)
    ensures GroupsTurns(grouped, messages)
  {
    grouped := map[];
    GroupsNothing(messages);
    for i := 0 to |messages|
      invariant GroupsTurns(grouped, messages[..i])
    {
      GroupAt(grouped, messages, i);
      grouped := AddToGroup(grouped, messages[i]);
    }
    assert messages[..|messages|] == messages;
  }

  lemma {:induction false} GroupedTurn(cs: seq<ModelCall>, grouped: map<u32, seq<ModelCall>>, i: nat)
    requires GroupsTurns(grouped, cs) && i < |TurnNumbers(cs)|
    ensures TurnNumbers(cs)[i] in grouped && grouped[TurnNumbers(cs)[i]] == InTurn(cs, TurnNumbers(cs)[i])
  {}

  lemma {:induction false} NextTurn(cs: seq<ModelCall>, numbers: seq<u32>, i: nat)
    requires i < |numbers|
    ensures TurnsOf(cs, numbers[..i + 1]) == TurnsOf(cs, numbers[..i]) + [Turn(numbers[i], InTurn(cs, numbers[i]))]
  {
    assert numbers[..i + 1] == numbers[..i] + [numbers[i]];
    TurnsOfSnoc(cs, numbers[..i], numbers[i]);
  }

  /** One turn for every number among the messages, in ascending order, made of its messages */
  lemma {:induction false} SessionTurnsAre(cs: seq<ModelCall>)
    ensures var turns, numbers := SessionTurns(cs), TurnNumbers(cs);
            && |turns| == |numbers|
            && (forall i | 0 <= i < |turns| :: turns[i] == Turn(numbers[i], InTurn(cs, numbers[i])))
            && (forall i, j | 0 <= i < j < |numbers| :: numbers[i] < numbers[j])
            && (forall n :: n in numbers <==> exists m :: 0 <= m < |cs| && cs[m].turn == n)
  {
    var turns, numbers := SessionTurns(cs), TurnNumbers(cs);
    TurnsOfLength(cs, numbers);
    forall i | 0 <= i < |turns|
      ensures turns[i] == Turn(numbers[i], InTurn(cs, numbers[i]))
    {
      TurnAt(cs, numbers, i);
    }
  }

  /** The first lines of `classify_turns` */
  method GroupTurns(messages: seq<ModelCall>) returns (turns: seq<TurnSnapshot>)
    ensures turns == SessionTurns(messages)
  {
    var grouped := GroupMessages(messages);
    var numbers := Ascending(grouped.Keys);
    turns := [];
    for i := 0 to |numbers|
      invariant turns == TurnsOf(messages, numbers[..i])
    {
      GroupedTurn(messages, grouped, i);
      NextTurn(messages, numbers, i);
      var turn := TurnFromMessages(numbers[i], grouped[numbers[i]]);
      turns := turns + [turn];
    }
    assert numbers[..|numbers|] == numbers;
  }

  lemma {:induction false} AbsentTurn(cs: seq<ModelCall>, turn: u32)
    requires turn !in TurnSet(cs)
    ensures InTurn(cs, turn) == []
  {
    if cs != [] {
      AbsentTurn(cs[..|cs| - 1], turn);
    }
  }

  /** All steps of all turns, in order */
  function AllSteps(turns: seq<TurnSnapshot>): seq<ModelActivityStep> {
    if turns == [] then [] else AllSteps(turns[..|turns| - 1]) + turns[|turns| - 1].modelActivity
  }

  lemma {:induction false} AllStepsSnoc(turns: seq<TurnSnapshot>, turn: TurnSnapshot)
    ensures AllSteps(turns + [turn]) == AllSteps(turns) + turn.modelActivity
  {
    assert (turns + [turn])[..|turns|] == turns;
  }

  function ByTurn(): ModelCall -> u32 {
    (m: ModelCall) => m.turn
  }

  /** The messages of one turn, counted in any order */
  lemma {:induction false} TotalInTurn(cs: seq<ModelCall>, turn: u32, f: ModelCall -> Ledger)
    ensures Total(InTurn(cs, turn), f) == Total(cs, Only<ModelCall, u32>(f, ByTurn(), turn))
  {
    if cs != [] {
      var front, m := cs[..|cs| - 1], cs[|cs| - 1];
      var only, mine := Only<ModelCall, u32>(f, ByTurn(), turn), InTurn(front, turn);
      TotalInTurn(front, turn, f);
      assert cs == front + [m];
      TotalSnoc(front, m, only);
      if m.turn == turn {
        assert InTurn(cs, turn) == mine + [m];
        TotalSnoc(mine, m, f);
      } else {
        assert InTurn(cs, turn) == mine;
        PlusZero(Total(front, only));
      }
    }
  }

  lemma {:induction false} TurnConserves(cs: seq<ModelCall>, turn: u32, p: ModelKey -> bool)
    requires |cs| <= U32_MAX
    ensures CappedFrom(Total(Turn(turn, InTurn(cs, turn)).modelActivity, StepMeter(p)),
                       ClassTotal<ModelCall, u32>(cs, CallMeter(p), ByTurn())(turn))
  {
    var mine := InTurn(cs, turn);
    var ordered := ActivityOrder(mine);
    StepsConserve(ordered, p);
    ActivityOrderSorts(mine);
    TotalPermutation(ordered, mine, CallMeter(p));
    TotalInTurn(cs, turn, CallMeter(p));
  }

  lemma {:induction false} NextTurnConserves(turns: seq<TurnSnapshot>, turn: TurnSnapshot, numbers: seq<u32>,
                                             number: u32,
                          g: u32 -> Ledger, p: ModelKey -> bool)
    requires CappedFrom(Total(AllSteps(turns), StepMeter(p)), Total<u32>(numbers, g))
    requires CappedFrom(Total(turn.modelActivity, StepMeter(p)), g(number))
    ensures CappedFrom(Total(AllSteps(turns + [turn]), StepMeter(p)), Total<u32>(numbers + [number], g))
  {
    AllStepsSnoc(turns, turn);
    TotalAppend(AllSteps(turns), turn.modelActivity, StepMeter(p));
    TotalSnoc<u32>(numbers, number, g);
    CappedFromPlus(Total(AllSteps(turns), StepMeter(p)), Total<u32>(numbers, g),
                   Total(turn.modelActivity, StepMeter(p)), g(number));
  }

  /** The turns with these numbers hold what the calls in them hold. */
  predicate Conserved(cs: seq<ModelCall>, numbers: seq<u32>, p: ModelKey -> bool) {
    CappedFrom(Total(AllSteps(TurnsOf(cs, numbers)), StepMeter(p)),
               Total<u32>(numbers, ClassTotal<ModelCall, u32>(cs, CallMeter(p), ByTurn())))
  }

  lemma {:induction false} ConservedNext(cs: seq<ModelCall>, numbers: seq<u32>, front: seq<u32>, t: u32,
                                         p: ModelKey -> bool)
    requires |cs| <= U32_MAX && numbers == front + [t] && Conserved(cs, front, p)
    ensures Conserved(cs, numbers, p)
  {
    TurnConserves(cs, t, p);
    NextTurnConserves(TurnsOf(cs, front), Turn(t, InTurn(cs, t)), front, t,
                      ClassTotal<ModelCall, u32>(cs, CallMeter(p), ByTurn()), p);
    TurnsOfSnoc(cs, front, t);
  }

  lemma {:induction false} NothingConserved(cs: seq<ModelCall>, numbers: seq<u32>, p: ModelKey -> bool)
    requires numbers == []
    ensures Conserved(cs, numbers, p)
  {}

  lemma {:induction false} TurnsConserve(cs: seq<ModelCall>, numbers: seq<u32>, p: ModelKey -> bool)
    requires |cs| <= U32_MAX
    ensures Conserved(cs, numbers, p)
  {
    if numbers == [] {
      NothingConserved(cs, numbers, p);
    } else {
      TurnsConserve(cs, numbers[..|numbers| - 1], p);
      ConservedNext(cs, numbers, numbers[..|numbers| - 1], numbers[|numbers| - 1], p);
    }
  }

  lemma {:induction false} TurnNumbersCover(cs: seq<ModelCall>)
    ensures Distinct<u32>(TurnNumbers(cs))
    ensures forall m | m in cs :: m.turn in TurnNumbers(cs)
  {}

  /** Whatever models are looked at: grouping by turn, reordering and compacting lose nothing
      but what saturation would have lost anyway. */
  lemma {:induction false} SessionTurnsConserve(cs: seq<ModelCall>, p: ModelKey -> bool)
    requires |cs| <= U32_MAX
    ensures CappedFrom(Total(AllSteps(SessionTurns(cs)), StepMeter(p)), Total(cs, CallMeter(p)))
  {
    var numbers := TurnNumbers(cs);
    TurnsConserve(cs, numbers, p);
    TurnNumbersCover(cs);
    TotalByClass<ModelCall, u32>(cs, CallMeter(p), ByTurn(), numbers);
  }

  /* ---- Which models were used ---- */

  lemma {:induction false} InTurnMembers(cs: seq<ModelCall>, turn: u32, c: ModelCall)
    ensures c in InTurn(cs, turn) <==> c in cs && c.turn == turn
  {
    if cs != [] {
      var front, last := cs[..|cs| - 1], cs[|cs| - 1];
      assert cs == front + [last];
      InTurnMembers(front, turn, c);
    }
  }

  /** The messages of a turn stand in their given order: `at` lists where they come from. */
  lemma {:induction false} InTurnKeepsOrder(cs: seq<ModelCall>, turn: u32) returns (at: seq<nat>)
    ensures |at| == |InTurn(cs, turn)|
    ensures forall p | 0 <= p < |at| :: at[p] < |cs| && InTurn(cs, turn)[p] == cs[at[p]]
    ensures forall p, q | 0 <= p < q < |at| :: at[p] < at[q]
    ensures forall i | 0 <= i < |cs| :: i in at <==> cs[i].turn == turn
  {
    if cs == [] {
      at := [];
    } else {
      at := InTurnKeepsOrder(cs[..|cs| - 1], turn);
      if cs[|cs| - 1].turn == turn {
        at := at + [|cs| - 1];
      }
    }
  }

  lemma {:induction false} TurnStepKeys(cs: seq<ModelCall>, turn: u32, k: ModelKey)
    requires |cs| <= U32_MAX
    ensures (exists s :: s in Turn(turn, InTurn(cs, turn)).modelActivity && StepKey(s) == k)
       <==> (exists c :: c in cs && c.turn == turn && c.key == k)
  {
    var mine := InTurn(cs, turn);
    var ordered := ActivityOrder(mine);
    StepKeysAreCallKeys(ordered, k);
    ActivityOrderSorts(mine);
    forall c
      ensures c in ordered <==> c in cs && c.turn == turn
    {
      assert c in ordered <==> c in multiset(ordered);
      assert c in mine <==> c in multiset(mine);
      InTurnMembers(cs, turn, c);
    }
  }

  predicate TurnHolds(turns: seq<TurnSnapshot>, i: nat, s: ModelActivityStep) {
    i < |turns| && s in turns[i].modelActivity
  }

  lemma {:induction false} StepHasTurn(turns: seq<TurnSnapshot>, s: ModelActivityStep) returns (i: nat)
    requires s in AllSteps(turns)
    ensures TurnHolds(turns, i, s)
  {
    var n := |turns| - 1;
    if s in turns[n].modelActivity {
      i := n;
    } else {
      i := StepHasTurn(turns[..n], s);
    }
  }

  lemma {:induction false} TurnGivesStep(turns: seq<TurnSnapshot>, i: nat, s: ModelActivityStep)
    requires TurnHolds(turns, i, s)
    ensures s in AllSteps(turns)
  {
    var n := |turns| - 1;
    if i < n {
      TurnGivesStep(turns[..n], i, s);
    }
  }

  lemma {:induction false} StepInSomeTurn(turns: seq<TurnSnapshot>, s: ModelActivityStep)
    ensures s in AllSteps(turns) <==> exists i :: 0 <= i < |turns| && s in turns[i].modelActivity
  {
    if s in AllSteps(turns) {
      var i := StepHasTurn(turns, s);
      assert s in turns[i].modelActivity;
    }
    if i :| 0 <= i < |turns| && s in turns[i].modelActivity {
      TurnGivesStep(turns, i, s);
    }
  }

  /** The turns mention exactly the models that were called. */
  lemma {:induction false} SessionStepKeys(cs: seq<ModelCall>, k: ModelKey)
    requires |cs| <= U32_MAX
    ensures (exists s :: s in AllSteps(SessionTurns(cs)) && StepKey(s) == k) <==> (exists c :: c in cs && c.key == k)
  {
    var turns, numbers := SessionTurns(cs), TurnNumbers(cs);
    if exists s :: s in AllSteps(turns) && StepKey(s) == k {
      var s :| s in AllSteps(turns) && StepKey(s) == k;
      StepInSomeTurn(turns, s);
      var i :| 0 <= i < |turns| && s in turns[i].modelActivity;
      TurnsOfLength(cs, numbers);
      TurnAt(cs, numbers, i);
      TurnStepKeys(cs, numbers[i], k);
    }
    if exists c :: c in cs && c.key == k {
      var c :| c in cs && c.key == k;
      TurnNumbersCover(cs);
      var i :| 0 <= i < |numbers| && numbers[i] == c.turn;
      TurnAt(cs, numbers, i);
      TurnStepKeys(cs, numbers[i], k);
      var s :| s in Turn(numbers[i], InTurn(cs, numbers[i])).modelActivity && StepKey(s) == k;
      assert s in turns[i].modelActivity;
      StepInSomeTurn(turns, s);
    }
  }

  lemma {:induction false} TurnsOfLength(cs: seq<ModelCall>, numbers: seq<u32>)
    ensures |TurnsOf(cs, numbers)| == |numbers|
  {
    if numbers != [] {
      TurnsOfLength(cs, numbers[..|numbers| - 1]);
    }
  }
}
