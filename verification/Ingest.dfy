/** From the client's messages to the server's priced snapshot, with the server's names. */
module Ingest {
  import opened Ledgers
  import opened Text
  import opened Usage
  import opened Turns
  import opened Sessions
  import opened Reconciliation
  import opened Repricing
  import opened Spreading

  /** The key under which `validate_snapshot` books and prices are looked up */
  function ServerKey(): Names {
    (k: ModelKey) => ModelKey(AsciiLower(Trim(k.provider)), Canonical(k.model))
  }

  /** The key by which `apply_server_prices` matches steps: letter case is ignored, blanks are not. */
  function FoldKey(): Names {
    (k: ModelKey) => ModelKey(AsciiLower(k.provider), Canonical(k.model))
  }

  /* ---- Lower-casing and trimming commute ---- */

  lemma {:induction false} LowerKeepsBlank(c: char)
    ensures IsWhitespace(AsciiLowerChar(c)) == IsWhitespace(c)
  {}

  lemma {:induction false} LowerOfSlice(s: string, i: nat, j: nat)
    requires i <= j <= |s|
    ensures AsciiLower(s)[i..j] == AsciiLower(s[i..j])
  {}

  lemma {:induction false} TrimStartLower(s: string)
    ensures TrimStart(AsciiLower(s)) == AsciiLower(TrimStart(s))
  {
    if s != [] {
      LowerKeepsBlank(s[0]);
      LowerOfSlice(s, 1, |s|);
      TrimStartLower(s[1..]);
    }
  }

  lemma {:induction false} TrimEndLower(s: string)
    ensures TrimEnd(AsciiLower(s)) == AsciiLower(TrimEnd(s))
  {
    if s != [] {
      LowerKeepsBlank(s[|s| - 1]);
      LowerOfSlice(s, 0, |s| - 1);
      TrimEndLower(s[..|s| - 1]);
    }
  }

  /** Models that repricing takes for the same are the same to the check. */
  lemma {:induction false} FoldIsFiner()
    ensures Finer(FoldKey(), ServerKey())
  {
    forall a: ModelKey, b: ModelKey | FoldKey()(a) == FoldKey()(b)
      ensures ServerKey()(a) == ServerKey()(b)
    {
      TrimOfLower(a.provider);
      TrimOfLower(b.provider);
    }
  }

  lemma {:induction false} TrimOfLower(s: string)
    ensures AsciiLower(Trim(s)) == Trim(AsciiLower(s))
  {
    TrimStartLower(s);
    TrimEndLower(TrimStart(s));
  }

  /** Where no provider id carries surrounding blanks, both keys are the same. */
  lemma {:induction false} UnblankedAlike(steps: seq<ModelActivityStep>, usage: seq<UsageSlice>)
    requires forall i | 0 <= i < |steps| :: Trim(steps[i].providerId) == steps[i].providerId
    requires forall j | 0 <= j < |usage| :: Trim(usage[j].providerId) == usage[j].providerId
    ensures SpelledAlike(steps, usage, ServerKey(), FoldKey())
  {
    FoldIsFiner();
    assert forall i | 0 <= i < |steps| :: ServerKey()(StepKey(steps[i])) == FoldKey()(StepKey(steps[i]));
    assert forall j | 0 <= j < |usage| :: ServerKey()(SliceKey(usage[j])) == FoldKey()(SliceKey(usage[j]));
  }

  /* ---- The client's snapshots ---- */

  /** The client spells a model the same way in turns and slices. */
  lemma {:induction false} ClientAlike(cs: seq<ModelCall>, usage: seq<UsageSlice>, norm: Names, fold: Names)
    requires |cs| <= U32_MAX && Lists(usage, Aggregate(cs)) && InjectiveOn(norm, cs) && Finer(fold, norm)
    ensures SpelledAlike(AllSteps(SessionTurns(cs)), usage, norm, fold)
  {
    var steps := AllSteps(SessionTurns(cs));
    forall i, j | 0 <= i < |steps| && 0 <= j < |usage| && norm(StepKey(steps[i])) == norm(SliceKey(usage[j]))
      ensures fold(StepKey(steps[i])) == fold(SliceKey(usage[j]))
    {
      StepNameIsUsed(cs, i);
      ListedSlice(cs, usage, usage[j]);
    }
  }

  /** Reported or not: what a client's steps say was spent on a model is what its slice says. */
  lemma {:induction false} ClientLeavesNoGap(cs: seq<ModelCall>, usage: seq<UsageSlice>, norm: Names)
    requires |cs| <= U32_MAX && Lists(usage, Aggregate(cs)) && InjectiveOn(norm, cs)
    ensures ReportedGap(usage, AllSteps(SessionTurns(cs)), norm) == 0.0
  {
    forall slice | slice in usage
      ensures Gap(slice, AllSteps(SessionTurns(cs)), norm) == 0.0
    {
      ListedSlice(cs, usage, slice);
      BookedIsUsed(cs, norm, SliceKey(slice));
    }
    NoReportedGap(usage, AllSteps(SessionTurns(cs)), norm);
  }

  predicate CallsNonNegative(cs: seq<ModelCall>) {
    forall i | 0 <= i < |cs| :: 0.0 <= cs[i].cost.amount
  }

  lemma {:induction false} StepsNonNegative(cs: seq<ModelCall>)
    requires CallsNonNegative(cs)
    ensures CostsNonNegative(Steps(cs))
  {
    if cs != [] {
      StepsNonNegative(cs[..|cs| - 1]);
    }
  }

  lemma {:induction false} TurnsNonNegative(cs: seq<ModelCall>, numbers: seq<u32>)
    requires CallsNonNegative(cs)
    ensures CostsNonNegative(AllSteps(TurnsOf(cs, numbers)))
  {
    if numbers != [] {
      var front, t := numbers[..|numbers| - 1], numbers[|numbers| - 1];
      TurnsNonNegative(cs, front);
      assert numbers == front + [t];
      TurnsOfSnoc(cs, front, t);
      AllStepsSnoc(TurnsOf(cs, front), Turn(t, InTurn(cs, t)));
      OrderedNonNegative(cs, t);
      StepsNonNegative(ActivityOrder(InTurn(cs, t)));
    }
  }

  lemma {:induction false} OrderedNonNegative(cs: seq<ModelCall>, turn: u32)
    requires CallsNonNegative(cs)
    ensures CallsNonNegative(ActivityOrder(InTurn(cs, turn)))
  {
    var mine := InTurn(cs, turn);
    var ordered := ActivityOrder(mine);
    ActivityOrderSorts(mine);
    forall i | 0 <= i < |ordered|
      ensures 0.0 <= ordered[i].cost.amount
    {
      assert ordered[i] in multiset(ordered);
      assert ordered[i] in multiset(mine);
      InTurnMembers(cs, turn, ordered[i]);
    }
  }

  lemma {:induction false} TotalNonNegative<T>(xs: seq<T>, f: T -> Ledger)
    requires forall x | x in xs :: 0.0 <= f(x).cost
    ensures 0.0 <= Total(xs, f).cost
  {
    if xs != [] {
      TotalNonNegative(xs[1..], f);
    }
  }

  lemma {:induction false} SlicesNonNegative(cs: seq<ModelCall>, usage: seq<UsageSlice>)
    requires CallsNonNegative(cs) && Lists(usage, Aggregate(cs))
    ensures AmountsNonNegative(usage)
  {
    forall i | 0 <= i < |usage|
      ensures 0.0 <= usage[i].cost.amount
    {
      var k := SliceKey(usage[i]);
      ListedSlice(cs, usage, usage[i]);
      TotalNonNegative(cs, Only(CallEntry(), ByModel(), k));
    }
  }

  lemma {:induction false} BookedWithin(steps: seq<ModelActivityStep>, norm: Names, k: ModelKey)
    ensures Booked(steps, norm, k).Grand() <= Total(steps, StepEntry()).Grand()
  {
    if steps != [] {
      BookedWithin(steps[1..], norm, k);
      assert steps == [steps[0]] + steps[1..];
      BookedCons(steps[0], steps[1..], norm, k);
    }
  }

  lemma {:induction false} ClientTokensFit(cs: seq<ModelCall>, fold: Names)
    requires |cs| <= U32_MAX && Total(cs, CallEntry()).Grand() <= U64_MAX
    ensures TokensFit(AllSteps(SessionTurns(cs)), fold)
  {
    var steps := AllSteps(SessionTurns(cs));
    TurnsHoldEverything(cs);
    forall k
      ensures Booked(steps, fold, k).Grand() <= U64_MAX
    {
      BookedWithin(steps, fold, k);
    }
  }

  lemma {:induction false} ClientRepriceable(cs: seq<ModelCall>, usage: seq<UsageSlice>, prices: Prices, norm: Names,
                                             fold: Names)
    requires |cs| <= U32_MAX && Lists(usage, Aggregate(cs)) && InjectiveOn(norm, cs) && Finer(fold, norm)
    requires Total(cs, CallEntry()).Grand() <= U64_MAX
    requires CallsNonNegative(cs) && HasPrices(usage, prices, norm)
    ensures Repriceable(AllSteps(SessionTurns(cs)), usage, prices, norm, fold)
  {
    ClientAlike(cs, usage, norm, fold);
    SlicesNonNegative(cs, usage);
    ClientTokensFit(cs, fold);
  }

  lemma {:induction false} SurvivesBy(cs: seq<ModelCall>, usage: seq<UsageSlice>, prices: Prices, norm: Names,
                                      fold: Names)
    requires |cs| <= U32_MAX && Lists(usage, Aggregate(cs)) && InjectiveOn(norm, cs) && Finer(fold, norm)
    requires Total(cs, CallEntry()).Grand() <= U64_MAX
    requires CallsNonNegative(cs) && HasPrices(usage, prices, norm)
    ensures Reconciles(SessionTurns(cs), usage, norm)
    ensures Reconciles(Repriced(SessionTurns(cs), usage, prices, norm, fold), PriceAll(usage, prices, norm), norm)
    ensures CostsNonNegative(AllSteps(Repriced(SessionTurns(cs), usage, prices, norm, fold)))
  {
    ClientSnapshotReconciles(cs, usage, norm);
    ClientRepriceable(cs, usage, prices, norm, fold);
    ClientLeavesNoGap(cs, usage, norm);
    RepriceableReconciles(SessionTurns(cs), usage, prices, norm, fold);
    TurnsNonNegative(cs, TurnNumbers(cs));
    RepricedNonNegative(SessionTurns(cs), usage, prices, norm, fold);
  }

  /** The whole way: the snapshot that a client builds from the messages of one session passes the
      server's check, and it still passes after the server has replaced the prices - provided the
      session's models stay apart when the server folds their names. */
  lemma {:induction false} SnapshotSurvivesIngest(messages: seq<UsageMessage>, usage: seq<UsageSlice>, prices: Prices)
    requires |messages| <= U32_MAX && Lists(usage, Aggregate(CallsOf(messages)))
    requires InjectiveOn(ServerKey(), CallsOf(messages))
    requires Total(CallsOf(messages), CallEntry()).Grand() <= U64_MAX
    requires CallsNonNegative(CallsOf(messages)) && HasPrices(usage, prices, ServerKey())
    ensures Reconciles(SessionTurns(CallsOf(messages)), usage, ServerKey())
    ensures Reconciles(Repriced(SessionTurns(CallsOf(messages)), usage, prices, ServerKey(), FoldKey()),
                       PriceAll(usage, prices, ServerKey()), ServerKey())
  {
    FoldIsFiner();
    SurvivesBy(CallsOf(messages), usage, prices, ServerKey(), FoldKey());
  }

  /* ---- Sessions that do not pass ---- */

  lemma {:induction false} ListingNext(slices: SliceMap, k: ModelKey, others: seq<UsageSlice>)
    requires k in slices && SliceKey(slices[k]) == k && Lists(others, slices - {k})
    ensures Lists(others + [slices[k]], slices)
  {
    var usage, rest := others + [slices[k]], slices - {k};
    forall slice | slice in others
      ensures SliceKey(slice) in rest
    {}
    forall i, j | 0 <= i < j < |usage|
      ensures SliceKey(usage[i]) != SliceKey(usage[j])
    {
      assert others[i] in others;
    }
    forall l | l in slices
      ensures slices[l] in usage
    {
      if l == k {
        assert usage[|others|] == slices[k];
      } else {
        assert l in rest && rest[l] in others;
      }
    }
  }

  /** The slices can always be listed. */
  lemma {:induction false} ListingExists(slices: SliceMap) returns (usage: seq<UsageSlice>)
    requires forall k | k in slices :: SliceKey(slices[k]) == k
    ensures Lists(usage, slices)
    decreases |slices|
  {
    if slices == map[] {
      usage := [];
    } else {
      var k :| k in slices;
      var others := ListingExists(slices - {k});
      ListingNext(slices, k, others);
      usage := others + [slices[k]];
    }
  }

  lemma {:induction false} SlicesAreKeyed(cs: seq<ModelCall>)
    ensures forall k | k in Aggregate(cs) :: SliceKey(Aggregate(cs)[k]) == k
  {
    forall k | k in Aggregate(cs)
      ensures SliceKey(Aggregate(cs)[k]) == k
    {
      AggregateSumsUp(cs, k);
    }
  }

  /** A session in which two messages name a model in ways that differ to the client, but not to the
      server, is rejected - however its slices are listed, and whatever it consumed. */
  lemma {:induction false} MixedSpellingsFail(messages: seq<UsageMessage>, usage: seq<UsageSlice>, norm: Names, i: nat,
                                              j: nat)
    requires |messages| <= U32_MAX && Lists(usage, Aggregate(CallsOf(messages)))
    requires i < |messages| && j < |messages| && CallOf(messages[i]).key != CallOf(messages[j]).key
    requires norm(CallOf(messages[i]).key) == norm(CallOf(messages[j]).key)
    ensures !Reconciles(SessionTurns(CallsOf(messages)), usage, norm)
  {
    var cs := CallsOf(messages);
    ClientModelsReconcile(cs, usage, norm);
    assert cs[i] in cs && cs[j] in cs;
  }

  function Message(provider: string, model: string): UsageMessage {
    UsageMessage("", 0, provider, model, NO_TOKENS, Cost(0.0, "USD", Reported, None, None), 1, 0, [])
  }

  predicate NamesModel(message: UsageMessage, provider: string, model: string) {
    message.providerId == provider && message.modelId == model
  }

  /** A session of two messages */
  predicate IsPair(messages: seq<UsageMessage>, p: string, m: string, q: string, n: string) {
    && |messages| == 2 && NamesModel(messages[0], p, m) && NamesModel(messages[1], q, n)
    && messages[0].sessionId == messages[1].sessionId
  }

  lemma {:induction false} NamedKey(message: UsageMessage, provider: string, model: string)
    requires NamesModel(message, provider, model)
    ensures CallOf(message).key == ModelKey(provider, Canonical(model))
  {}

  lemma {:induction false} PairCollides(messages: seq<UsageMessage>, usage: seq<UsageSlice>, norm: Names, a: ModelKey,
                                        b: ModelKey)
    requires |messages| == 2
    requires CallOf(messages[0]).key == a && CallOf(messages[1]).key == b && a != b && norm(a) == norm(b)
    requires Lists(usage, Aggregate(CallsOf(messages)))
    ensures !Reconciles(SessionTurns(CallsOf(messages)), usage, norm)
  {
    MixedSpellingsFail(messages, usage, norm, 0, 1);
  }

  lemma {:induction false} PairExists(p: string, m: string, q: string, n: string)
    returns (messages: seq<UsageMessage>, usage: seq<UsageSlice>)
    ensures IsPair(messages, p, m, q, n) && Lists(usage, Aggregate(CallsOf(messages)))
  {
    messages := [Message(p, m), Message(q, n)];
    SlicesAreKeyed(CallsOf(messages));
    usage := ListingExists(Aggregate(CallsOf(messages)));
  }

  lemma {:induction false} PairFails(p: string, m: string, q: string, n: string)
    returns (messages: seq<UsageMessage>, usage: seq<UsageSlice>)
    requires ModelKey(p, Canonical(m)) != ModelKey(q, Canonical(n))
    requires ServerKey()(ModelKey(p, Canonical(m))) == ServerKey()(ModelKey(q, Canonical(n)))
    ensures IsPair(messages, p, m, q, n) && Lists(usage, Aggregate(CallsOf(messages)))
    ensures !Reconciles(SessionTurns(CallsOf(messages)), usage, ServerKey())
  {
    messages, usage := PairExists(p, m, q, n);
    NamedKey(messages[0], p, m);
    NamedKey(messages[1], q, n);
    PairCollides(messages, usage, ServerKey(), ModelKey(p, Canonical(m)), ModelKey(q, Canonical(n)));
  }

  lemma {:induction false} CaseIsFolded(upper: string, lower: string)
    requires upper == ['A', 'b'] && lower == ['a', 'b']
    ensures AsciiLower(Trim(upper)) == AsciiLower(Trim(lower))
  {
    TrimNothing(upper);
    TrimNothing(lower);
    assert AsciiLower(upper) == AsciiLower(lower);
  }

  /** The client keeps provider ids as they are, the server ignores their letter case: a session with
      the providers "Ab" and "ab" is rejected. */
  lemma {:induction false} ProviderCaseMayFail(model: string)
    returns (messages: seq<UsageMessage>, usage: seq<UsageSlice>)
    ensures IsPair(messages, ['A', 'b'], model, ['a', 'b'], model) && Lists(usage, Aggregate(CallsOf(messages)))
    ensures !Reconciles(SessionTurns(CallsOf(messages)), usage, ServerKey())
  {
    CaseIsFolded(['A', 'b'], ['a', 'b']);
    messages, usage := PairFails(['A', 'b'], model, ['a', 'b'], model);
  }

  lemma {:induction false} BlankIsFolded(blank: string, plain: string)
    requires blank == ['a', ' '] && plain == ['a']
    ensures Trim(blank) == Trim(plain)
  {
    TrimNothing(plain);
    assert TrimStart(blank) == blank && blank[..1] == plain;
    assert TrimEnd(blank) == TrimEnd(plain);
  }

  /** Nor do surrounding blanks count for the server. */
  lemma {:induction false} ProviderBlankMayFail(model: string)
    returns (messages: seq<UsageMessage>, usage: seq<UsageSlice>)
    ensures IsPair(messages, ['a', ' '], model, ['a'], model) && Lists(usage, Aggregate(CallsOf(messages)))
    ensures !Reconciles(SessionTurns(CallsOf(messages)), usage, ServerKey())
  {
    BlankIsFolded(['a', ' '], ['a']);
    messages, usage := PairFails(['a', ' '], model, ['a'], model);
  }

  lemma {:induction false} PlainNameStays(name: string)
    requires |name| == 1 && 'a' <= name[0] <= 'z'
    ensures Canonical(name) == name && FoldedEnd(name) == name
  {
    assert forall c | c in name :: Plain(c);
    assert TrimEnd(name) == name;
    NormalizePlain(name);
    CanonicalOfTrimmed(name);
  }

  lemma {:induction false} PrefixIsFolded(prefix: string, name: string)
    requires prefix == VENDOR_PREFIX && Canonical(name) == name && FoldedEnd(name) == name
    ensures Canonical(prefix + name) == name && Canonical(prefix + (prefix + name)) == prefix + name
  {
    VendorSpelled(prefix);
    CanonicalStripsOnePrefix(prefix, prefix, name);
  }

  /** A model that is named with one vendor prefix and with two is one model to the server only. */
  lemma {:induction false} PrefixMayFail(provider: string, prefix: string, name: string)
    returns (messages: seq<UsageMessage>, usage: seq<UsageSlice>)
    requires prefix == VENDOR_PREFIX && |name| == 1 && 'a' <= name[0] <= 'z'
    ensures IsPair(messages, provider, prefix + name, provider, prefix + (prefix + name))
    ensures Lists(usage, Aggregate(CallsOf(messages)))
    ensures !Reconciles(SessionTurns(CallsOf(messages)), usage, ServerKey())
  {
    PlainNameStays(name);
    PrefixIsFolded(prefix, name);
    messages, usage := PairFails(provider, prefix + name, provider, prefix + (prefix + name));
  }
}
