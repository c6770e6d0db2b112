/** `classify_batch`: one request for several texts, and single requests for the rest. */
module BatchClassifier {
  import opened Ledgers
  import opened Text
  import U = Usage
  import C = Categories

  /* ---- Reading an answer ---- */

  datatype BatchItem = BatchItem(index: nat, category: string, confidence: real)

  function CategoryNamed(name: string): Option<C.CategoryId> {
    if name == "implementation" then Some(C.Implementation)
    else if name == "debugging" then Some(C.Debugging)
    else if name == "research" then Some(C.Research)
    else if name == "documentation" then Some(C.Documentation)
    else if name == "review_refactoring" then Some(C.ReviewRefactoring)
    else if name == "testing" then Some(C.Testing)
    else if name == "planning" then Some(C.Planning)
    else if name == "operations" then Some(C.Operations)
    else if name == "content" then Some(C.Content)
    else if name == "unknown" then Some(C.Unknown)
    else None
  }

  function Clamped(x: real): real {
    if x < 0.0 then 0.0 else if x > 1.0 then 1.0 else x
  }

  /** `parse_assignment` */
  function Parse(item: BatchItem, model: string): Option<C.Assignment> {
    match CategoryNamed(item.category)
    case None => None
    case Some(category) =>
      Some(C.Assignment(category, Clamped(item.confidence), C.TAXONOMY_VERSION, "openai-compatible:" + model,
                        C.Classified))
  }

  /** An item is readable exactly if it names a category; its confidence is forced between 0 and 1. */
  lemma {:induction false} ReadableItems(item: BatchItem, model: string, category: C.CategoryId)
    ensures Parse(item, model).Some? && Parse(item, model).value.categoryId == category
       <==> item.category == C.NameOf(category)
    ensures var parsed := Parse(item, model);
            parsed.Some? ==>
              var a, x := parsed.value, item.confidence;
              && a.confidence == (if x <= 0.0 then 0.0 else if 1.0 <= x then 1.0 else x)
              && a.taxonomyVersion == "2026-01" && a.classifierId == "openai-compatible:" + model
              && a.status == C.Classified
  {}

  type Parser = BatchItem -> Option<C.Assignment>

  /** What the answer has for text `k`: the first item with that index decides, readable or not. */
  function Reading(items: seq<BatchItem>, k: nat, parse: Parser): Option<C.Assignment> {
    if items == [] then None
    else if items[0].index == k then parse(items[0])
    else Reading(items[1..], k, parse)
  }

  predicate Mentioned(items: seq<BatchItem>, k: nat) {
    exists i :: 0 <= i < |items| && items[i].index == k
  }

  lemma {:induction false} ReadingSnoc(items: seq<BatchItem>, item: BatchItem, k: nat, parse: Parser)
    ensures Reading(items + [item], k, parse)
         == if Mentioned(items, k) then Reading(items, k, parse) else if item.index == k then parse(item) else None
    ensures Mentioned(items + [item], k) <==> Mentioned(items, k) || item.index == k
  {
    var longer := items + [item];
    assert longer[|items|] == item;
    assert forall i | 0 <= i < |items| :: longer[i] == items[i];
    if items != [] {
      ReadingSnoc(items[1..], item, k, parse);
      assert longer[1..] == items[1..] + [item];
      if Mentioned(items, k) && items[0].index != k {
        var i :| 0 <= i < |items| && items[i].index == k;
        assert items[1..][i - 1].index == k;
      }
      if Mentioned(items[1..], k) {
        var i :| 0 <= i < |items[1..]| && items[1..][i].index == k;
        assert items[i + 1].index == k;
      }
    }
  }

  type Readings = map<nat, C.Assignment>

  ghost predicate ReadingsOf(readings: Readings, items: seq<BatchItem>, expected: nat, parse: Parser) {
    && (forall k: nat :: k in readings <==> k < expected && Reading(items, k, parse).Some?)
    && (forall k | k in readings :: Reading(items, k, parse) == Some(readings[k]))
  }

  lemma {:induction false} NextItem(readings: Readings, seen: set<nat>, items: seq<BatchItem>, item: BatchItem,
                                    expected: nat, parse: Parser)
    requires ReadingsOf(readings, items, expected, parse)
    requires forall k: nat | k < expected :: k in seen <==> Mentioned(items, k)
    ensures var isNew := item.index < expected && item.index !in seen;
            && ReadingsOf(if isNew && parse(item).Some? then readings[item.index := parse(item).value] else readings,
                          items + [item], expected, parse)
            && forall k: nat | k < expected ::
                 k in (if isNew then seen + {item.index} else seen) <==> Mentioned(items + [item], k)
  {
    forall k: nat | k < expected
      ensures Mentioned(items + [item], k) <==> Mentioned(items, k) || item.index == k
      ensures Reading(items + [item], k, parse)
           == if Mentioned(items, k) then Reading(items, k, parse) else if item.index == k then parse(item) else None
    {
      ReadingSnoc(items, item, k, parse);
    }
    forall k: nat | k < expected && !Mentioned(items, k)
      ensures Reading(items, k, parse) == None
    {
      UnmentionedIsOpen(items, k, parse);
    }
  }

  lemma {:induction false} UnmentionedIsOpen(items: seq<BatchItem>, k: nat, parse: Parser)
    requires !Mentioned(items, k)
    ensures Reading(items, k, parse) == None
  {
    if items != [] {
      assert items[0].index != k;
      assert forall i | 0 <= i < |items[1..]| :: items[1..][i] == items[i + 1];
      UnmentionedIsOpen(items[1..], k, parse);
    }
  }

  /** Item `i` is the first one for text `k`. */
  predicate FirstFor(items: seq<BatchItem>, k: nat, i: nat) {
    i < |items| && items[i].index == k && forall j | 0 <= j < i :: items[j].index != k
  }

  lemma {:induction false} FirstDecides(items: seq<BatchItem>, k: nat, i: nat, parse: Parser)
    requires FirstFor(items, k, i)
    ensures Reading(items, k, parse) == parse(items[i])
  {
    if i > 0 {
      assert forall j | 0 <= j < |items[1..]| :: items[1..][j] == items[j + 1];
      FirstDecides(items[1..], k, i - 1, parse);
    }
  }

  /** What is read, told from the items: a text has an assignment exactly if its first item is readable,
      and then that one. */
  ghost predicate ReadFirst(readings: Readings, items: seq<BatchItem>, expected: nat, parse: Parser) {
    && (forall k: nat, i: nat | FirstFor(items, k, i) ::
          if k < expected && parse(items[i]).Some? then k in readings && readings[k] == parse(items[i]).value
          else k !in readings)
    && (forall k | k in readings :: Mentioned(items, k))
  }

  lemma {:induction false} ReadingsAreFirst(readings: Readings, items: seq<BatchItem>, expected: nat, parse: Parser)
    requires ReadingsOf(readings, items, expected, parse)
    ensures ReadFirst(readings, items, expected, parse)
  {
    forall k: nat, i: nat | FirstFor(items, k, i)
      ensures if k < expected && parse(items[i]).Some? then k in readings && readings[k] == parse(items[i]).value
              else k !in readings
    {
      FirstDecides(items, k, i, parse);
    }
    forall k | k in readings
      ensures Mentioned(items, k)
    {
      if !Mentioned(items, k) {
        UnmentionedIsOpen(items, k, parse);
      }
    }
  }

  /** `parse_batch_assignments`; the pairs are written straight into a map. */
  method ParseBatchAssignments(items: seq<BatchItem>, expected: nat, parse: Parser) returns (readings: Readings)
    ensures ReadingsOf(readings, items, expected, parse)
  {
    readings := map[];
    var seen: set<nat> := {};
    for i := 0 to |items|
      invariant ReadingsOf(readings, items[..i], expected, parse)
      invariant forall k: nat | k < expected :: k in seen <==> Mentioned(items[..i], k)
    {
      var item := items[i];
      NextItem(readings, seen, items[..i], item, expected, parse);
      assert items[..i + 1] == items[..i] + [item];
      if item.index < expected && item.index !in seen {
        seen := seen + {item.index};
        var parsed := parse(item);
        if parsed.Some? {
          readings := readings[item.index := parsed.value];
        }
      }
    }
    assert items[..|items|] == items;
  }

  /* ---- The first readable item need not win ---- */

  function FirstReadable(items: seq<BatchItem>, k: nat, parse: Parser): Option<C.Assignment> {
    if items == [] then None
    else if items[0].index == k && parse(items[0]).Some? then parse(items[0])
    else FirstReadable(items[1..], k, parse)
  }

  predicate SpoiledFirst(items: seq<BatchItem>, k: nat, parse: Parser) {
    items != [] && if items[0].index == k then parse(items[0]) == None else SpoiledFirst(items[1..], k, parse)
  }

  /** The first readable item for a text wins, unless an unreadable one precedes it: then the text
      stays open, and is asked for again. */
  lemma {:induction false} FirstReadableWins(items: seq<BatchItem>, k: nat, parse: Parser)
    ensures Reading(items, k, parse) == FirstReadable(items, k, parse)
       <==> !SpoiledFirst(items, k, parse) || FirstReadable(items, k, parse) == None
    ensures SpoiledFirst(items, k, parse) ==> Reading(items, k, parse) == None
  {
    if items != [] && items[0].index != k {
      FirstReadableWins(items[1..], k, parse);
    }
  }

  /** An answer in which a readable item is passed over */
  lemma {:induction false} ReadableMayBePassedOver(model: string)
    ensures var parse := (item: BatchItem) => Parse(item, model);
            var items := [BatchItem(0, "", 1.0), BatchItem(0, "testing", 1.0)];
            Reading(items, 0, parse) == None && FirstReadable(items, 0, parse).Some?
  {
    var parse := (item: BatchItem) => Parse(item, model);
    var items := [BatchItem(0, "", 1.0), BatchItem(0, "testing", 1.0)];
    assert items[1..] == [BatchItem(0, "testing", 1.0)];
    assert parse(items[0]) == None;
    assert FirstReadable(items[1..], 0, parse) == parse(items[1]);
  }

  /* ---- A batch ---- */

  datatype Measurement = Reported | Estimated | Unavailable

  datatype ClassifierUsage = ClassifierUsage(tokens: U.TokenBreakdown, requestCount: u32, measurement: Measurement)

  datatype Diagnostic = Diagnostic(assignment: C.Assignment, usage: ClassifierUsage)

  datatype BatchAnswer = BatchAnswer(items: Option<seq<BatchItem>>, tokens: U.TokenBreakdown, reported: bool)

  datatype BatchClassification = BatchClassification(assignments: seq<C.Assignment>, usage: ClassifierUsage)

  /** `single(i)` is what comes of a request for text `i` alone. */
  datatype Provider = Provider(batch: Option<BatchAnswer>, single: nat -> Option<Diagnostic>, parse: Parser)

  function SatAdd32(a: u32, b: u32): u32 {
    Min(a + b, U32_MAX)
  }

  function AddUsage(u: ClassifierUsage, d: ClassifierUsage): ClassifierUsage {
    ClassifierUsage(U.AddAssign(u.tokens, d.tokens), SatAdd32(u.requestCount, d.requestCount),
                    if d.measurement == Estimated then Estimated else u.measurement)
  }

  function ItemsOf(answer: BatchAnswer): seq<BatchItem> {
    if answer.items.Some? then answer.items.value else []
  }

  /** Text `i` is not answered by the batch. */
  predicate Open(answer: BatchAnswer, i: nat, parse: Parser) {
    Reading(ItemsOf(answer), i, parse) == None
  }

  /** What the first `n` texts are classified as: by the batch if it can be read, alone otherwise */
  predicate Assigned(p: Provider, answer: BatchAnswer, assignments: seq<C.Assignment>) {
    forall i | 0 <= i < |assignments| ::
      if Open(answer, i, p.parse) then p.single(i).Some? && assignments[i] == p.single(i).value.assignment
      else Some(assignments[i]) == Reading(ItemsOf(answer), i, p.parse)
  }

  /** The usage after the first `n` texts: only open texts cost a request of their own. */
  function UsageUpTo(p: Provider, answer: BatchAnswer, n: nat): ClassifierUsage {
    if n == 0 then ClassifierUsage(answer.tokens, 1, if answer.reported then Reported else Estimated)
    else
      var before := UsageUpTo(p, answer, n - 1);
      if Open(answer, n - 1, p.parse) && p.single(n - 1).Some?
      then AddUsage(before, p.single(n - 1).value.usage) else before
  }

  /** The requests made for the open ones among the first `n` texts */
  function SingleRequests(p: Provider, answer: BatchAnswer, n: nat): nat {
    if n == 0 then 0
    else SingleRequests(p, answer, n - 1)
         + if Open(answer, n - 1, p.parse) && p.single(n - 1).Some? then p.single(n - 1).value.usage.requestCount else 0
  }

  /** One request for the batch and those for the open texts, saturated. */
  lemma {:induction false} RequestsAreCounted(p: Provider, answer: BatchAnswer, n: nat)
    ensures UsageUpTo(p, answer, n).requestCount == Min(1 + SingleRequests(p, answer, n), U32_MAX)
  {
    if n > 0 {
      RequestsAreCounted(p, answer, n - 1);
    }
  }

  /** The tokens of these requests */
  function SingleTokens(p: Provider, answer: BatchAnswer, n: nat): Ledger {
    if n == 0 then Zero()
    else Plus(SingleTokens(p, answer, n - 1),
              if Open(answer, n - 1, p.parse) && p.single(n - 1).Some?
              then U.Entry(p.single(n - 1).value.usage.tokens, 0.0) else Zero())
  }

  lemma {:induction false} AddUsageCaps(u: ClassifierUsage, d: ClassifierUsage, exact: Ledger)
    requires U.Entry(u.tokens, 0.0) == Cap(exact)
    ensures U.Entry(AddUsage(u, d).tokens, 0.0) == Cap(Plus(exact, U.Entry(d.tokens, 0.0)))
  {
    U.AddAssignCaps(u.tokens, 0.0, d.tokens, 0.0);
  }

  /** The tokens are those of the batch and of the single requests, capped class by class. */
  lemma {:induction false} TokensAreCounted(p: Provider, answer: BatchAnswer, n: nat)
    ensures U.Entry(UsageUpTo(p, answer, n).tokens, 0.0)
         == Cap(Plus(U.Entry(answer.tokens, 0.0), SingleTokens(p, answer, n)))
  {
    var first := U.Entry(answer.tokens, 0.0);
    if n == 0 {
      PlusZero(first);
    } else {
      var before := SingleTokens(p, answer, n - 1);
      TokensAreCounted(p, answer, n - 1);
      if Open(answer, n - 1, p.parse) && p.single(n - 1).Some? {
        var more := p.single(n - 1).value.usage;
        AddUsageCaps(UsageUpTo(p, answer, n - 1), more, Plus(first, before));
        PlusAssociative(first, before, U.Entry(more.tokens, 0.0));
      } else {
        PlusZero(before);
      }
    }
  }

  /** The usage counts as estimated exactly if any part of it is. */
  lemma {:induction false} EstimatesAreMarked(p: Provider, answer: BatchAnswer, n: nat)
    ensures UsageUpTo(p, answer, n).measurement == Estimated
       <==> || !answer.reported
            || exists i :: 0 <= i < n && Open(answer, i, p.parse) && p.single(i).Some?
                           && p.single(i).value.usage.measurement == Estimated
    ensures UsageUpTo(p, answer, n).measurement != Unavailable
  {
    if n > 0 {
      EstimatesAreMarked(p, answer, n - 1);
    }
  }

  lemma {:induction false} NothingOpenNothingAsked(p: Provider, answer: BatchAnswer, n: nat)
    requires forall i | 0 <= i < n :: !Open(answer, i, p.parse)
    ensures UsageUpTo(p, answer, n) == UsageUpTo(p, answer, 0) && SingleRequests(p, answer, n) == 0
  {
    if n > 0 {
      NothingOpenNothingAsked(p, answer, n - 1);
    }
  }

  /** The texts among the first `n` that the batch leaves open */
  function OpenOnes(answer: BatchAnswer, n: nat, parse: Parser): seq<nat> {
    if n == 0 then []
    else OpenOnes(answer, n - 1, parse) + if Open(answer, n - 1, parse) then [n - 1] else []
  }

  /** All of them, each once, in order */
  lemma {:induction false} OpenOnesAreOpen(answer: BatchAnswer, n: nat, parse: Parser)
    ensures forall i :: i in OpenOnes(answer, n, parse) <==> 0 <= i < n && Open(answer, i, parse)
    ensures forall i, j | 0 <= i < j < |OpenOnes(answer, n, parse)| ::
              OpenOnes(answer, n, parse)[i] < OpenOnes(answer, n, parse)[j]
  {
    if n > 0 {
      OpenOnesAreOpen(answer, n - 1, parse);
      var front := OpenOnes(answer, n - 1, parse);
      assert forall i | 0 <= i < |front| :: front[i] in front;
    }
  }

  lemma {:induction false} OpenOnesGrow(answer: BatchAnswer, m: nat, n: nat, parse: Parser)
    requires m <= n
    ensures OpenOnes(answer, m, parse) <= OpenOnes(answer, n, parse)
  {
    if m < n {
      OpenOnesGrow(answer, m, n - 1, parse);
    }
  }

  /** The texts for which a request of their own was made: where everything succeeds, exactly those
      that the batch leaves open; otherwise these in order up to the one that failed. */
  predicate AskedSingly(p: Provider, count: nat, asked: seq<nat>, succeeded: bool) {
    if count == 0 then asked == []
    else if count == 1 then asked == [0]
    else if p.batch == None then asked == []
    else if succeeded then asked == OpenOnes(p.batch.value, count, p.parse)
    else StoppedAt(p, asked, OpenOnes(p.batch.value, count, p.parse))
  }

  /** Of these requests, in order, the last one made failed. */
  predicate StoppedAt(p: Provider, asked: seq<nat>, planned: seq<nat>) {
    && asked != [] && asked <= planned
    && p.single(asked[|asked| - 1]) == None
    && forall i | 0 <= i < |asked| - 1 :: p.single(asked[i]).Some?
  }

  lemma {:induction false} StopsAt(p: Provider, answer: BatchAnswer, i: nat, count: nat)
    requires i < count && Open(answer, i, p.parse) && p.single(i) == None
    requires forall j | 0 <= j < i && Open(answer, j, p.parse) :: p.single(j).Some?
    ensures StoppedAt(p, OpenOnes(answer, i, p.parse) + [i], OpenOnes(answer, count, p.parse))
  {
    var before := OpenOnes(answer, i, p.parse);
    OpenOnesAreOpen(answer, i, p.parse);
    OpenOnesGrow(answer, i + 1, count, p.parse);
    forall n | 0 <= n < |before|
      ensures p.single((before + [i])[n]).Some?
    {
      assert before[n] in before;
    }
  }

  /** A batch fails only if its request fails or a text it leaves open cannot be classified alone. */
  predicate Fails(p: Provider, count: nat) {
    if count == 0 then false
    else if count == 1 then p.single(0) == None
    else p.batch == None || exists i :: 0 <= i < count && Open(p.batch.value, i, p.parse) && p.single(i) == None
  }

  const NO_USAGE := ClassifierUsage(U.NO_TOKENS, 0, Unavailable)

  /** The result for `count` texts */
  predicate Classifies(p: Provider, count: nat, r: BatchClassification) {
    && |r.assignments| == count
    && (count == 0 ==> r.usage == NO_USAGE)
    && (count == 1 ==> p.single(0) == Some(Diagnostic(r.assignments[0], r.usage)))
    && (count > 1 ==>
          && p.batch.Some? && Assigned(p, p.batch.value, r.assignments)
          && r.usage == UsageUpTo(p, p.batch.value, count))
  }

  /** The loop that asks for the open texts, one by one */
  method FillIn(p: Provider, answer: BatchAnswer, count: nat) returns (r: Option<BatchClassification>, asked: seq<nat>)
    ensures r == None <==> exists i :: 0 <= i < count && Open(answer, i, p.parse) && p.single(i) == None
    ensures r.Some? ==> |r.value.assignments| == count && Assigned(p, answer, r.value.assignments)
    ensures r.Some? ==> r.value.usage == UsageUpTo(p, answer, count) && asked == OpenOnes(answer, count, p.parse)
    ensures r == None ==> StoppedAt(p, asked, OpenOnes(answer, count, p.parse))
  {
    var readings := ParseBatchAssignments(ItemsOf(answer), count, p.parse);
    var usage := ClassifierUsage(answer.tokens, 1, if answer.reported then Reported else Estimated);
    var assignments := [];
    asked := [];
    for i := 0 to count
      invariant |assignments| == i && Assigned(p, answer, assignments)
      invariant usage == UsageUpTo(p, answer, i)
      invariant asked == OpenOnes(answer, i, p.parse)
      invariant forall j | 0 <= j < i && Open(answer, j, p.parse) :: p.single(j).Some?
    {
      if i in readings {
        assignments := assignments + [readings[i]];
      } else {
        var diagnostic := p.single(i);
        asked := asked + [i];
        if diagnostic == None {
          StopsAt(p, answer, i, count);
          return None, asked;
        }
        usage := AddUsage(usage, diagnostic.value.usage);
        assignments := assignments + [diagnostic.value.assignment];
      }
    }
    return Some(BatchClassification(assignments, usage)), asked;
  }

  /** `classify_batch`: on success every text has its assignment, in order, and only the texts that the
      batch left open were asked for again, singly. */
  method ClassifyBatch(p: Provider, count: nat) returns (r: Option<BatchClassification>, asked: seq<nat>)
    ensures r == None <==> Fails(p, count)
    ensures r.Some? ==> Classifies(p, count, r.value)
    ensures AskedSingly(p, count, asked, r.Some?)
  {
    if count == 0 {
      return Some(BatchClassification([], NO_USAGE)), [];
    }
    if count == 1 {
      var diagnostic := p.single(0);
      if diagnostic == None {
        return None, [0];
      }
      return Some(BatchClassification([diagnostic.value.assignment], diagnostic.value.usage)), [0];
    }
    if p.batch == None {
      return None, [];
    }
    r, asked := FillIn(p, p.batch.value, count);
  }
}
