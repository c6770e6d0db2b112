/** `classify_turns`: which turns of a session are classified how. */
module Scheduling {
  /* A first pass settles what needs no request: blank turns, cached answers, inherited categories
     and rules.  The rest is sent in requests.  Short continuations ("ok", "go ahead") for which
     there is nothing to inherit yet are put off until the requests have been answered.  Cache,
     rules and provider are arbitrary. */

  import opened Ledgers
  import opened Text
  import opened Usage
  import opened Categories
  import opened Packing
  import opened Sequences

  datatype Prompt = Prompt(intent: Option<string>, signals: seq<SignalCount>)

  datatype Backends = Backends(
    cache: (string, seq<SignalCount>, Option<Assignment>) -> Option<Assignment>,
    rule: (string, seq<SignalCount>) -> Option<Assignment>,
    continuation: string -> bool,
    provider: (nat, seq<string>) -> Option<seq<Assignment>>,
    providerId: string)

  datatype Job = Job(prompts: seq<Prompt>, disabled: bool, backends: Backends)

  /* ---- First pass ---- */

  datatype Decision = Settled(verdict: Verdict) | Labelled(verdict: Verdict) | Deferred | Submitted

  const INHERITANCE := "hybrid-inheritance:v1"

  function Inherit(source: Assignment): Verdict {
    Verdict(source.(classifierId := INHERITANCE), Inherited, false)
  }

  function Label(classifierId: string, status: Status): Verdict {
    Verdict(Unlabelled(classifierId, status), NoMethod, false)
  }

  function Start(): Verdict {
    Verdict(Default(), NoMethod, false)
  }

  predicate Blank(p: Prompt) {
    p.intent == None || p.intent.value == []
  }

  /** How turn `i` is dealt with when `previous` is the last category settled before it */
  function Decide(job: Job, i: nat, previous: Option<Assignment>): Decision
    requires i < |job.prompts|
  {
    var p := job.prompts[i];
    if job.disabled then Labelled(Label("not_configured", NotConfigured))
    else if Blank(p) then
      if p.signals != [] && previous.Some? then Settled(Inherit(previous.value))
      else Labelled(Label("no_input", NoInput))
    else
      var intent := p.intent.value;
      var cached := job.backends.cache(intent, p.signals, previous);
      if cached.Some? then Settled(Verdict(cached.value, SemanticModel, true))
      else if job.backends.continuation(intent) && previous.Some? then Settled(Inherit(previous.value))
      else if job.backends.continuation(intent) && i > 0 && job.prompts[i - 1].intent.Some? then Deferred
      else
        var ruled := job.backends.rule(intent, p.signals);
        if ruled.Some? then Settled(Verdict(ruled.value, Rule, false)) else Submitted
  }

  /** The category settled last */
  function Previous(ds: seq<Decision>): Option<Assignment> {
    if ds == [] then None
    else if ds[|ds| - 1].Settled? then Some(ds[|ds| - 1].verdict.category)
    else Previous(ds[..|ds| - 1])
  }

  function Plan(job: Job, n: nat): (ds: seq<Decision>)
    requires n <= |job.prompts|
    ensures |ds| == n
  {
    if n == 0 then [] else Plan(job, n - 1) + [Decide(job, n - 1, Previous(Plan(job, n - 1)))]
  }

  /** What the first pass decides, turn by turn */
  function Decisions(job: Job): (ds: seq<Decision>)
    ensures |ds| == |job.prompts|
  {
    Plan(job, |job.prompts|)
  }

  predicate Planned(job: Job, ds: seq<Decision>) {
    ds == Decisions(job)
  }

  lemma {:induction false} PlanAt(job: Job, n: nat, i: nat)
    requires i < n <= |job.prompts|
    ensures Plan(job, n)[i] == Decide(job, i, Previous(Plan(job, i)))
    ensures Plan(job, n)[..i] == Plan(job, i)
  {
    if i < n - 1 {
      PlanAt(job, n - 1, i);
    }
  }

  lemma {:induction false} NothingSettled(ds: seq<Decision>, j: nat)
    requires Previous(ds) == None && j < |ds|
    ensures !ds[j].Settled?
  {
    if j < |ds| - 1 {
      NothingSettled(ds[..|ds| - 1], j);
    }
  }

  /** A turn is put off only if it has a predecessor and nothing was settled before it. */
  lemma {:induction false} DeferredHasPredecessor(job: Job, ds: seq<Decision>, i: nat)
    requires Planned(job, ds) && i < |ds| && ds[i] == Deferred
    ensures i > 0
    ensures forall j | 0 <= j < i :: !ds[j].Settled?
  {
    PlanAt(job, |ds|, i);
    forall j | 0 <= j < i
      ensures !ds[j].Settled?
    {
      NothingSettled(Plan(job, i), j);
      assert ds[..i][j] == ds[j];
    }
  }

  /* ---- Selecting turns ---- */

  /** The turns below `n` that were decided as `d` */
  function Those(ds: seq<Decision>, d: Decision, n: nat): (r: seq<nat>)
    requires n <= |ds|
    ensures forall p | 0 <= p < |r| :: r[p] < n && ds[r[p]] == d
    ensures forall p, q | 0 <= p < q < |r| :: r[p] < r[q]
    ensures |r| <= n
  {
    if n == 0 then [] else Those(ds, d, n - 1) + if ds[n - 1] == d then [n - 1] else []
  }

  /** Its place among them */
  function Rank(ds: seq<Decision>, d: Decision, i: nat): nat
    requires i <= |ds|
  {
    |Those(ds, d, i)|
  }

  lemma {:induction false} RankAt(ds: seq<Decision>, d: Decision, n: nat, i: nat)
    requires i < n <= |ds| && ds[i] == d
    ensures Rank(ds, d, i) < |Those(ds, d, n)| && Those(ds, d, n)[Rank(ds, d, i)] == i
  {
    if i < n - 1 {
      RankAt(ds, d, n - 1, i);
    }
  }

  lemma {:induction false} RankOf(ds: seq<Decision>, d: Decision, n: nat, p: nat)
    requires n <= |ds| && p < |Those(ds, d, n)|
    ensures Rank(ds, d, Those(ds, d, n)[p]) == p
  {
    var i := Those(ds, d, n)[p];
    RankAt(ds, d, n, i);
  }

  /* ---- Requests ---- */

  function TextOf(p: Prompt): string {
    if p.intent.Some? then p.intent.value else []
  }

  function Texts(job: Job, turns: seq<nat>): (r: seq<string>)
    requires forall p | 0 <= p < |turns| :: turns[p] < |job.prompts|
    ensures |r| == |turns|
    ensures forall p | 0 <= p < |turns| :: r[p] == TextOf(job.prompts[turns[p]])
  {
    seq(|turns|, p requires 0 <= p < |turns| => TextOf(job.prompts[turns[p]]))
  }

  /** What item `t` of a request gets out of its answer: a missing answer fails the whole request,
      a short one leaves the last items as they were, a long one is cut off. */
  function ItemVerdict(b: Backends, answer: Option<seq<Assignment>>, t: nat): Verdict {
    match answer
    case None => Label(b.providerId, Failed)
    case Some(assignments) => if t < |assignments| then Verdict(assignments[t], SemanticModel, false) else Start()
  }

  function RequestVerdicts(b: Backends, texts: seq<string>, start: nat, end: nat): (r: seq<Verdict>)
    requires start <= end <= |texts|
    ensures |r| == end - start
    ensures forall t | 0 <= t < end - start :: r[t] == ItemVerdict(b, b.provider(start, texts[start..end]), t)
  {
    seq(end - start, t requires 0 <= t < end - start => ItemVerdict(b, b.provider(start, texts[start..end]), t))
  }

  /** What all requests of a cut bring back, item by item */
  function Answers(b: Backends, texts: seq<string>, start: nat, ends: seq<nat>): (r: seq<Verdict>)
    requires Rising(start, ends, |texts|)
    decreases ends
  {
    if ends == [] then []
    else RequestVerdicts(b, texts, start, ends[0]) + Answers(b, texts, ends[0], ends[1..])
  }

  lemma {:induction false} AnswersSnoc(b: Backends, texts: seq<string>, sizes: seq<nat>, start: nat, ends: seq<nat>,
                                       stop: nat, end: nat)
    requires |sizes| == |texts| && start <= |texts|
    requires Cuts(sizes, start, ends, stop) && Fits(sizes, stop, end)
    ensures Rising(start, ends, |texts|) && Rising(start, ends + [end], |texts|)
    ensures |Answers(b, texts, start, ends)| == stop - start
    ensures Answers(b, texts, start, ends + [end])
         == Answers(b, texts, start, ends) + RequestVerdicts(b, texts, stop, end)
    decreases ends
  {
    if ends == [] {
      assert ends + [end] == [end];
    } else {
      assert (ends + [end])[1..] == ends[1..] + [end];
      AnswersSnoc(b, texts, sizes, ends[0], ends[1..], stop, end);
    }
  }

  /* ---- The result ---- */

  /** What a put-off turn gets from its predecessor */
  function Resolve(source: Assignment): Verdict {
    if source.status == Classified then Inherit(source) else Label("no_input", NoInput)
  }

  /** The final verdict on turn `i` */
  function Final(ds: seq<Decision>, answers: seq<Verdict>, i: nat): Verdict
    requires i < |ds| && |answers| == |Those(ds, Submitted, |ds|)|
  {
    match ds[i]
    case Settled(v) => v
    case Labelled(v) => v
    case Submitted => RankAt(ds, Submitted, |ds|, i); answers[Rank(ds, Submitted, i)]
    case Deferred => if i == 0 then Start() else Resolve(Final(ds, answers, i - 1).category)
  }

  lemma {:induction false} ResolveTwice(source: Assignment)
    ensures Resolve(Resolve(source).category) == Resolve(source)
  {}

  /** `j` is the last turn before `i` that was not put off. */
  predicate IsSource(ds: seq<Decision>, j: nat, i: nat) {
    j < i < |ds| && ds[j] != Deferred && forall m | j < m <= i :: ds[m] == Deferred
  }

  /** A chain of put-off turns of any length ends up with the category of the turn it starts at. */
  lemma {:induction false} ChainsSettle(ds: seq<Decision>, answers: seq<Verdict>, j: nat, i: nat)
    requires |answers| == |Those(ds, Submitted, |ds|)| && IsSource(ds, j, i)
    ensures Final(ds, answers, i) == Resolve(Final(ds, answers, j).category)
  {
    if j < i - 1 {
      ChainsSettle(ds, answers, j, i - 1);
      ResolveTwice(Final(ds, answers, j).category);
    }
  }

  /** Every put-off turn has such a source, and it is a request or a blank turn. */
  lemma {:induction false} SourceExists(job: Job, ds: seq<Decision>, i: nat) returns (j: nat)
    requires Planned(job, ds) && i < |ds| && ds[i] == Deferred
    ensures IsSource(ds, j, i)
    ensures ds[j] == Submitted || ds[j].Labelled?
  {
    DeferredHasPredecessor(job, ds, i);
    if ds[i - 1] == Deferred {
      j := SourceExists(job, ds, i - 1);
    } else {
      j := i - 1;
    }
  }

  lemma {:induction false} LabelledIsUnclassified(job: Job, ds: seq<Decision>, i: nat)
    requires Planned(job, ds) && i < |ds| && ds[i].Labelled?
    ensures ds[i].verdict.category.status != Classified
  {
    PlanAt(job, |ds|, i);
  }

  /** The property of deferred inheritance: a put-off turn has the category of the last turn before
      it that was not put off, if that turn was sent to the provider and came back classified;
      otherwise it counts as having no input. */
  lemma {:induction false} DeferredInherits(job: Job, ds: seq<Decision>, answers: seq<Verdict>, i: nat) returns (j: nat)
    requires Planned(job, ds) && |answers| == |Those(ds, Submitted, |ds|)| && i < |ds| && ds[i] == Deferred
    ensures IsSource(ds, j, i)
    ensures var source := Final(ds, answers, j).category;
            if ds[j] == Submitted && source.status == Classified
            then Final(ds, answers, i) == Inherit(source)
            else Final(ds, answers, i) == Label("no_input", NoInput)
  {
    j := SourceExists(job, ds, i);
    ChainsSettle(ds, answers, j, i);
    if ds[j].Labelled? {
      LabelledIsUnclassified(job, ds, j);
    }
  }

  /* ---- The three loops ---- */

  function FirstVerdict(d: Decision): Verdict {
    match d
    case Settled(v) => v
    case Labelled(v) => v
    case Submitted => Start()
    case Deferred => Start()
  }

  /** What the first pass has produced from the decisions `ds` */
  predicate Passed(ds: seq<Decision>, turns: seq<Verdict>, pending: seq<nat>, deferred: seq<nat>) {
    && |turns| == |ds| && (forall m | 0 <= m < |ds| :: turns[m] == FirstVerdict(ds[m]))
    && pending == Those(ds, Submitted, |ds|) && deferred == Those(ds, Deferred, |ds|)
  }

  lemma {:induction false} PassedSnoc(ds: seq<Decision>, d: Decision, turns: seq<Verdict>, pending: seq<nat>,
                                      deferred: seq<nat>)
    requires Passed(ds, turns, pending, deferred)
    ensures Passed(ds + [d], turns + [FirstVerdict(d)], if d == Submitted then pending + [|ds|] else pending,
                   if d == Deferred then deferred + [|ds|] else deferred)
  {
    ThoseGrow(ds, d, Submitted);
    ThoseGrow(ds, d, Deferred);
    assert pending + [] == pending && deferred + [] == deferred;
  }

  lemma {:induction false} PlanNext(job: Job, i: nat)
    requires i < |job.prompts|
    ensures var d := Decide(job, i, Previous(Plan(job, i)));
            && Plan(job, i + 1) == Plan(job, i) + [d]
            && Previous(Plan(job, i + 1)) == if d.Settled? then Some(d.verdict.category) else Previous(Plan(job, i))
  {}

  method FirstPass(job: Job) returns (turns: seq<Verdict>, pending: seq<nat>, deferred: seq<nat>)
    ensures |turns| == |job.prompts| && forall i | 0 <= i < |turns| :: turns[i] == FirstVerdict(Decisions(job)[i])
    ensures pending == Those(Decisions(job), Submitted, |job.prompts|)
    ensures deferred == Those(Decisions(job), Deferred, |job.prompts|)
  {
    turns, pending, deferred := [], [], [];
    var previous: Option<Assignment> := None;
    for i := 0 to |job.prompts|
      invariant Passed(Plan(job, i), turns, pending, deferred)
      invariant previous == Previous(Plan(job, i))
    {
      var d := Decide(job, i, previous);
      PlanNext(job, i);
      PassedSnoc(Plan(job, i), d, turns, pending, deferred);
      match d {
        case Settled(v) => previous := Some(v.category);
        case Labelled(_) =>
        case Deferred => deferred := deferred + [i];
        case Submitted => pending := pending + [i];
      }
      turns := turns + [FirstVerdict(d)];
    }
  }

  lemma {:induction false} ThoseOfPrefix(ds: seq<Decision>, d: Decision, which: Decision, n: nat)
    requires n <= |ds|
    ensures Those(ds + [d], which, n) == Those(ds, which, n)
  {
    if n > 0 {
      ThoseOfPrefix(ds, d, which, n - 1);
    }
  }

  lemma {:induction false} ThoseGrow(ds: seq<Decision>, d: Decision, which: Decision)
    ensures Those(ds + [d], which, |ds| + 1) == Those(ds, which, |ds|) + if d == which then [|ds|] else []
  {
    ThoseOfPrefix(ds, d, which, |ds|);
  }

  predicate DistinctTurns(pending: seq<nat>, n: nat) {
    && (forall p | 0 <= p < |pending| :: pending[p] < n)
    && (forall p, q | 0 <= p < q < |pending| :: pending[p] != pending[q])
  }

  /** Hands the answer to one request to its turns. */
  method Distribute(b: Backends, before: seq<Verdict>, pending: seq<nat>, cursor: nat, end: nat,
                    answer: Option<seq<Assignment>>)
    returns (turns: seq<Verdict>)
    requires DistinctTurns(pending, |before|) && cursor <= end <= |pending|
    requires forall p | cursor <= p < end :: before[pending[p]] == Start()
    ensures |turns| == |before|
    ensures forall p | cursor <= p < end :: turns[pending[p]] == ItemVerdict(b, answer, p - cursor)
    ensures forall i | 0 <= i < |before| && i !in pending[cursor..end] :: turns[i] == before[i]
  {
    turns := before;
    match answer {
      case None =>
        for p := cursor to end
          invariant |turns| == |before|
          invariant forall q | cursor <= q < p :: turns[pending[q]] == ItemVerdict(b, answer, q - cursor)
          invariant forall i | 0 <= i < |before| && i !in pending[cursor..end] :: turns[i] == before[i]
        {
          assert pending[cursor..end][p - cursor] == pending[p];
          turns := turns[pending[p] := Label(b.providerId, Failed)];
        }
      case Some(assignments) =>
        var stop := cursor + Min(end - cursor, |assignments|);
        for p := cursor to stop
          invariant |turns| == |before|
          invariant forall q | cursor <= q < p :: turns[pending[q]] == ItemVerdict(b, answer, q - cursor)
          invariant forall q | p <= q < end :: turns[pending[q]] == Start()
          invariant forall i | 0 <= i < |before| && i !in pending[cursor..end] :: turns[i] == before[i]
        {
          assert pending[cursor..end][p - cursor] == pending[p];
          turns := turns[pending[p] := Verdict(assignments[p - cursor], SemanticModel, false)];
        }
    }
  }

  /** `turns` after the first `cursor` pending turns were answered */
  predicate Answered(before: seq<Verdict>, turns: seq<Verdict>, pending: seq<nat>, answers: seq<Verdict>)
    requires DistinctTurns(pending, |before|)
  {
    && |turns| == |before| && |answers| <= |pending|
    && (forall p | 0 <= p < |answers| :: turns[pending[p]] == answers[p])
    && (forall i | 0 <= i < |before| && i !in pending[..|answers|] :: turns[i] == before[i])
  }

  lemma {:induction false} AnsweredNext(before: seq<Verdict>, turns: seq<Verdict>, turns': seq<Verdict>,
                                        pending: seq<nat>, answers: seq<Verdict>, more: seq<Verdict>)
    requires DistinctTurns(pending, |before|) && Answered(before, turns, pending, answers)
    requires |answers| + |more| <= |pending| && |turns'| == |turns|
    requires forall p | |answers| <= p < |answers| + |more| :: turns'[pending[p]] == more[p - |answers|]
    requires forall i | 0 <= i < |turns| && i !in pending[|answers|..|answers| + |more|] :: turns'[i] == turns[i]
    ensures Answered(before, turns', pending, answers + more)
  {
    var n, m := |answers|, |answers| + |more|;
    forall p | 0 <= p < m
      ensures turns'[pending[p]] == (answers + more)[p]
    {
      if p < n {
        assert pending[p] !in pending[n..m];
      }
    }
    forall i | 0 <= i < |before| && i !in pending[..m]
      ensures turns'[i] == before[i]
    {
      assert pending[..m] == pending[..n] + pending[n..m];
    }
  }

  /** The first `cursor` texts were cut greedily into requests. */
  predicate PackedTo(b: Backends, texts: seq<string>, ends: seq<nat>, cursor: nat) {
    && cursor <= |texts|
    && Cuts(Sizes(texts), 0, ends, cursor) && Greedy(Sizes(texts), 0, ends)
    && Rising(0, ends, |texts|) && |Answers(b, texts, 0, ends)| == cursor
  }

  lemma {:induction false} PackNext(b: Backends, texts: seq<string>, ends: seq<nat>, cursor: nat, end: nat)
    requires PackedTo(b, texts, ends, cursor) && Fits(Sizes(texts), cursor, end) && Full(Sizes(texts), cursor, end)
    ensures PackedTo(b, texts, ends + [end], end)
    ensures Answers(b, texts, 0, ends + [end]) == Answers(b, texts, 0, ends) + RequestVerdicts(b, texts, cursor, end)
  {
    CutsSnoc(Sizes(texts), 0, ends, cursor, end);
    AnswersSnoc(b, texts, Sizes(texts), 0, ends, cursor, end);
  }

  /** `next` is what handing out the answer to one more request makes of `turns`. */
  lemma {:induction false} RequestDone(b: Backends, texts: seq<string>, before: seq<Verdict>, turns: seq<Verdict>,
                                       next: seq<Verdict>, pending: seq<nat>, ends: seq<nat>, cursor: nat, end: nat)
    requires DistinctTurns(pending, |before|) && |texts| == |pending|
    requires PackedTo(b, texts, ends, cursor) && Answered(before, turns, pending, Answers(b, texts, 0, ends))
    requires Fits(Sizes(texts), cursor, end) && Full(Sizes(texts), cursor, end) && |next| == |turns|
    requires forall p | cursor <= p < end ::
      next[pending[p]] == ItemVerdict(b, b.provider(cursor, texts[cursor..end]), p - cursor)
    requires forall i | 0 <= i < |turns| && i !in pending[cursor..end] :: next[i] == turns[i]
    ensures PackedTo(b, texts, ends + [end], end)
    ensures Answered(before, next, pending, Answers(b, texts, 0, ends + [end]))
  {
    AnsweredNext(before, turns, next, pending, Answers(b, texts, 0, ends), RequestVerdicts(b, texts, cursor, end));
    PackNext(b, texts, ends, cursor, end);
  }

  /** The loop over `pending` */
  method RunRequests(b: Backends, texts: seq<string>, before: seq<Verdict>, pending: seq<nat>)
    returns (turns: seq<Verdict>, ends: seq<nat>)
    requires DistinctTurns(pending, |before|) && |texts| == |pending|
    requires forall p | 0 <= p < |pending| :: before[pending[p]] == Start()
    ensures PackedTo(b, texts, ends, |texts|)
    ensures Answered(before, turns, pending, Answers(b, texts, 0, ends))
  {
    var sizes := Sizes(texts);
    var cursor := 0;
    turns, ends := before, [];
    while cursor < |pending|
      invariant PackedTo(b, texts, ends, cursor)
      invariant Answered(before, turns, pending, Answers(b, texts, 0, ends))
    {
      var end := FindEnd(sizes, cursor);
      Untouched(before, turns, pending, Answers(b, texts, 0, ends), end);
      var next := Distribute(b, turns, pending, cursor, end, b.provider(cursor, texts[cursor..end]));
      RequestDone(b, texts, before, turns, next, pending, ends, cursor, end);
      turns := next;
      ends := ends + [end];
      cursor := end;
    }
  }

  lemma {:induction false} Untouched(before: seq<Verdict>, turns: seq<Verdict>, pending: seq<nat>,
                                     answers: seq<Verdict>, end: nat)
    requires DistinctTurns(pending, |before|) && Answered(before, turns, pending, answers)
    requires |answers| <= end <= |pending|
    requires forall p | 0 <= p < |pending| :: before[pending[p]] == Start()
    ensures forall p | |answers| <= p < end :: turns[pending[p]] == Start()
  {
    forall p | |answers| <= p < end
      ensures turns[pending[p]] == Start()
    {
      assert pending[p] !in pending[..|answers|];
    }
  }

  /** The loop over `deferred_inheritance`, in a single pass */
  method Inheritances(before: seq<Verdict>, deferred: seq<nat>, ghost ds: seq<Decision>, ghost answers: seq<Verdict>)
    returns (turns: seq<Verdict>)
    requires |before| == |ds| && |answers| == |Those(ds, Submitted, |ds|)| && deferred == Those(ds, Deferred, |ds|)
    requires |ds| > 0 ==> ds[0] != Deferred
    requires forall i | 0 <= i < |ds| && ds[i] != Deferred :: before[i] == Final(ds, answers, i)
    ensures |turns| == |ds| && forall i | 0 <= i < |ds| :: turns[i] == Final(ds, answers, i)
  {
    turns := before;
    for d := 0 to |deferred|
      invariant |turns| == |ds|
      invariant forall i | 0 <= i < |ds| && (ds[i] != Deferred || Rank(ds, Deferred, i) < d) ::
        turns[i] == Final(ds, answers, i)
    {
      var i := deferred[d];
      SourceIsFinal(ds, d);
      turns := turns[i := Resolve(turns[i - 1].category)];
      forall m | 0 <= m < |ds| && (ds[m] != Deferred || Rank(ds, Deferred, m) < d + 1)
        ensures turns[m] == Final(ds, answers, m)
      {
        if ds[m] == Deferred {
          RankAt(ds, Deferred, |ds|, m);
        }
      }
    }
    forall i | 0 <= i < |ds|
      ensures turns[i] == Final(ds, answers, i)
    {
      if ds[i] == Deferred {
        RankAt(ds, Deferred, |ds|, i);
      }
    }
  }

  /** When a put-off turn is looked at, its predecessor is final. */
  lemma {:induction false} SourceIsFinal(ds: seq<Decision>, d: nat)
    requires d < |Those(ds, Deferred, |ds|)| && ds[0] != Deferred
    ensures var i := Those(ds, Deferred, |ds|)[d];
            i > 0 && (ds[i - 1] != Deferred || Rank(ds, Deferred, i - 1) < d)
  {
    var i := Those(ds, Deferred, |ds|)[d];
    RankOf(ds, Deferred, |ds|, d);
    if ds[i - 1] == Deferred {
      RankAt(ds, Deferred, i, i - 1);
    }
  }

  function PendingTexts(job: Job, ds: seq<Decision>): seq<string>
    requires |ds| == |job.prompts|
  {
    Texts(job, Those(ds, Submitted, |ds|))
  }

  /** `turns` is the outcome of a run that cut the requests at `ends`. */
  predicate Outcome(job: Job, ends: seq<nat>, turns: seq<Verdict>) {
    var ds := Decisions(job);
    && |turns| == |ds|
    && PackedTo(job.backends, PendingTexts(job, ds), ends, |PendingTexts(job, ds)|)
    && forall i | 0 <= i < |turns| :: turns[i] == Final(ds, Answers(job.backends, PendingTexts(job, ds), 0, ends), i)
  }

  lemma {:induction false} AnsweredIsFinal(ds: seq<Decision>, first: seq<Verdict>, turns: seq<Verdict>,
                                           answers: seq<Verdict>, i: nat)
    requires |first| == |ds| && |answers| == |Those(ds, Submitted, |ds|)| && i < |ds| && ds[i] != Deferred
    requires first[i] == FirstVerdict(ds[i]) && Answered(first, turns, Those(ds, Submitted, |ds|), answers)
    ensures turns[i] == Final(ds, answers, i)
  {
    var pending := Those(ds, Submitted, |ds|);
    if ds[i] == Submitted {
      RankAt(ds, Submitted, |ds|, i);
    } else {
      assert i !in pending[..|answers|];
    }
  }

  /* ---- The outcome, told from the verdicts alone ---- */

  predicate HasIntent(p: Prompt) {
    p.intent.Some? && |p.intent.value| > 0
  }

  /** The last turn below `n` that was settled without a request, if there is one */
  function LastSettled(job: Job, turns: seq<Verdict>, n: nat): (r: Option<nat>)
    requires n <= |turns| == |job.prompts|
    ensures r.Some? ==> r.value < n
    decreases n, 0
  {
    if n == 0 then None
    else if IsSettled(job, turns, n - 1) then Some(n - 1)
    else LastSettled(job, turns, n - 1)
  }

  /** Its category */
  function Before(job: Job, turns: seq<Verdict>, n: nat): Option<Assignment>
    requires n <= |turns| == |job.prompts|
    decreases n, 1
  {
    match LastSettled(job, turns, n)
    case None => None
    case Some(j) => Some(turns[j].category)
  }

  function CachedFor(job: Job, turns: seq<Verdict>, i: nat): Option<Assignment>
    requires i < |turns| == |job.prompts| && HasIntent(job.prompts[i])
    decreases i, 2
  {
    job.backends.cache(job.prompts[i].intent.value, job.prompts[i].signals, Before(job, turns, i))
  }

  /** A continuation of a turn that has an intent, too, with nothing to inherit yet */
  predicate PutOff(job: Job, turns: seq<Verdict>, i: nat)
    requires i < |turns| == |job.prompts|
    decreases i, 3
  {
    && !job.disabled && HasIntent(job.prompts[i]) && CachedFor(job, turns, i) == None
    && job.backends.continuation(job.prompts[i].intent.value) && Before(job, turns, i) == None
    && i > 0 && job.prompts[i - 1].intent.Some?
  }

  /** A cached answer, something to inherit, or a rule */
  predicate IsSettled(job: Job, turns: seq<Verdict>, i: nat)
    requires i < |turns| == |job.prompts|
    decreases i, 4
  {
    var p := job.prompts[i];
    if job.disabled then false
    else if !HasIntent(p) then p.signals != [] && Before(job, turns, i).Some?
    else
      || CachedFor(job, turns, i).Some?
      || (job.backends.continuation(p.intent.value) && Before(job, turns, i).Some?)
      || (!PutOff(job, turns, i) && job.backends.rule(p.intent.value, p.signals).Some?)
  }

  /** What is left is sent to the provider. */
  predicate IsSent(job: Job, turns: seq<Verdict>, i: nat)
    requires i < |turns| == |job.prompts|
  {
    !job.disabled && HasIntent(job.prompts[i]) && !IsSettled(job, turns, i) && !PutOff(job, turns, i)
  }

  function SentTurns(job: Job, turns: seq<Verdict>, n: nat): (r: seq<nat>)
    requires n <= |turns| == |job.prompts|
    ensures forall p | 0 <= p < |r| :: r[p] < n
  {
    if n == 0 then [] else SentTurns(job, turns, n - 1) + if IsSent(job, turns, n - 1) then [n - 1] else []
  }

  predicate Inherits(v: Verdict, source: Assignment) {
    v == Verdict(source.(classifierId := "hybrid-inheritance:v1"), Inherited, false)
  }

  predicate NoInputLabel(v: Verdict) {
    v == Verdict(Assignment(Unknown, 0.0, "2026-01", "no_input", NoInput), NoMethod, false)
  }

  /** A turn without intent takes over what was settled last if it left signals. */
  predicate ToldWithoutIntent(job: Job, turns: seq<Verdict>, i: nat)
    requires i < |turns| == |job.prompts|
  {
    var before := Before(job, turns, i);
    if job.prompts[i].signals != [] && before.Some? then Inherits(turns[i], before.value) else NoInputLabel(turns[i])
  }

  /** A cached answer wins over everything else.  A continuation takes over what was settled last; if
      nothing was, its predecessor's category when that is known in the end.  Otherwise a rule decides. */
  predicate ToldWithIntent(job: Job, turns: seq<Verdict>, i: nat)
    requires i < |turns| == |job.prompts| && HasIntent(job.prompts[i])
  {
    var p, cached, before := job.prompts[i], CachedFor(job, turns, i), Before(job, turns, i);
    var continues, ruled := job.backends.continuation(p.intent.value), job.backends.rule(p.intent.value, p.signals);
    && (cached.Some? ==> turns[i] == Verdict(cached.value, SemanticModel, true))
    && (cached == None && continues && before.Some? ==> Inherits(turns[i], before.value))
    && (cached == None && continues && before == None && i > 0 && job.prompts[i - 1].intent.Some? ==>
          var source := turns[i - 1].category;
          if source.status == Classified then Inherits(turns[i], source) else NoInputLabel(turns[i]))
    && (cached == None && !continues && ruled.Some? ==> turns[i] == Verdict(ruled.value, Rule, false))
    && (cached == None && before == None && (i == 0 || job.prompts[i - 1].intent == None) && ruled.Some? ==>
          turns[i] == Verdict(ruled.value, Rule, false))
  }

  predicate Told(job: Job, turns: seq<Verdict>, i: nat)
    requires i < |turns| == |job.prompts|
  {
    if job.disabled then
      turns[i] == Verdict(Assignment(Unknown, 0.0, "2026-01", "not_configured", NotConfigured), NoMethod, false)
    else if HasIntent(job.prompts[i]) then ToldWithIntent(job, turns, i)
    else ToldWithoutIntent(job, turns, i)
  }

  /** What the `t`-th item of a request gets out of its answer */
  predicate GetsAnswer(b: Backends, answer: Option<seq<Assignment>>, t: nat, v: Verdict) {
    match answer
    case None => v == Verdict(Assignment(Unknown, 0.0, "2026-01", b.providerId, Failed), NoMethod, false)
    case Some(assignments) =>
      if t < |assignments| then v == Verdict(assignments[t], SemanticModel, false)
      else v == Verdict(Assignment(Unknown, 0.0, "2026-01", "unavailable", Unavailable), NoMethod, false)
  }

  function StartOf(ends: seq<nat>, r: nat): nat
    requires r < |ends|
  {
    if r == 0 then 0 else ends[r - 1]
  }

  /** The turns `sent[StartOf(ends, r)..ends[r]]` get the answer to the request that holds their intents. */
  predicate RequestAnswered(job: Job, turns: seq<Verdict>, sent: seq<nat>, ends: seq<nat>, r: nat)
    requires |turns| == |job.prompts| && r < |ends| && forall p | 0 <= p < |sent| :: sent[p] < |turns|
  {
    var start, end := StartOf(ends, r), ends[r];
    && start < end <= |sent|
    && var answer := job.backends.provider(start, Texts(job, sent)[start..end]);
       forall p | start <= p < end :: GetsAnswer(job.backends, answer, p - start, turns[sent[p]])
  }

  /** It holds at most 12 intents of 16 KiB together, or a single one, and stops before these limits only
      at the end. */
  predicate RequestFilled(sizes: seq<nat>, ends: seq<nat>, r: nat)
    requires r < |ends|
  {
    var start, end := StartOf(ends, r), ends[r];
    && start < end <= |sizes| && end - start <= 12
    && (end == start + 1 || Sum(sizes[start..end]) <= 16384)
    && (end == |sizes| || end - start == 12 || Sum(sizes[start..end + 1]) > 16384)
  }

  /** The turns left over are sent, in order, in consecutive requests that end at `ends`. */
  predicate SentInRequests(job: Job, turns: seq<Verdict>, ends: seq<nat>)
    requires |turns| == |job.prompts|
  {
    var sent := SentTurns(job, turns, |turns|);
    && (if sent == [] then ends == [] else ends != [] && ends[|ends| - 1] == |sent|)
    && forall r | 0 <= r < |ends| ::
         RequestFilled(Sizes(Texts(job, sent)), ends, r) && RequestAnswered(job, turns, sent, ends, r)
  }

  /** `turns` holds the verdict of every turn that was settled at once. */
  predicate HoldsSettled(ds: seq<Decision>, turns: seq<Verdict>) {
    |turns| == |ds| && forall i | 0 <= i < |ds| && ds[i].Settled? :: turns[i] == ds[i].verdict
  }

  lemma {:induction false} HasIntentIs(p: Prompt)
    ensures HasIntent(p) <==> !Blank(p)
  {}

  /** Settled before, told from the verdicts, is settled before in the first pass. */
  lemma {:induction false} SettledIsDecided(job: Job, turns: seq<Verdict>, i: nat)
    requires |turns| == |job.prompts| && HoldsSettled(Decisions(job), turns) && i <= |turns|
    ensures Before(job, turns, i) == Previous(Plan(job, i))
  {
    if i > 0 {
      SettledIsDecided(job, turns, i - 1);
      DecisionIs(job, turns, i - 1);
    }
  }

  lemma {:induction false} DecisionIs(job: Job, turns: seq<Verdict>, i: nat)
    requires |turns| == |job.prompts| && HoldsSettled(Decisions(job), turns) && i < |turns|
    requires Before(job, turns, i) == Previous(Plan(job, i))
    ensures Decisions(job)[i] == Decide(job, i, Before(job, turns, i))
    ensures IsSettled(job, turns, i) <==> Decisions(job)[i].Settled?
    ensures PutOff(job, turns, i) <==> Decisions(job)[i] == Deferred
    ensures IsSent(job, turns, i) <==> Decisions(job)[i] == Submitted
  {
    PlanAt(job, |turns|, i);
    HasIntentIs(job.prompts[i]);
  }

  lemma {:induction false} OutcomeHoldsSettled(job: Job, ends: seq<nat>, turns: seq<Verdict>)
    requires Outcome(job, ends, turns)
    ensures HoldsSettled(Decisions(job), turns)
  {}

  lemma {:induction false} OutcomeTold(job: Job, ends: seq<nat>, turns: seq<Verdict>, i: nat)
    requires Outcome(job, ends, turns) && i < |turns|
    ensures Told(job, turns, i)
  {
    OutcomeHoldsSettled(job, ends, turns);
    SettledIsDecided(job, turns, i);
    DecisionIs(job, turns, i);
  }

  lemma {:induction false} SentAreSubmitted(job: Job, turns: seq<Verdict>, n: nat)
    requires |turns| == |job.prompts| && HoldsSettled(Decisions(job), turns) && n <= |turns|
    ensures SentTurns(job, turns, n) == Those(Decisions(job), Submitted, n)
  {
    if n > 0 {
      SentAreSubmitted(job, turns, n - 1);
      SettledIsDecided(job, turns, n - 1);
      DecisionIs(job, turns, n - 1);
    }
  }

  /** The answer to item `p` comes with request `r`. */
  lemma {:induction false} AnswerOfRequest(b: Backends, texts: seq<string>, start: nat, ends: seq<nat>, r: nat, p: nat)
    requires Rising(start, ends, |texts|) && r < |ends|
    requires (if r == 0 then start else ends[r - 1]) <= p < ends[r]
    ensures ends[r] <= |texts|
    ensures start <= p < start + |Answers(b, texts, start, ends)|
    ensures var first := if r == 0 then start else ends[r - 1];
            Answers(b, texts, start, ends)[p - start]
            == ItemVerdict(b, b.provider(first, texts[first..ends[r]]), p - first)
    decreases ends
  {
    if r > 0 {
      AnswerOfRequest(b, texts, ends[0], ends[1..], r - 1, p);
    }
  }

  lemma {:induction false} CutOfRequest(sizes: seq<nat>, start: nat, ends: seq<nat>, stop: nat, r: nat)
    requires Cuts(sizes, start, ends, stop) && Greedy(sizes, start, ends) && r < |ends|
    ensures var first := if r == 0 then start else ends[r - 1];
            Fits(sizes, first, ends[r]) && Full(sizes, first, ends[r])
    ensures ends[|ends| - 1] == stop
    decreases ends
  {
    if r > 0 {
      CutOfRequest(sizes, ends[0], ends[1..], stop, r - 1);
    } else if |ends| > 1 {
      CutOfRequest(sizes, ends[0], ends[1..], stop, 0);
    }
  }

  lemma {:induction false} CutFills(sizes: seq<nat>, ends: seq<nat>, r: nat)
    requires Cuts(sizes, 0, ends, |sizes|) && Greedy(sizes, 0, ends) && r < |ends|
    ensures RequestFilled(sizes, ends, r) && ends[|ends| - 1] == |sizes|
  {
    CutOfRequest(sizes, 0, ends, |sizes|, r);
    if ends[r] < |sizes| {
      assert !Fits(sizes, StartOf(ends, r), ends[r] + 1);
    }
  }

  lemma {:induction false} CutsFill(sizes: seq<nat>, ends: seq<nat>)
    requires Cuts(sizes, 0, ends, |sizes|) && Greedy(sizes, 0, ends)
    ensures if sizes == [] then ends == [] else ends != [] && ends[|ends| - 1] == |sizes|
    ensures forall r | 0 <= r < |ends| :: RequestFilled(sizes, ends, r)
  {
    forall r | 0 <= r < |ends|
      ensures RequestFilled(sizes, ends, r)
    {
      CutFills(sizes, ends, r);
    }
    if ends != [] {
      CutFills(sizes, ends, 0);
    }
  }

  lemma {:induction false} ItemGetsAnswer(b: Backends, answer: Option<seq<Assignment>>, t: nat)
    ensures GetsAnswer(b, answer, t, ItemVerdict(b, answer, t))
  {}

  /** The turns `sent` got the answers, one each. */
  predicate AnsweredBy(turns: seq<Verdict>, sent: seq<nat>, answers: seq<Verdict>)
    requires forall p | 0 <= p < |sent| :: sent[p] < |turns|
  {
    |answers| == |sent| && forall p | 0 <= p < |sent| :: turns[sent[p]] == answers[p]
  }

  lemma {:induction false} RequestGets(b: Backends, texts: seq<string>, ends: seq<nat>, turns: seq<Verdict>,
                                       sent: seq<nat>, r: nat)
    requires |texts| == |sent| && (forall p | 0 <= p < |sent| :: sent[p] < |turns|) && Rising(0, ends, |texts|)
    requires AnsweredBy(turns, sent, Answers(b, texts, 0, ends))
    requires r < |ends| && StartOf(ends, r) < ends[r] <= |sent|
    ensures forall p | StartOf(ends, r) <= p < ends[r] ::
              GetsAnswer(b, b.provider(StartOf(ends, r), texts[StartOf(ends, r)..ends[r]]), p - StartOf(ends, r),
                         turns[sent[p]])
  {
    var start := StartOf(ends, r);
    var answer := b.provider(start, texts[start..ends[r]]);
    forall p | start <= p < ends[r]
      ensures GetsAnswer(b, answer, p - start, turns[sent[p]])
    {
      AnswerOfRequest(b, texts, 0, ends, r, p);
      ItemGetsAnswer(b, answer, p - start);
    }
  }

  lemma {:induction false} OutcomeAnsweredBy(job: Job, ends: seq<nat>, turns: seq<Verdict>)
    requires Outcome(job, ends, turns)
    ensures var sent := SentTurns(job, turns, |turns|);
            var texts := Texts(job, sent);
            && Cuts(Sizes(texts), 0, ends, |sent|) && Greedy(Sizes(texts), 0, ends) && Rising(0, ends, |texts|)
            && AnsweredBy(turns, sent, Answers(job.backends, texts, 0, ends))
  {
    OutcomeHoldsSettled(job, ends, turns);
    SentAreSubmitted(job, turns, |turns|);
    var ds := Decisions(job);
    forall p | 0 <= p < |Those(ds, Submitted, |ds|)|
      ensures Rank(ds, Submitted, Those(ds, Submitted, |ds|)[p]) == p
    {
      RankOf(ds, Submitted, |ds|, p);
    }
  }

  lemma {:induction false} OutcomeSent(job: Job, ends: seq<nat>, turns: seq<Verdict>)
    requires Outcome(job, ends, turns)
    ensures SentInRequests(job, turns, ends)
  {
    OutcomeAnsweredBy(job, ends, turns);
    AnsweredInRequests(job, ends, turns, SentTurns(job, turns, |turns|));
  }

  lemma {:induction false} AnsweredInRequests(job: Job, ends: seq<nat>, turns: seq<Verdict>, sent: seq<nat>)
    requires |turns| == |job.prompts| && forall p | 0 <= p < |sent| :: sent[p] < |turns|
    requires var texts := Texts(job, sent);
             && Cuts(Sizes(texts), 0, ends, |sent|) && Greedy(Sizes(texts), 0, ends) && Rising(0, ends, |texts|)
             && AnsweredBy(turns, sent, Answers(job.backends, texts, 0, ends))
    ensures if sent == [] then ends == [] else ends != [] && ends[|ends| - 1] == |sent|
    ensures forall r | 0 <= r < |ends| ::
              RequestFilled(Sizes(Texts(job, sent)), ends, r) && RequestAnswered(job, turns, sent, ends, r)
  {
    var texts := Texts(job, sent);
    CutsFill(Sizes(texts), ends);
    forall r | 0 <= r < |ends|
      ensures RequestFilled(Sizes(texts), ends, r) && RequestAnswered(job, turns, sent, ends, r)
    {
      assert RequestFilled(Sizes(texts), ends, r);
      RequestGets(job.backends, texts, ends, turns, sent, r);
    }
  }

  lemma {:induction false} DisabledSendsNothing(job: Job, turns: seq<Verdict>, n: nat)
    requires n <= |turns| == |job.prompts| && job.disabled
    ensures SentTurns(job, turns, n) == []
  {
    if n > 0 {
      DisabledSendsNothing(job, turns, n - 1);
    }
  }

  /** `classify_turns`, from the grouped turns on.  A disabled job makes no request.  Otherwise a cached
      answer wins, a continuation or a turn without intent takes over what was settled last before it, a
      rule decides what is left of the others, and only the rest is sent to the provider. */
  method ClassifyTurns(job: Job) returns (turns: seq<Verdict>, ends: seq<nat>)
    ensures Outcome(job, ends, turns)
    ensures |turns| == |job.prompts|
    ensures job.disabled ==> ends == []
    ensures forall i | 0 <= i < |turns| :: Told(job, turns, i)
    ensures SentInRequests(job, turns, ends)
  {
    var first, pending, deferred := FirstPass(job);
    ghost var ds := Decisions(job);
    var texts := Texts(job, pending);
    var answered;
    answered, ends := RunRequests(job.backends, texts, first, pending);
    ghost var answers := Answers(job.backends, texts, 0, ends);
    forall i | 0 <= i < |ds| && ds[i] != Deferred
      ensures answered[i] == Final(ds, answers, i)
    {
      AnsweredIsFinal(ds, first, answered, answers, i);
    }
    if |ds| > 0 && ds[0] == Deferred {
      DeferredHasPredecessor(job, ds, 0);
    }
    turns := Inheritances(answered, deferred, ds, answers);
    OutcomeIsTold(job, ends, turns);
  }

  lemma {:induction false} OutcomeIsTold(job: Job, ends: seq<nat>, turns: seq<Verdict>)
    requires Outcome(job, ends, turns)
    ensures job.disabled ==> ends == []
    ensures forall i | 0 <= i < |turns| :: Told(job, turns, i)
    ensures SentInRequests(job, turns, ends)
  {
    forall i | 0 <= i < |turns|
      ensures Told(job, turns, i)
    {
      OutcomeTold(job, ends, turns, i);
    }
    OutcomeSent(job, ends, turns);
    if job.disabled {
      DisabledSendsNothing(job, turns, |turns|);
    }
  }

  /** Requests are only made of intents, and the managed endpoint accepts every one of them. */
  lemma {:induction false} RequestsMeetTheEndpoint(job: Job, ends: seq<nat>, turns: seq<Verdict>)
    requires Outcome(job, ends, turns)
    requires forall i | 0 <= i < |job.prompts| && !Blank(job.prompts[i]) :: Intent(job.prompts[i].intent.value)
    ensures forall request | request in Requests(PendingTexts(job, Decisions(job)), 0, ends) :: Acceptable(request)
  {
    var ds := Decisions(job);
    var pending := Those(ds, Submitted, |ds|);
    forall p | 0 <= p < |pending|
      ensures Intent(PendingTexts(job, ds)[p])
    {
      SubmittedIsNotBlank(job, ds, pending[p]);
    }
    RequestsAreAcceptable(PendingTexts(job, ds), 0, ends);
  }

  lemma {:induction false} SubmittedIsNotBlank(job: Job, ds: seq<Decision>, i: nat)
    requires Planned(job, ds) && i < |ds| && ds[i] == Submitted
    ensures !Blank(job.prompts[i])
  {
    PlanAt(job, |ds|, i);
  }
}
