/** The client's side of the device grant: the loop that polls for the token. */
module Polling {
  import opened Ledgers
  import opened Text
  import G = DeviceGrant

  const MAX_DEVICE_AUTH_SECONDS := 900
  const MAX_DEVICE_POLL_SECONDS := 60

  function Clamp(n: nat, low: nat, high: nat): nat
    requires low <= high
  {
    if n < low then low else if n > high then high else n
  }

  function Longer(interval: nat): nat {
    Min(interval + 5, MAX_DEVICE_POLL_SECONDS)
  }

  /* ---- The loop ---- */

  /** What may come of one token request */
  datatype Outcome =
    | Unreachable      // timeout, or no connection
    | Token            // a usable token
    | StillPending     // authorization_pending
    | TooFast          // slow_down
    | Unavailable      // temporarily_unavailable or server_error, with status 429 or 5xx
    | Refused          // access_denied
    | Expired          // expired_token
    | Unusable         // anything else

  predicate Continues(o: Outcome) {
    o.Unreachable? || o.StillPending? || o.TooFast? || o.Unavailable?
  }

  function NextInterval(interval: nat, o: Outcome): nat {
    if o.StillPending? then interval else Longer(interval)
  }

  datatype Ending = Enrolled | RanOut | Denied | Failed

  function Conclude(o: Outcome): Ending {
    match o
    case Token => Enrolled
    case Refused => Denied
    case Expired => RanOut
    case _ => Failed
  }

  /** How long the client sleeps before request `k`, if these are the answers */
  function Pause(start: nat, outcomes: nat -> Outcome, k: nat): nat {
    if k == 0 then start else NextInterval(Pause(start, outcomes, k - 1), outcomes(k - 1))
  }

  /** How long it has slept before the first `n` requests */
  function Slept(start: nat, outcomes: nat -> Outcome, n: nat): nat {
    if n == 0 then 0 else Slept(start, outcomes, n - 1) + Pause(start, outcomes, n - 1)
  }

  /** When the answer to request `n - 1` is in: the client sleeps before every request, and request `k`
      takes `delays(k)`. */
  function Elapsed(start: nat, outcomes: nat -> Outcome, delays: nat -> nat, n: nat): nat {
    if n == 0 then 0
    else Elapsed(start, outcomes, delays, n - 1) + Pause(start, outcomes, n - 1) + delays(n - 1)
  }

  /** How long the first `n` requests took */
  function Waited(delays: nat -> nat, n: nat): nat {
    if n == 0 then 0 else Waited(delays, n - 1) + delays(n - 1)
  }

  lemma {:induction false} ElapsedSplits(start: nat, outcomes: nat -> Outcome, delays: nat -> nat, n: nat)
    ensures Elapsed(start, outcomes, delays, n) == Slept(start, outcomes, n) + Waited(delays, n)
  {
    if n > 0 {
      ElapsedSplits(start, outcomes, delays, n - 1);
    }
  }

  /** The run of the loop that makes this many requests: all answers but the last let it go on, and
      before the last request the deadline had not passed. */
  predicate Ran(start: nat, deadline: nat, outcomes: nat -> Outcome, requests: nat) {
    && requests > 0
    && (forall k | 0 <= k < requests - 1 :: Continues(outcomes(k)))
    && Slept(start, outcomes, requests - 1) < deadline
  }

  /** All answers so far let the loop go on. */
  predicate GoesOn(start: nat, deadline: nat, outcomes: nat -> Outcome, delays: nat -> nat, requests: nat) {
    requests > 0 ==>
      && Ran(start, deadline, outcomes, requests) && Continues(outcomes(requests - 1))
      && Elapsed(start, outcomes, delays, requests - 1) < deadline
  }

  lemma {:induction false} SleptWithin(start: nat, outcomes: nat -> Outcome, delays: nat -> nat, n: nat)
    ensures Slept(start, outcomes, n) <= Elapsed(start, outcomes, delays, n)
  {
    if n > 0 {
      SleptWithin(start, outcomes, delays, n - 1);
    }
  }

  lemma {:induction false} RunsOn(start: nat, deadline: nat, outcomes: nat -> Outcome, delays: nat -> nat,
                                  requests: nat)
    requires GoesOn(start, deadline, outcomes, delays, requests)
    requires Elapsed(start, outcomes, delays, requests) < deadline
    ensures Ran(start, deadline, outcomes, requests + 1)
  {
    SleptWithin(start, outcomes, delays, requests);
  }

  /** How the loop ends, given the last answer */
  function EndingAfter(o: Outcome): Ending {
    if Continues(o) then RanOut else Conclude(o)
  }

  /** The same, spelled out */
  predicate Tells(o: Outcome, ending: Ending) {
    match ending
    case Enrolled => o == Token
    case Denied => o == Refused
    case Failed => o == Unusable
    case RanOut => o == Expired || o == Unreachable || o == StillPending || o == TooFast || o == Unavailable
  }

  /** Every answer but the last was one of those after which the client tries again. */
  predicate Retried(outcomes: nat -> Outcome, requests: nat) {
    forall k: nat | k + 1 < requests ::
      var o := outcomes(k); o == Unreachable || o == StillPending || o == TooFast || o == Unavailable
  }

  /** The loop ends with the first answer that does not let it go on, or else with the first one that
      is in when the deadline has passed. */
  method Poll(interval: nat, expiresIn: nat, outcomes: nat -> Outcome, delays: nat -> nat)
    returns (ending: Ending, requests: nat)
    ensures Ran(Clamp(interval, 1, 60), Clamp(expiresIn, 1, 900), outcomes, requests)
    ensures Retried(outcomes, requests) && Tells(outcomes(requests - 1), ending)
    ensures var start, deadline := Clamp(interval, 1, 60), Clamp(expiresIn, 1, 900);
            && Elapsed(start, outcomes, delays, requests - 1) < deadline
            && (Continues(outcomes(requests - 1)) ==> deadline <= Elapsed(start, outcomes, delays, requests))
    ensures ending == EndingAfter(outcomes(requests - 1))
  {
    var deadline := Clamp(expiresIn, 1, MAX_DEVICE_AUTH_SECONDS);
    var start := Clamp(interval, 1, MAX_DEVICE_POLL_SECONDS);
    var pause := start;
    var now := 0;
    requests := 0;
    while now < deadline
      invariant GoesOn(start, deadline, outcomes, delays, requests)
      invariant now == Elapsed(start, outcomes, delays, requests)
      invariant pause >= 1 && pause == Pause(start, outcomes, requests)
      decreases deadline - now
    {
      RunsOn(start, deadline, outcomes, delays, requests);
      now := now + pause + delays(requests);
      var outcome := outcomes(requests);
      requests := requests + 1;
      if !Continues(outcome) {
        ending := Conclude(outcome);
        RunTells(start, deadline, outcomes, requests);
        return;
      }
      if !outcome.StillPending? {
        pause := Longer(pause);
      }
    }
    ending := RanOut;
    RunTells(start, deadline, outcomes, requests);
  }

  lemma {:induction false} RunTells(start: nat, deadline: nat, outcomes: nat -> Outcome, requests: nat)
    requires Ran(start, deadline, outcomes, requests)
    ensures Retried(outcomes, requests) && Tells(outcomes(requests - 1), EndingAfter(outcomes(requests - 1)))
  {
    forall k: nat | k + 1 < requests
      ensures var o := outcomes(k); o == Unreachable || o == StillPending || o == TooFast || o == Unavailable
    {
      assert Continues(outcomes(k));
    }
  }

  /** How many of the first `n` answers asked for a longer interval: all but "still pending" do. */
  function SlowedDown(outcomes: nat -> Outcome, n: nat): nat {
    if n == 0 then 0 else SlowedDown(outcomes, n - 1) + if outcomes(n - 1) == StillPending then 0 else 1
  }

  /** Each of them adds five seconds, up to a minute. */
  lemma {:induction false} PauseIsCounted(start: nat, outcomes: nat -> Outcome, n: nat)
    requires 1 <= start <= 60
    ensures var slowed := start + 5 * SlowedDown(outcomes, n);
            Pause(start, outcomes, n) == if slowed < 60 then slowed else 60
  {
    if n > 0 {
      PauseIsCounted(start, outcomes, n - 1);
    }
  }

  /** The interval never gets shorter and never exceeds a minute. */
  lemma {:induction false} PausesGrow(start: nat, outcomes: nat -> Outcome, j: nat, k: nat)
    requires 1 <= start <= MAX_DEVICE_POLL_SECONDS && j <= k
    ensures start <= Pause(start, outcomes, j) <= Pause(start, outcomes, k) <= MAX_DEVICE_POLL_SECONDS
  {
    if j < k {
      PausesGrow(start, outcomes, j, k - 1);
    } else if 0 < k {
      PausesGrow(start, outcomes, k - 1, k - 1);
    }
  }

  lemma {:induction false} SleptAtLeast(start: nat, outcomes: nat -> Outcome, n: nat)
    requires 1 <= start <= MAX_DEVICE_POLL_SECONDS
    ensures n * start <= Slept(start, outcomes, n)
  {
    if n > 0 {
      SleptAtLeast(start, outcomes, n - 1);
      PausesGrow(start, outcomes, n - 1, n - 1);
      Distribute(n - 1, start);
    }
  }

  lemma {:induction false} Distribute(n: nat, k: nat)
    ensures (n + 1) * k == n * k + k
    ensures k >= 1 ==> n <= n * k
  {}

  /** The number of requests is bounded: all but the last were preceded by at least the starting
      interval, within the lifetime of the code. */
  lemma {:induction false} RequestsAreBounded(start: nat, deadline: nat, outcomes: nat -> Outcome, requests: nat)
    requires 1 <= start <= MAX_DEVICE_POLL_SECONDS && deadline <= MAX_DEVICE_AUTH_SECONDS
    requires Ran(start, deadline, outcomes, requests)
    ensures (requests - 1) * start < deadline && requests <= MAX_DEVICE_AUTH_SECONDS
  {
    SleptAtLeast(start, outcomes, requests - 1);
    Distribute(requests - 1, start);
  }

  /* ---- In step with the server ---- */

  datatype Flight = Idle | InFlight | Handled(reply: G.Reply) | Ended

  /** `late` counts requests that the client has given up on and the server may still process. */
  datatype Line = Line(interval: nat, world: G.World, late: nat, flight: Flight)

  datatype Event =
    | Send                      // the client has slept and sends a request
    | Process(at: int)          // the server processes it
    | Receive                   // the client reads the reply
    | Lose                      // the client gives up on the request or its reply, or is told to retry later
    | ProcessLate(at: int)      // the server processes a request that was given up on
    | Around(event: G.Event)    // the browser, teams and row cleanup

  function ReplyNow(w: G.World, at: int): G.Reply {
    if w.grant == None then G.InvalidGrant else G.Answer(w.grant.value, at, w.teams)
  }

  /** How the client understands the server's reply; a failure on the server comes with status 500. */
  function Understood(reply: G.Reply): Outcome {
    match reply
    case Issued(_) => Token
    case AuthorizationPending => StillPending
    case SlowDown => TooFast
    case AccessDenied => Refused
    case ExpiredToken => Expired
    case InvalidGrant => Unusable
    case ServerError => Unavailable
  }

  /** The client goes on to its next request, or ends, as in its loop. */
  function GoOn(l: Line, o: Outcome): Line {
    if Continues(o) then l.(flight := Idle, interval := NextInterval(l.interval, o)) else l.(flight := Ended)
  }

  function Next(l: Line, e: Event): Line {
    match e
    case Send => if l.flight == Idle then l.(flight := InFlight) else l
    case Process(at) =>
      if l.flight != InFlight then l
      else l.(flight := Handled(ReplyNow(l.world, at)), world := G.Next(l.world, G.Poll(at)))
    case Receive => if l.flight.Handled? then GoOn(l, Understood(l.flight.reply)) else l
    case Lose =>
      if l.flight == InFlight then GoOn(l.(late := l.late + 1), Unreachable)
      else if l.flight.Handled? then GoOn(l, Unreachable)
      else l
    case ProcessLate(at) =>
      if l.late > 0 then l.(late := l.late - 1, world := G.Next(l.world, G.Poll(at))) else l
    case Around(event) => if event.Poll? then l else l.(world := G.Next(l.world, event))
  }

  function Run(start: Line, events: seq<Event>): Line {
    if events == [] then start else Next(Run(start, events[..|events| - 1]), events[|events| - 1])
  }

  /** The client starts with the interval that the server announced. */
  ghost predicate Starts(l: Line) {
    && G.Fresh(l.world) && l.late == 0 && l.flight == Idle
    && l.interval == Clamp(G.INITIAL_INTERVAL, 1, 60)
  }

  function Owed(l: Line): nat {
    if l.flight == Handled(G.SlowDown) then 5 else 0
  }

  /** The client is ahead by five seconds for every request that may still slow the server down. */
  predicate InStep(l: Line) {
    && l.interval <= MAX_DEVICE_POLL_SECONDS
    && (l.world.grant.Some? ==>
          && l.world.grant.value.interval <= G.MAX_INTERVAL
          && Min(l.world.grant.value.interval + 5 * l.late, MAX_DEVICE_POLL_SECONDS) <= l.interval + Owed(l))
  }

  lemma {:induction false} PollSlowsByFive(w: G.World, at: int)
    requires w.grant.Some?
    ensures var w' := G.Next(w, G.Poll(at));
            && w'.grant.Some?
            && w'.grant.value.interval
               == if ReplyNow(w, at) == G.SlowDown then G.Slower(w.grant.value.interval) else w.grant.value.interval
  {}

  lemma {:induction false} NextKeepsStep(l: Line, e: Event)
    requires InStep(l)
    ensures InStep(Next(l, e))
  {
    match e
    case Process(at) => if l.world.grant.Some? { PollSlowsByFive(l.world, at); }
    case ProcessLate(at) => if l.world.grant.Some? { PollSlowsByFive(l.world, at); }
    case _ =>
  }

  /** Whatever is lost, late or repeated: whenever the client sleeps, it sleeps at least as long as
      the server demands. */
  lemma {:induction false} ClientKeepsPace(start: Line, events: seq<Event>)
    requires Starts(start)
    ensures var l := Run(start, events);
            && InStep(l)
            && (l.flight == Idle && l.world.grant.Some? ==> l.world.grant.value.interval <= l.interval)
  {
    if events != [] {
      ClientKeepsPace(start, events[..|events| - 1]);
      NextKeepsStep(Run(start, events[..|events| - 1]), events[|events| - 1]);
    }
  }
}
