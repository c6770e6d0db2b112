/** The server's fixed-window rate limiter. */
module RateLimiting {
  import opened Ledgers
  import opened Text

  const MAX_RATE_LIMIT_KEYS: nat := 100_000

  datatype RateLimit = RateLimit(window: nat, maxRequests: u32)

  datatype RateWindow = RateWindow(expiresAt: int, hits: u32)

  datatype Verdict = Admitted | Exceeded | Shed

  type Windows = map<string, RateWindow>

  function Entry(scope: string, key: string): string {
    scope + ":" + key
  }

  function Live(windows: Windows, now: int): Windows {
    map e | e in windows && windows[e].expiresAt > now :: windows[e]
  }

  predicate Full(windows: Windows, entry: string) {
    |windows| >= MAX_RATE_LIMIT_KEYS && entry !in windows
  }

  function Opened(windows: Windows, entry: string, limit: RateLimit, now: int): RateWindow {
    if entry in windows then windows[entry] else RateWindow(now + limit.window, 0)
  }

  function Judge(windows: Windows, entry: string, limit: RateLimit, now: int): Verdict {
    if limit.maxRequests == 0 then Admitted
    else if Full(Live(windows, now), entry) then Shed
    else if Opened(Live(windows, now), entry, limit, now).hits >= limit.maxRequests then Exceeded
    else Admitted
  }

  function Counted(window: RateWindow): RateWindow {
    window.(hits := Min(window.hits + 1, U32_MAX))
  }

  function After(windows: Windows, entry: string, limit: RateLimit, now: int): Windows {
    if limit.maxRequests == 0 then windows
    else
      var live := Live(windows, now);
      if Full(live, entry) then live
      else
        var window := Opened(live, entry, limit, now);
        live[entry := if window.hits >= limit.maxRequests then window else Counted(window)]
  }

  class RateLimiter {
    var windows: Windows

    constructor ()
      ensures windows == map[]
    {
      windows := map[];
    }

    method Check(scope: string, key: string, limit: RateLimit, now: int) returns (verdict: Verdict)
      modifies this
      ensures verdict == Judge(old(windows), Entry(scope, key), limit, now)
      ensures windows == After(old(windows), Entry(scope, key), limit, now)
      ensures limit.maxRequests == 0 ==> verdict == Admitted && windows == old(windows)
      ensures limit.maxRequests > 0 ==>
                var entry := scope + ":" + key;
                var open := map e | e in old(windows) && old(windows)[e].expiresAt > now :: old(windows)[e];
                var hits := if entry in open then open[entry].hits else 0;
                var expiresAt := if entry in open then open[entry].expiresAt else now + limit.window;
                if entry !in open && |open| >= 100_000 then verdict == Shed && windows == open
                else if hits < limit.maxRequests then
                  verdict == Admitted && windows == open[entry := RateWindow(expiresAt, hits + 1)]
                else verdict == Exceeded && windows == open[entry := RateWindow(expiresAt, hits)]
    {
      if limit.maxRequests == 0 {
        return Admitted;
      }
      windows := map e | e in windows && windows[e].expiresAt > now :: windows[e];
      var entry := Entry(scope, key);
      if |windows| >= MAX_RATE_LIMIT_KEYS && entry !in windows {
        return Shed;
      }
      if entry !in windows {
        windows := windows[entry := RateWindow(now + limit.window, 0)];
      }
      if windows[entry].hits >= limit.maxRequests {
        return Exceeded;
      }
      windows := windows[entry := Counted(windows[entry])];
      return Admitted;
    }
  }

  /* ---- Entries ---- */

  predicate Colonless(scope: string) {
    forall i | 0 <= i < |scope| :: scope[i] != ':'
  }

  lemma {:induction false} FirstColon(scope: string, key: string)
    requires Colonless(scope)
    ensures Entry(scope, key)[|scope|] == ':'
    ensures forall i | 0 <= i < |scope| :: Entry(scope, key)[i] != ':'
  {
    assert forall i | 0 <= i < |scope| :: Entry(scope, key)[i] == scope[i];
  }

  /** Scopes are fixed words without a colon: different scopes and keys never share an entry. */
  lemma {:induction false} EntryInjective(scope: string, key: string, scope': string, key': string)
    requires Colonless(scope) && Colonless(scope') && Entry(scope, key) == Entry(scope', key')
    ensures scope == scope' && key == key'
  {
    var e := Entry(scope, key);
    FirstColon(scope, key);
    FirstColon(scope', key');
    assert e[..|scope|] == scope && e[..|scope'|] == scope';
    assert e[|scope| + 1..] == key && e[|scope'| + 1..] == key';
  }

  /* ---- Runs ---- */

  datatype Request = Request(at: int, scope: string, key: string)

  type Limits = string -> RateLimit

  predicate Ordered(rs: seq<Request>) {
    && (forall i, j | 0 <= i < j < |rs| :: rs[i].at <= rs[j].at)
    && (forall i | 0 <= i < |rs| :: Colonless(rs[i].scope))
  }

  function EntryOf(r: Request): string {
    Entry(r.scope, r.key)
  }

  /** The table after these requests */
  function Table(limits: Limits, rs: seq<Request>): Windows {
    if rs == [] then map[]
    else
      var r := rs[|rs| - 1];
      After(Table(limits, rs[..|rs| - 1]), EntryOf(r), limits(r.scope), r.at)
  }

  /** What request `r` is told when it comes after `rs` */
  function Told(limits: Limits, rs: seq<Request>, r: Request): Verdict {
    Judge(Table(limits, rs), EntryOf(r), limits(r.scope), r.at)
  }

  lemma {:induction false} LiveIsSmaller(windows: Windows, now: int)
    ensures |Live(windows, now)| <= |windows|
  {
    var live := Live(windows, now);
    assert live.Keys <= windows.Keys;
    SubsetSize(live.Keys, windows.Keys);
  }

  lemma {:induction false} SubsetSize(a: set<string>, b: set<string>)
    requires a <= b
    ensures |a| <= |b|
  {
    assert b == a + (b - a);
  }

  /** The table never holds more than 100000 windows. */
  lemma {:induction false} TableIsBounded(limits: Limits, rs: seq<Request>)
    ensures |Table(limits, rs)| <= 100_000
  {
    if rs != [] {
      var r := rs[|rs| - 1];
      TableIsBounded(limits, rs[..|rs| - 1]);
      LiveIsSmaller(Table(limits, rs[..|rs| - 1]), r.at);
    }
  }

  /* ---- One counter per key ---- */

  /** A fixed-window counter of its own: the window it has open, and whether a hit is let through */
  function HitWindow(c: Option<RateWindow>, limit: RateLimit, now: int): RateWindow {
    if c.Some? && c.value.expiresAt > now then c.value else RateWindow(now + limit.window, 0)
  }

  predicate HitPasses(c: Option<RateWindow>, limit: RateLimit, now: int) {
    limit.maxRequests == 0 || HitWindow(c, limit, now).hits < limit.maxRequests
  }

  function Hit(c: Option<RateWindow>, limit: RateLimit, now: int): Option<RateWindow> {
    if limit.maxRequests == 0 then c
    else if HitPasses(c, limit, now) then Some(Counted(HitWindow(c, limit, now)))
    else Some(HitWindow(c, limit, now))
  }

  predicate Concerns(r: Request, scope: string, key: string) {
    r.scope == scope && r.key == key
  }

  /** The counter of one key, fed with its requests except those that were shed */
  function Counter(limits: Limits, rs: seq<Request>, scope: string, key: string): Option<RateWindow> {
    if rs == [] then None
    else
      var front, r := rs[..|rs| - 1], rs[|rs| - 1];
      var c := Counter(limits, front, scope, key);
      if Concerns(r, scope, key) && Told(limits, front, r) != Shed then Hit(c, limits(scope), r.at) else c
  }

  /** The table has what the counter has; what it has dropped has expired. */
  predicate Mirrors(windows: Windows, entry: string, c: Option<RateWindow>, now: int) {
    if entry in windows then c == Some(windows[entry]) else c.Some? ==> c.value.expiresAt <= now
  }

  lemma {:induction false} OwnRequestMirrors(windows: Windows, entry: string, c: Option<RateWindow>, limit: RateLimit,
                                             before: int, now: int)
    requires Mirrors(windows, entry, c, before) && before <= now
    ensures Judge(windows, entry, limit, now) != Shed ==>
              && (Judge(windows, entry, limit, now) == Admitted <==> HitPasses(c, limit, now))
              && Mirrors(After(windows, entry, limit, now), entry, Hit(c, limit, now), now)
    ensures Judge(windows, entry, limit, now) == Shed ==> Mirrors(After(windows, entry, limit, now), entry, c, now)
  {
    if limit.maxRequests > 0 {
      var live := Live(windows, now);
      assert entry in live ==> live[entry] == windows[entry];
      assert entry in windows && entry !in live ==> windows[entry].expiresAt <= now;
    }
  }

  lemma {:induction false} OtherRequestMirrors(windows: Windows, entry: string, other: string, c: Option<RateWindow>,
                                               limit: RateLimit, before: int, now: int)
    requires Mirrors(windows, entry, c, before) && before <= now && other != entry
    ensures Mirrors(After(windows, other, limit, now), entry, c, now)
  {
    if limit.maxRequests > 0 {
      var live := Live(windows, now);
      assert entry in live ==> live[entry] == windows[entry];
      assert entry in windows && entry !in live ==> windows[entry].expiresAt <= now;
      assert entry in After(windows, other, limit, now) <==> entry in live;
    }
  }

  lemma {:induction false} TableMirrorsCounters(limits: Limits, rs: seq<Request>, scope: string, key: string, now: int)
    requires Ordered(rs) && Colonless(scope) && forall i | 0 <= i < |rs| :: rs[i].at <= now
    ensures Mirrors(Table(limits, rs), Entry(scope, key), Counter(limits, rs, scope, key), now)
  {
    if rs != [] {
      var front, r := rs[..|rs| - 1], rs[|rs| - 1];
      var c := Counter(limits, front, scope, key);
      TableMirrorsCounters(limits, front, scope, key, r.at);
      if Concerns(r, scope, key) {
        OwnRequestMirrors(Table(limits, front), Entry(scope, key), c, limits(scope), r.at, r.at);
      } else {
        if EntryOf(r) == Entry(scope, key) {
          EntryInjective(r.scope, r.key, scope, key);
        }
        OtherRequestMirrors(Table(limits, front), Entry(scope, key), EntryOf(r), c, limits(r.scope), r.at, r.at);
      }
    }
  }

  lemma {:induction false} CounterMirrored(limits: Limits, rs: seq<Request>, r: Request)
    requires Ordered(rs + [r])
    ensures Mirrors(Table(limits, rs), EntryOf(r), Counter(limits, rs, r.scope, r.key), r.at)
  {
    var all := rs + [r];
    assert all[|rs|] == r;
    assert forall i | 0 <= i < |rs| :: all[i] == rs[i];
    TableMirrorsCounters(limits, rs, r.scope, r.key, r.at);
  }

  lemma {:induction false} CounterDecides(limits: Limits, rs: seq<Request>, r: Request)
    requires Ordered(rs + [r]) && Told(limits, rs, r) != Shed
    ensures Told(limits, rs, r) == Admitted
       <==> HitPasses(Counter(limits, rs, r.scope, r.key), limits(r.scope), r.at)
  {
    CounterMirrored(limits, rs, r);
    OwnRequestMirrors(Table(limits, rs), EntryOf(r), Counter(limits, rs, r.scope, r.key), limits(r.scope), r.at, r.at);
  }

  /** The shared table judges exactly as independent counters would: a request is shed exactly while
      100000 other windows are open and none of its own, or else its own counter decides. */
  lemma {:induction false} BehavesLikeCounters(limits: Limits, rs: seq<Request>, r: Request)
    requires Ordered(rs + [r])
    ensures var verdict := Told(limits, rs, r);
            var table, c, limit := Table(limits, rs), Counter(limits, rs, r.scope, r.key), limits(r.scope);
            var open := set e | e in table && table[e].expiresAt > r.at;
            var own := c.Some? && c.value.expiresAt > r.at;
            && (own <==> EntryOf(r) in open)
            && (verdict == Shed <==> limit.maxRequests > 0 && |open| >= 100_000 && !own)
            && (verdict == Exceeded <==>
                  && verdict != Shed && limit.maxRequests > 0
                  && (if own then c.value.hits else 0) >= limit.maxRequests)
            && (verdict != Shed ==> (verdict == Admitted <==> HitPasses(c, limit, r.at)))
  {
    CounterMirrored(limits, rs, r);
    if Told(limits, rs, r) != Shed {
      CounterDecides(limits, rs, r);
    }
    var table := Table(limits, rs);
    assert Live(table, r.at).Keys == (set e | e in table && table[e].expiresAt > r.at);
  }

  /* ---- A bound over time ---- */

  predicate Within(at: int, from: int, length: nat) {
    from <= at <= from + length
  }

  /** How many requests of one key were admitted in the time from `from` to one window later */
  function AdmittedIn(limits: Limits, rs: seq<Request>, scope: string, key: string, from: int): nat {
    if rs == [] then 0
    else
      var front, r := rs[..|rs| - 1], rs[|rs| - 1];
      AdmittedIn(limits, front, scope, key, from)
      + if Concerns(r, scope, key) && Told(limits, front, r) == Admitted && Within(r.at, from, limits(scope).window)
        then 1 else 0
  }

  /** Where the counter stands with respect to a stretch of time in which it has let `n` hits pass:
      in the first window that touches the stretch, in the second, or past the stretch. */
  predicate Stage(c: Option<RateWindow>, limit: RateLimit, from: int, n: nat, now: int) {
    && (c.Some? ==> c.value.hits <= limit.maxRequests)
    && (|| n == 0
        || (c.Some? && n <= c.value.hits && from < c.value.expiresAt)
        || (c.Some? && n <= limit.maxRequests + c.value.hits && from + limit.window < c.value.expiresAt)
        || (n <= 2 * limit.maxRequests && from + limit.window < now))
  }

  lemma {:induction false} HitKeepsStage(c: Option<RateWindow>, limit: RateLimit, from: int, n: nat, before: int,
                                         now: int)
    requires limit.window > 0 && limit.maxRequests > 0
    requires Stage(c, limit, from, n, before) && before <= now
    ensures Stage(Hit(c, limit, now), limit, from,
                  n + if HitPasses(c, limit, now) && Within(now, from, limit.window) then 1 else 0, now)
  {}

  lemma {:induction false} StageHolds(limits: Limits, rs: seq<Request>, scope: string, key: string, from: int, now: int)
    requires Ordered(rs) && Colonless(scope) && forall i | 0 <= i < |rs| :: rs[i].at <= now
    requires limits(scope).window > 0 && limits(scope).maxRequests > 0
    ensures Stage(Counter(limits, rs, scope, key), limits(scope), from, AdmittedIn(limits, rs, scope, key, from), now)
  {
    if rs != [] {
      var front, r := rs[..|rs| - 1], rs[|rs| - 1];
      StageHolds(limits, front, scope, key, from, r.at);
      if Concerns(r, scope, key) && Told(limits, front, r) != Shed {
        assert rs == front + [r];
        CounterDecides(limits, front, r);
        HitKeepsStage(Counter(limits, front, scope, key), limits(scope), from,
                      AdmittedIn(limits, front, scope, key, from), r.at, r.at);
      }
    }
  }

  /** In any stretch of time as long as the window, no key is admitted more than twice its budget. */
  lemma {:induction false} AtMostTwiceTheBudget(limits: Limits, rs: seq<Request>, scope: string, key: string, from: int)
    requires Ordered(rs) && Colonless(scope) && limits(scope).window > 0 && limits(scope).maxRequests > 0
    ensures AdmittedIn(limits, rs, scope, key, from) <= 2 * limits(scope).maxRequests
  {
    StageHolds(limits, rs, scope, key, from, if rs == [] then 0 else rs[|rs| - 1].at);
  }
}
