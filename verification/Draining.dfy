/** Whatever has happened so far, the outboxes can still be drained. */
module Draining {
  import opened Ledgers
  import opened Outbox
  import opened Ingestion
  import opened Replication
  import opened Retention
  import F = Framing

  function Waits(s: State, i: Installation): set<Key>
    requires i in s.clients
  {
    Pending(s.clients[i].outbox)
  }

  /** The length of what waits fits into a frame. */
  predicate Sendable(cfg: Config, s: State, i: Installation) {
    i in s.clients ==>
      forall k | k in Waits(s, i) :: |cfg.encode(s.clients[i].outbox[k].snapshot)| <= U64_MAX
  }

  /** From `s` to `s'`, the session `k` of `i` has been acknowledged, and nothing else has happened to any
      session of any installation. */
  predicate Acknowledges(s: State, s': State, i: Installation, k: Key) {
    && s'.clients.Keys == s.clients.Keys && i in s.clients
    && (forall j | j in s.clients && j != i :: s'.clients[j] == s.clients[j])
    && Waits(s', i) == Waits(s, i) - {k}
    && (forall l | l in Waits(s', i) :: s'.clients[i].outbox[l] == s.clients[i].outbox[l])
  }

  /** The run goes on, and answers still come in time if they did so far. */
  predicate Extends(cfg: Config, steps: seq<Step>, longer: seq<Step>, patience: nat) {
    steps <= longer && (Timely(cfg, steps, patience) ==> Timely(cfg, longer, patience))
  }

  lemma {:induction false} ExtendsSnoc(cfg: Config, steps: seq<Step>, longer: seq<Step>, step: Step, patience: nat)
    requires Extends(cfg, steps, longer, patience) && InTime(Run(cfg, longer), step, patience)
    ensures Extends(cfg, steps, longer + [step], patience)
    ensures Run(cfg, longer + [step]) == Apply(cfg, Run(cfg, longer), step)
  {
    RunSnoc(cfg, longer, step, patience);
  }

  /* ---- One session ---- */

  lemma {:induction false} OneWaits(cfg: Config, outbox: Table, k: Key)
    requires Filed(outbox) && k in Pending(outbox) && |cfg.encode(outbox[k].snapshot)| <= U64_MAX
    ensures Waiting(outbox, [outbox[k].snapshot]) && F.Short(Encoded(cfg, [outbox[k].snapshot]))
  {}

  /** The request is on its way. */
  predicate IsSent(s: State, s': State, i: Installation, x: Snapshot, now: int) {
    && i in s.clients && s.clients[i].clock <= now
    && s'.clients == s.clients[i := SentClient(s.clients[i], [x], now)] && Message(i, [x]) in s'.sent
  }

  lemma {:induction false} SendSession(cfg: Config, steps: seq<Step>, i: Installation, k: Key, patience: nat)
    returns (longer: seq<Step>)
    requires Faithful(cfg) && i in Run(cfg, steps).clients && k in Waits(Run(cfg, steps), i)
    requires |cfg.encode(Run(cfg, steps).clients[i].outbox[k].snapshot)| <= U64_MAX
    ensures Extends(cfg, steps, longer, patience)
    ensures var c := Run(cfg, steps).clients[i];
            IsSent(Run(cfg, steps), Run(cfg, longer), i, c.outbox[k].snapshot, c.clock)
  {
    var s := Run(cfg, steps);
    var c := s.clients[i];
    RunKeepsInv(cfg, steps);
    assert ClientOk(cfg, s.rows, s.rejected, i, c);
    OneWaits(cfg, c.outbox, k);
    var send := Send(i, [c.outbox[k].snapshot], c.clock);
    longer := steps + [send];
    ExtendsSnoc(cfg, steps, steps, send, patience);
  }

  /** The server answers: to a valid snapshot as soon as the batch is on record, to an invalid one as
      soon as it has been refused. */
  lemma {:induction false} AnswerSession(cfg: Config, steps: seq<Step>, start: seq<Step>, m: Message, x: Snapshot,
                                         patience: nat)
    returns (longer: seq<Step>)
    requires m in Run(cfg, steps).sent && m.batch == [x] && Extends(cfg, start, steps, patience)
    ensures Extends(cfg, start, longer, patience)
    ensures Run(cfg, longer).clients == Run(cfg, steps).clients && m in Run(cfg, longer).answered
  {
    longer := steps + [Write(m)];
    ExtendsSnoc(cfg, start, steps, Write(m), patience);
    assert m.batch[0] == x;
    if cfg.valid(x) {
      ExtendsSnoc(cfg, start, longer, Record(m), patience);
      longer := longer + [Record(m)];
    }
    ExtendsSnoc(cfg, start, longer, Reply(m), patience);
    longer := longer + [Reply(m)];
  }

  lemma {:induction false} MarkedWaits(c: Client, x: Snapshot, now: int)
    requires Filed(c.outbox) && x.key in c.outbox && c.outbox[x.key].snapshot == x
    ensures Pending(MarkedClient(c, x, now).outbox) == Pending(c.outbox) - {x.key}
    ensures forall l | l in c.outbox && l != x.key :: MarkedClient(c, x, now).outbox[l] == c.outbox[l]
  {}

  lemma {:induction false} DeliverSession(cfg: Config, start: seq<Step>, steps: seq<Step>, s: State, i: Installation,
                                          x: Snapshot, now: int, patience: nat) returns (longer: seq<Step>)
    requires Extends(cfg, start, steps, patience) && i in s.clients && s.clients[i].clock <= now
    requires Run(cfg, steps).clients == s.clients[i := SentClient(s.clients[i], [x], now)]
    requires Message(i, [x]) in Run(cfg, steps).answered
    ensures Extends(cfg, start, longer, patience)
    ensures Run(cfg, longer).clients == s.clients[i := MarkedClient(SentClient(s.clients[i], [x], now), x, now)]
  {
    var m := Message(i, [x]);
    assert m.batch[0] == x && x in [x];
    ExtendsSnoc(cfg, start, steps, Deliver(m, 0, now), patience);
    longer := steps + [Deliver(m, 0, now)];
  }

  lemma {:induction false} MarkedAcknowledges(s: State, s': State, i: Installation, x: Snapshot, now: int)
    requires i in s.clients && Filed(s.clients[i].outbox)
    requires x.key in s.clients[i].outbox && s.clients[i].outbox[x.key].snapshot == x
    requires s'.clients == s.clients[i := MarkedClient(SentClient(s.clients[i], [x], now), x, now)]
    ensures Acknowledges(s, s', i, x.key)
  {
    MarkedWaits(SentClient(s.clients[i], [x], now), x, now);
  }

  lemma {:induction false} DrainSession(cfg: Config, steps: seq<Step>, i: Installation, k: Key, patience: nat)
    returns (longer: seq<Step>)
    requires Faithful(cfg) && i in Run(cfg, steps).clients && k in Waits(Run(cfg, steps), i)
    requires |cfg.encode(Run(cfg, steps).clients[i].outbox[k].snapshot)| <= U64_MAX
    ensures Extends(cfg, steps, longer, patience)
    ensures Acknowledges(Run(cfg, steps), Run(cfg, longer), i, k)
  {
    var s := Run(cfg, steps);
    var x, now := s.clients[i].outbox[k].snapshot, s.clients[i].clock;
    var sent := SendSession(cfg, steps, i, k, patience);
    var answered := AnswerSession(cfg, sent, steps, Message(i, [x]), x, patience);
    longer := DeliverSession(cfg, steps, answered, s, i, x, now, patience);
    RunKeepsInv(cfg, steps);
    assert ClientOk(cfg, s.rows, s.rejected, i, s.clients[i]);
    MarkedAcknowledges(s, Run(cfg, longer), i, x, now);
  }

  /* ---- All sessions ---- */

  /** Nothing has happened to installations other than `i`. */
  predicate OnlyTouches(s: State, s': State, i: Installation) {
    && s'.clients.Keys == s.clients.Keys
    && (forall j | j in s.clients && j != i :: s'.clients[j] == s.clients[j])
  }

  lemma {:induction false} DrainClient(cfg: Config, steps: seq<Step>, i: Installation, patience: nat)
    returns (longer: seq<Step>)
    requires Faithful(cfg) && i in Run(cfg, steps).clients && Sendable(cfg, Run(cfg, steps), i)
    ensures Extends(cfg, steps, longer, patience)
    ensures OnlyTouches(Run(cfg, steps), Run(cfg, longer), i) && Waits(Run(cfg, longer), i) == {}
    decreases |Waits(Run(cfg, steps), i)|
  {
    if Waits(Run(cfg, steps), i) == {} {
      longer := steps;
    } else {
      var k :| k in Waits(Run(cfg, steps), i);
      var next := DrainSession(cfg, steps, i, k, patience);
      longer := DrainClient(cfg, next, i, patience);
    }
  }

  lemma {:induction false} DrainClients(cfg: Config, steps: seq<Step>, todo: set<Installation>, patience: nat)
    returns (longer: seq<Step>)
    requires Faithful(cfg) && todo <= Run(cfg, steps).clients.Keys
    requires forall i | i in todo :: Sendable(cfg, Run(cfg, steps), i)
    ensures Extends(cfg, steps, longer, patience)
    ensures Run(cfg, longer).clients.Keys == Run(cfg, steps).clients.Keys
    ensures forall i | i in todo :: Waits(Run(cfg, longer), i) == {}
    ensures forall j | j in Run(cfg, steps).clients && j !in todo ::
              Run(cfg, longer).clients[j] == Run(cfg, steps).clients[j]
    decreases |todo|
  {
    if todo == {} {
      longer := steps;
    } else {
      var i :| i in todo;
      var next := DrainClient(cfg, steps, i, patience);
      longer := DrainClients(cfg, next, todo - {i}, patience);
      assert Run(cfg, longer).clients[i] == Run(cfg, next).clients[i];
    }
  }

  /** From every state that any run reaches, with answers still lost, late or under way, the run can be
      continued in such a way that nothing waits any more - with answers that come in time, if they
      came in time before.  If nothing was ever refused, the server then shows, for every session, the
      newest snapshot queued (`Converged`). */
  lemma {:induction false} EveryRunCanDrain(cfg: Config, steps: seq<Step>, patience: nat) returns (longer: seq<Step>)
    requires Faithful(cfg)
    requires forall i | i in Run(cfg, steps).clients :: Sendable(cfg, Run(cfg, steps), i)
    ensures Extends(cfg, steps, longer, patience)
    ensures forall i | i in Run(cfg, longer).clients :: Waits(Run(cfg, longer), i) == {}
    ensures Run(cfg, longer).rejected == {} ==> Quiet(Run(cfg, longer))
  {
    longer := DrainClients(cfg, steps, Run(cfg, steps).clients.Keys, patience);
  }
}
