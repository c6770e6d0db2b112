/** How late an answer may come. */
module Retention {
  /* An acknowledgement marks every older row of the session as well.  This is harmless as long as an
     answer comes before the row it belongs to has been removed: rows are kept for a while after they
     were acknowledged, and requests end after a timeout. */

  import opened Ledgers
  import opened Text
  import opened Outbox
  import opened Ingestion
  import opened Replication
  import F = Framing

  /* ---- Runs in time ---- */

  /** The clock of each outbox does not run backwards, and answers are dealt with no later than
      `patience` after the snapshot was last sent. */
  predicate InTime(s: State, step: Step, patience: nat) {
    match step
    case Queue(i, _, now) => i in s.clients ==> s.clients[i].clock <= now
    case Send(i, _, now) => i in s.clients ==> s.clients[i].clock <= now
    case Prune(i, now) => i in s.clients ==> s.clients[i].clock <= now
    case Deliver(m, n, now) =>
      m.installation in s.clients && n < |m.batch| ==>
        var c := s.clients[m.installation];
        c.clock <= now && m.batch[n] in c.sentAt && now <= c.sentAt[m.batch[n]] + patience
    case _ => true
  }

  predicate Timely(cfg: Config, steps: seq<Step>, patience: nat) {
    steps == []
    || (Timely(cfg, steps[..|steps| - 1], patience)
        && InTime(Run(cfg, steps[..|steps| - 1]), steps[|steps| - 1], patience))
  }

  /** What has been sent is in the outbox, or a newer snapshot is - or it was sent long ago. */
  predicate SendsOk(cfg: Config, c: Client) {
    forall y | y in c.sentAt ::
      c.sentAt[y] <= c.clock && (Holds(c.outbox, y) || c.sentAt[y] + cfg.retention < c.clock)
  }

  /** A row was acknowledged after all its snapshots were sent. */
  predicate AcknowledgedLater(c: Client) {
    forall y | y in c.sentAt && y.key in c.outbox && c.outbox[y.key].acknowledgedAt.Some? ::
      c.sentAt[y] <= c.outbox[y.key].acknowledgedAt.value
  }

  predicate RowDealt(cfg: Config, rows: Rows, rejected: Refusals, i: Installation, c: Client, k: Key)
    requires k in c.outbox
  {
    c.outbox[k].acknowledgedAt.Some? ==> ItemDealt(cfg, rows, rejected, i, c.outbox[k].snapshot)
  }

  predicate RowsDealt(cfg: Config, rows: Rows, rejected: Refusals, i: Installation, c: Client) {
    forall k | k in c.outbox :: RowDealt(cfg, rows, rejected, i, c, k)
  }

  predicate PunctualOk(cfg: Config, rows: Rows, rejected: Refusals, i: Installation, c: Client) {
    SendsOk(cfg, c) && AcknowledgedLater(c) && RowsDealt(cfg, rows, rejected, i, c)
  }

  predicate AllPunctual(cfg: Config, s: State) {
    forall i | i in s.clients :: PunctualOk(cfg, s.rows, s.rejected, i, s.clients[i])
  }

  lemma {:induction false} QueuePunctual(cfg: Config, rows: Rows, rejected: Refusals, i: Installation, c: Client,
                                         x: Snapshot, now: int)
    requires PunctualOk(cfg, rows, rejected, i, c) && c.clock <= now
    ensures PunctualOk(cfg, rows, rejected, i, QueuedClient(c, x, now))
  {
    var c' := QueuedClient(c, x, now);
    forall y | y in c'.sentAt
      ensures c'.sentAt[y] <= c'.clock && (Holds(c'.outbox, y) || c'.sentAt[y] + cfg.retention < c'.clock)
    {
      UpsertHolds(c.outbox, x, now, y);
    }
    forall k | k in c'.outbox
      ensures RowDealt(cfg, rows, rejected, i, c', k)
    {
      assert k in c.outbox ==> RowDealt(cfg, rows, rejected, i, c, k);
    }
  }

  lemma {:induction false} SendPunctual(cfg: Config, rows: Rows, rejected: Refusals, i: Installation, c: Client,
                                        batch: seq<Snapshot>, now: int)
    requires PunctualOk(cfg, rows, rejected, i, c) && c.clock <= now && Waiting(c.outbox, batch)
    ensures PunctualOk(cfg, rows, rejected, i, SentClient(c, batch, now))
  {
    var c' := SentClient(c, batch, now);
    forall y | y in batch
      ensures Holds(c.outbox, y) && c.outbox[y.key].acknowledgedAt.None?
    {
      var n :| 0 <= n < |batch| && batch[n] == y;
    }
    forall k | k in c'.outbox
      ensures RowDealt(cfg, rows, rejected, i, c', k)
    {
      assert RowDealt(cfg, rows, rejected, i, c, k);
    }
  }

  lemma {:induction false} PrunePunctual(cfg: Config, rows: Rows, rejected: Refusals, i: Installation, c: Client,
                                         now: int)
    requires PunctualOk(cfg, rows, rejected, i, c) && c.clock <= now
    ensures PunctualOk(cfg, rows, rejected, i, PrunedClient(cfg, c, now))
  {
    var c' := PrunedClient(cfg, c, now);
    forall y | y in c'.sentAt
      ensures Holds(c'.outbox, y) || c'.sentAt[y] + cfg.retention < c'.clock
    {
      if Holds(c.outbox, y) && y.key !in c'.outbox {
        assert Expired(c.outbox[y.key], now - cfg.retention);
      }
    }
    forall k | k in c'.outbox
      ensures RowDealt(cfg, rows, rejected, i, c', k)
    {
      assert RowDealt(cfg, rows, rejected, i, c, k);
    }
  }

  /** An answer in time only reaches the row of its own snapshot. */
  lemma {:induction false} OnTimeMarksOwnRow(cfg: Config, c: Client, y: Snapshot, now: int, patience: nat)
    requires SendsOk(cfg, c) && RevisionsOk(c) && OutboxOk(c) && patience <= cfg.retention
    requires y in c.queued && y in c.sentAt && c.clock <= now <= c.sentAt[y] + patience
    requires y.key in c.outbox && c.outbox[y.key].snapshot.revision <= y.revision
    ensures c.outbox[y.key].snapshot == y
  {
    assert Holds(c.outbox, y);
  }

  lemma {:induction false} MarkKeepsSends(cfg: Config, c: Client, y: Snapshot, now: int)
    requires SendsOk(cfg, c) && c.clock <= now
    ensures SendsOk(cfg, MarkedClient(c, y, now))
  {
    MarkKeepsSnapshots(c.outbox, y, now);
  }

  lemma {:induction false} MarkKeepsTimes(cfg: Config, c: Client, y: Snapshot, now: int)
    requires SendsOk(cfg, c) && AcknowledgedLater(c) && c.clock <= now
    ensures AcknowledgedLater(MarkedClient(c, y, now))
  {}

  lemma {:induction false} MarkedRowDealt(cfg: Config, rows: Rows, rejected: Refusals, i: Installation, c: Client,
                                          y: Snapshot, now: int, k: Key)
    requires k in c.outbox && RowDealt(cfg, rows, rejected, i, c, k) && ItemDealt(cfg, rows, rejected, i, y)
    requires Covers(y, c.outbox[k]) ==> c.outbox[k].snapshot == y
    requires c.outbox[k].snapshot.key == k
    ensures k in MarkedClient(c, y, now).outbox && RowDealt(cfg, rows, rejected, i, MarkedClient(c, y, now), k)
  {}

  lemma {:induction false} DeliverPunctual(cfg: Config, rows: Rows, rejected: Refusals, i: Installation, c: Client,
                                           y: Snapshot, now: int, patience: nat)
    requires PunctualOk(cfg, rows, rejected, i, c) && RevisionsOk(c) && OutboxOk(c) && patience <= cfg.retention
    requires y in c.queued && ItemDealt(cfg, rows, rejected, i, y)
    requires y in c.sentAt && c.clock <= now <= c.sentAt[y] + patience
    ensures PunctualOk(cfg, rows, rejected, i, MarkedClient(c, y, now))
  {
    MarkKeepsSends(cfg, c, y, now);
    MarkKeepsTimes(cfg, c, y, now);
    MarkKeepsSnapshots(c.outbox, y, now);
    forall k | k in MarkedClient(c, y, now).outbox
      ensures RowDealt(cfg, rows, rejected, i, MarkedClient(c, y, now), k)
    {
      if Covers(y, c.outbox[k]) {
        OnTimeMarksOwnRow(cfg, c, y, now, patience);
      }
      MarkedRowDealt(cfg, rows, rejected, i, c, y, now, k);
    }
  }

  lemma {:induction false} ServerPunctual(cfg: Config, s: State, s': State)
    requires AllPunctual(cfg, s) && s'.clients == s.clients && RowsGrow(s.rows, s'.rows) && s.rejected <= s'.rejected
    ensures AllPunctual(cfg, s')
  {
    forall i | i in s'.clients
      ensures PunctualOk(cfg, s'.rows, s'.rejected, i, s'.clients[i])
    {
      var c := s.clients[i];
      assert PunctualOk(cfg, s.rows, s.rejected, i, c);
      forall k | k in c.outbox
        ensures RowDealt(cfg, s'.rows, s'.rejected, i, c, k)
      {
        assert RowDealt(cfg, s.rows, s.rejected, i, c, k);
        SettledStays(cfg, s.rows, s.rejected, s'.rows, s'.rejected, i, c.outbox[k].snapshot);
      }
    }
  }

  lemma {:induction false} ClientPunctual(cfg: Config, s: State, i: Installation, c: Client)
    requires AllPunctual(cfg, s) && PunctualOk(cfg, s.rows, s.rejected, i, c)
    ensures AllPunctual(cfg, UpdateClient(s, i, c))
  {}

  lemma {:induction false} DeliveryPunctual(cfg: Config, s: State, m: Message, n: nat, now: int, patience: nat)
    requires Inv(cfg, s) && AllPunctual(cfg, s) && patience <= cfg.retention
    requires Enabled(cfg, s, Deliver(m, n, now)) && InTime(s, Deliver(m, n, now), patience)
    ensures AllPunctual(cfg, Apply(cfg, s, Deliver(m, n, now)))
  {
    var i := m.installation;
    var c := s.clients[i];
    assert ClientOk(cfg, s.rows, s.rejected, i, c);
    assert BatchOk(cfg, s, m) && Dealt(cfg, s.rows, s.rejected, m);
    assert ItemDealt(cfg, s.rows, s.rejected, i, m.batch[n]);
    DeliverPunctual(cfg, s.rows, s.rejected, i, c, m.batch[n], now, patience);
    ClientPunctual(cfg, s, i, MarkedClient(c, m.batch[n], now));
  }

  lemma {:induction false} RowsOnlyGrow(cfg: Config, s: State, step: Step)
    requires Enabled(cfg, s, step) && (step.Leak? || step.Write?)
    ensures RowsGrow(s.rows, Apply(cfg, s, step).rows)
  {
    match step
    case Leak(m, n) =>
      MergeOne(s.rows, Delivery(cfg.owner(m.installation), m.batch[n]));
      MergeAllGrows(s.rows, [Delivery(cfg.owner(m.installation), m.batch[n])]);
    case Write(m) => MergeAllGrows(s.rows, From(cfg.owner(m.installation), Passing(m.batch, cfg.valid, true)));
  }

  lemma {:induction false} ClientStepPunctual(cfg: Config, s: State, step: Step, patience: nat)
    requires AllPunctual(cfg, s) && Enabled(cfg, s, step) && InTime(s, step, patience)
    requires step.Allot? || step.Queue? || step.Prune? || step.Send?
    ensures AllPunctual(cfg, Apply(cfg, s, step))
  {
    var c := s.clients[step.i];
    match step
    case Allot(i, observed) => ClientPunctual(cfg, s, i, Apply(cfg, s, step).clients[i]);
    case Queue(i, x, now) =>
      QueuePunctual(cfg, s.rows, s.rejected, i, c, x, now);
      ClientPunctual(cfg, s, i, QueuedClient(c, x, now));
    case Prune(i, now) =>
      PrunePunctual(cfg, s.rows, s.rejected, i, c, now);
      ClientPunctual(cfg, s, i, PrunedClient(cfg, c, now));
    case Send(i, batch, now) =>
      SendPunctual(cfg, s.rows, s.rejected, i, c, batch, now);
      ClientPunctual(cfg, s, i, SentClient(c, batch, now));
  }

  lemma {:induction false} ServerStepPunctual(cfg: Config, s: State, step: Step)
    requires AllPunctual(cfg, s) && Enabled(cfg, s, step)
    requires step.Leak? || step.Write? || step.Record? || step.Reply?
    ensures AllPunctual(cfg, Apply(cfg, s, step))
  {
    if step.Leak? || step.Write? {
      RowsOnlyGrow(cfg, s, step);
    }
    ServerPunctual(cfg, s, Apply(cfg, s, step));
  }

  lemma {:induction false} StepPunctual(cfg: Config, s: State, step: Step, patience: nat)
    requires Inv(cfg, s) && AllPunctual(cfg, s) && patience <= cfg.retention && InTime(s, step, patience)
    ensures AllPunctual(cfg, Apply(cfg, s, step))
  {
    if Enabled(cfg, s, step) {
      if step.Deliver? {
        DeliveryPunctual(cfg, s, step.m, step.n, step.now, patience);
      } else if step.Allot? || step.Queue? || step.Prune? || step.Send? {
        ClientStepPunctual(cfg, s, step, patience);
      } else {
        ServerStepPunctual(cfg, s, step);
      }
    }
  }

  lemma {:induction false} TimelyKeepsPunctual(cfg: Config, steps: seq<Step>, patience: nat)
    requires Faithful(cfg) && patience <= cfg.retention && Timely(cfg, steps, patience)
    ensures AllPunctual(cfg, Run(cfg, steps))
  {
    if steps != [] {
      var front := steps[..|steps| - 1];
      TimelyKeepsPunctual(cfg, front, patience);
      RunKeepsInv(cfg, front);
      StepPunctual(cfg, Run(cfg, front), steps[|steps| - 1], patience);
    }
  }

  /** As long as every answer is dealt with before acknowledged rows are removed, an acknowledged row
      is always safe: the server has this snapshot or a newer one if it is valid, and has refused this
      very snapshot if it is not. */
  lemma {:induction false} TimelyIsSafe(cfg: Config, steps: seq<Step>, patience: nat, i: Installation, k: Key)
    requires Faithful(cfg) && patience <= cfg.retention && Timely(cfg, steps, patience)
    requires Acknowledged(Run(cfg, steps), i, k)
    ensures var s := Run(cfg, steps);
            ItemDealt(cfg, s.rows, s.rejected, i, s.clients[i].outbox[k].snapshot)
  {
    var s := Run(cfg, steps);
    TimelyKeepsPunctual(cfg, steps, patience);
    assert PunctualOk(cfg, s.rows, s.rejected, i, s.clients[i]);
    assert RowDealt(cfg, s.rows, s.rejected, i, s.clients[i], k);
  }

  /* ---- What a late answer can do ---- */

  /** The row is acknowledged, but the server neither has the snapshot (or a newer one) nor refused it. */
  predicate Hidden(cfg: Config, s: State, i: Installation, x: Snapshot) {
    && Acknowledged(s, i, x.key) && s.clients[i].outbox[x.key].snapshot == x
    && !Stored(cfg, s.rows, i, x) && (i, x) !in s.rejected
  }

  /** A newer snapshot of the same session that the server refuses when it is sent */
  predicate Outranks(cfg: Config, x: Snapshot, y: Snapshot) {
    && y.key == x.key && 0 < x.revision < y.revision <= I64_MAX
    && !cfg.valid(y) && |cfg.encode(y)| <= U64_MAX
  }

  lemma {:induction false} RunSnoc(cfg: Config, steps: seq<Step>, step: Step, patience: nat)
    ensures Run(cfg, steps + [step]) == Apply(cfg, Run(cfg, steps), step)
    ensures Timely(cfg, steps + [step], patience)
       <==> Timely(cfg, steps, patience) && InTime(Run(cfg, steps), step, patience)
  {
    assert (steps + [step])[..|steps|] == steps;
  }

  lemma {:induction false} RefusedAlone(cfg: Config, i: Installation, y: Snapshot)
    requires !cfg.valid(y)
    ensures Store(map[], cfg.owner(i), [y], cfg.valid) == map[]
    ensures InvalidOf(cfg, Message(i, [y])) == {(i, y)} && !AllValid(cfg, [y])
  {
    assert [y][..0] == [];
    assert Passing([y], cfg.valid, true) == [];
    assert [y][0] == y;
  }

  lemma {:induction false} Allotted(cfg: Config, i: Installation, x: Snapshot, y: Snapshot, patience: nat)
    returns (steps: seq<Step>)
    requires i in cfg.installations && Outranks(cfg, x, y)
    ensures Timely(cfg, steps, patience)
    ensures Run(cfg, steps) == Init(cfg).(clients := Run(cfg, steps).clients)
    ensures i in Run(cfg, steps).clients
    ensures Run(cfg, steps).clients[i] == Client(map[], y.revision, {x.revision, y.revision}, {}, {}, map[], 0)
  {
    var s0 := [];
    var s1 := s0 + [Allot(i, x.revision)];
    RunSnoc(cfg, s0, Allot(i, x.revision), patience);
    steps := s1 + [Allot(i, y.revision)];
    RunSnoc(cfg, s1, Allot(i, y.revision), patience);
    assert {} + {x.revision} + {y.revision} == {x.revision, y.revision};
  }

  /** `y` was queued, sent twice, refused and answered, all at once. */
  predicate Refused(s: State, i: Installation, x: Snapshot, y: Snapshot) {
    && i in s.clients && s.clients[i].outbox == map[y.key := Row(y, None, 0)] && x.revision in s.clients[i].drafts
    && s.clients[i].sentAt == map[y := 0] && s.clients[i].clock == 0
    && Message(i, [y]) in s.answered && s.rows == map[] && s.rejected == {(i, y)}
  }

  /** `y` was queued and sent twice. */
  predicate Sent(cfg: Config, s: State, i: Installation, x: Snapshot, y: Snapshot) {
    && i in s.clients && s.clients[i].outbox == map[y.key := Row(y, None, 0)] && x.revision in s.clients[i].drafts
    && s.clients[i].sentAt == map[y := 0] && s.clients[i].clock == 0
    && Message(i, [y]) in s.sent && s.rows == map[] && s.rejected == {}
  }

  lemma {:induction false} ReachSent(cfg: Config, i: Installation, x: Snapshot, y: Snapshot, patience: nat)
    returns (steps: seq<Step>)
    requires i in cfg.installations && Outranks(cfg, x, y)
    ensures Timely(cfg, steps, patience) && Sent(cfg, Run(cfg, steps), i, x, y)
  {
    var s1 := Allotted(cfg, i, x, y, patience);
    var s2 := s1 + [Queue(i, y, 0)];
    RunSnoc(cfg, s1, Queue(i, y, 0), patience);
    var s3 := s2 + [Send(i, [y], 0)];
    RunSnoc(cfg, s2, Send(i, [y], 0), patience);
    steps := s3 + [Send(i, [y], 0)];
    RunSnoc(cfg, s3, Send(i, [y], 0), patience);
  }

  lemma {:induction false} ReachRefused(cfg: Config, i: Installation, x: Snapshot, y: Snapshot, patience: nat)
    returns (steps: seq<Step>)
    requires i in cfg.installations && Outranks(cfg, x, y)
    ensures Timely(cfg, steps, patience) && Refused(Run(cfg, steps), i, x, y)
  {
    var m := Message(i, [y]);
    RefusedAlone(cfg, i, y);
    var s1 := ReachSent(cfg, i, x, y, patience);
    var s2 := s1 + [Write(m)];
    RunSnoc(cfg, s1, Write(m), patience);
    steps := s2 + [Reply(m)];
    RunSnoc(cfg, s2, Reply(m), patience);
  }

  /** The state before the late answer: `y` was refused, confirmed and pruned, and `x`, allotted
      before `y`, was queued after it. */
  predicate Superseded(s: State, i: Installation, x: Snapshot, y: Snapshot, now: int) {
    && i in s.clients && x.key in s.clients[i].outbox && s.clients[i].outbox[x.key].snapshot == x
    && s.clients[i].sentAt == map[y := 0] && s.clients[i].clock == now
    && Message(i, [y]) in s.answered && s.rows == map[] && s.rejected == {(i, y)}
  }

  lemma {:induction false} ReachSuperseded(cfg: Config, i: Installation, x: Snapshot, y: Snapshot, patience: nat)
    returns (steps: seq<Step>)
    requires i in cfg.installations && Outranks(cfg, x, y)
    ensures Timely(cfg, steps, patience) && Superseded(Run(cfg, steps), i, x, y, cfg.retention + 1)
  {
    var m, later := Message(i, [y]), cfg.retention + 1;
    var s1 := ReachRefused(cfg, i, x, y, patience);
    var s2 := s1 + [Deliver(m, 0, 0)];
    RunSnoc(cfg, s1, Deliver(m, 0, 0), patience);
    var s3 := s2 + [Prune(i, later)];
    RunSnoc(cfg, s2, Prune(i, later), patience);
    assert y.key !in Run(cfg, s3).clients[i].outbox;
    steps := s3 + [Queue(i, x, later)];
    RunSnoc(cfg, s3, Queue(i, x, later), patience);
  }

  /** An answer that is dealt with after the rows it belongs to were removed can acknowledge a snapshot
      that the server has never seen, if that was queued behind a newer, refused one. */
  lemma {:induction false} LateAnswerMayHide(cfg: Config, i: Installation, x: Snapshot, y: Snapshot, patience: nat)
    returns (steps: seq<Step>)
    requires i in cfg.installations && Outranks(cfg, x, y) && cfg.retention < patience
    ensures Timely(cfg, steps, patience) && Hidden(cfg, Run(cfg, steps), i, x)
  {
    var before := ReachSuperseded(cfg, i, x, y, patience);
    var late := Deliver(Message(i, [y]), 0, cfg.retention + 1);
    steps := before + [late];
    RunSnoc(cfg, before, late, patience);
  }

  lemma {:induction false} HiddenIsOutranked(cfg: Config, steps: seq<Step>, i: Installation, x: Snapshot)
    requires Faithful(cfg) && Hidden(cfg, Run(cfg, steps), i, x)
    ensures exists y :: Outranks(cfg, x, y)
  {
    var s := Run(cfg, steps);
    var c := s.clients[i];
    RunKeepsInv(cfg, steps);
    AcknowledgedIsSafe(cfg, steps, i, x.key);
    assert ClientOk(cfg, s.rows, s.rejected, i, c);
    var y :| y in c.queued && y.key == x.key && x.revision < y.revision && (i, y) in s.rejected;
    assert RefusedOk(cfg, s, (i, y));
    assert Outranks(cfg, x, y);
  }

  /** A snapshot can be acknowledged without ever having been decided on by the server if and only if
      answers may be dealt with later than acknowledged rows are kept, and a newer snapshot of its
      session can be refused. */
  lemma {:induction false} OnlyLateAnswersHide(cfg: Config, i: Installation, x: Snapshot, patience: nat)
    requires Faithful(cfg) && i in cfg.installations
    ensures (exists steps :: HiddenBy(cfg, steps, patience, i, x))
       <==> cfg.retention < patience && exists y :: Outranks(cfg, x, y)
  {
    if steps :| HiddenBy(cfg, steps, patience, i, x) {
      HiddenIsOutranked(cfg, steps, i, x);
      if patience <= cfg.retention {
        TimelyIsSafe(cfg, steps, patience, i, x.key);
      }
    }
    if cfg.retention < patience && exists y :: Outranks(cfg, x, y) {
      var y :| Outranks(cfg, x, y);
      var late := LateAnswerMayHide(cfg, i, x, y, patience);
      assert HiddenBy(cfg, late, patience, i, x);
    }
  }

  predicate HiddenBy(cfg: Config, steps: seq<Step>, patience: nat, i: Installation, x: Snapshot) {
    Timely(cfg, steps, patience) && Hidden(cfg, Run(cfg, steps), i, x)
  }

  /* ---- A faithful encoding ---- */

  /* JSON is not modelled.  That encodings can be faithful is shown by one that is. */

  function Unary(n: nat): F.Bytes {
    if n == 0 then [0] else [1] + Unary(n - 1)
  }

  function Characters(s: seq<char>): F.Bytes {
    if s == [] then [] else Unary(s[0] as int) + Characters(s[1..])
  }

  function Spelled(s: Snapshot): F.Bytes {
    Unary(s.key) + (Unary(s.revision) + Characters(s.body))
  }

  lemma {:induction false} UnaryInjective(a: nat, b: nat, rest: F.Bytes, rest': F.Bytes)
    requires Unary(a) + rest == Unary(b) + rest'
    ensures a == b && rest == rest'
  {
    var x, y := Unary(a) + rest, Unary(b) + rest';
    if a == 0 || b == 0 {
      assert x[0] == y[0];
      assert rest == x[1..] && rest' == y[1..];
    } else {
      assert x[1..] == Unary(a - 1) + rest;
      assert y[1..] == Unary(b - 1) + rest';
      UnaryInjective(a - 1, b - 1, rest, rest');
    }
  }

  lemma {:induction false} CharactersInjective(s: seq<char>, t: seq<char>)
    requires Characters(s) == Characters(t)
    ensures s == t
  {
    if s != [] && t != [] {
      UnaryInjective(s[0] as int, t[0] as int, Characters(s[1..]), Characters(t[1..]));
      CharactersInjective(s[1..], t[1..]);
    } else {
      UnaryStarts(s);
      UnaryStarts(t);
    }
  }

  lemma {:induction false} UnaryStarts(s: seq<char>)
    ensures s == [] <==> Characters(s) == []
  {
    if s != [] {
      assert Unary(s[0] as int) != [];
    }
  }

  lemma {:induction false} FaithfulEncodingExists(installations: set<Installation>, owner: Installation -> Owner,
                                                  valid: Snapshot -> bool, retention: nat)
    ensures Faithful(Config(installations, owner, valid, Spelled, retention))
  {
    forall s, t | Spelled(s) == Spelled(t)
      ensures s == t
    {
      UnaryInjective(s.key, t.key, Unary(s.revision) + Characters(s.body), Unary(t.revision) + Characters(t.body));
      UnaryInjective(s.revision, t.revision, Characters(s.body), Characters(t.body));
      CharactersInjective(s.body, t.body);
    }
  }
}
