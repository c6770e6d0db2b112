/** Scans, uploads, answers and retries, in any order. */
module Replication {
  /* A run is any sequence of steps of any number of installations and one server; a step that is not
     enabled changes nothing.  Requests and answers are never taken out of `sent` and `answered`: they
     may arrive late, repeatedly or never.  `queued`, `pruned`, `sentAt`, `clock`, `accepted` and
     `rejected` only record what has happened. */

  import opened Ledgers
  import opened Outbox
  import opened Ingestion
  import F = Framing

  datatype Client = Client(
    outbox: Table,
    counter: u64,
    drafts: set<u64>,
    queued: set<Snapshot>,
    pruned: set<Key>,
    sentAt: map<Snapshot, int>,  // when a request with the snapshot was last sent
    clock: int)                  // when the outbox was last used

  datatype Message = Message(installation: Installation, batch: seq<Snapshot>)

  datatype State = State(
    clients: map<Installation, Client>,
    sent: set<Message>,
    rows: Rows,
    written: set<Message>,
    completed: set<(Installation, F.Bytes)>,
    answered: set<Message>,
    accepted: set<(Installation, Snapshot)>,
    rejected: set<(Installation, Snapshot)>)

  datatype Config = Config(
    installations: set<Installation>,
    owner: Installation -> Owner,
    valid: Snapshot -> bool,
    encode: Snapshot -> F.Bytes,
    retention: nat)  // for how long acknowledged rows are kept

  datatype Step =
    | Allot(i: Installation, observed: u64)            // next_revision
    | Queue(i: Installation, snapshot: Snapshot, now: int)  // queue_snapshot with an allotted revision
    | Send(i: Installation, batch: seq<Snapshot>, now: int)  // pending_batch and the request
    | Leak(m: Message, n: nat)                         // a row of an upload that is aborted later
    | Write(m: Message)                                // all rows of an upload
    | Record(m: Message)                               // the entry in ingest_batches
    | Reply(m: Message)                                // the server's answer
    | Deliver(m: Message, n: nat, now: int)            // one row of the answer reaches the outbox
    | Prune(i: Installation, now: int)                 // prune_expired_rows

  function Encoded(cfg: Config, batch: seq<Snapshot>): (r: seq<F.Bytes>)
    ensures |r| == |batch|
    ensures forall n | 0 <= n < |batch| :: r[n] == cfg.encode(batch[n])
  {
    seq(|batch|, n requires 0 <= n < |batch| => cfg.encode(batch[n]))
  }

  function BatchId(cfg: Config, m: Message): (Installation, F.Bytes) {
    (m.installation, F.BatchBytes(Encoded(cfg, m.batch)))
  }

  /** The JSON encoding of a snapshot determines it. */
  ghost predicate Faithful(cfg: Config) {
    forall s, t | cfg.encode(s) == cfg.encode(t) :: s == t
  }

  function Init(cfg: Config): State {
    State(map i | i in cfg.installations :: Client(map[], 0, {}, {}, {}, map[], 0), {}, map[], {}, {}, {}, {}, {})
  }

  predicate AllValid(cfg: Config, batch: seq<Snapshot>) {
    forall n | 0 <= n < |batch| :: cfg.valid(batch[n])
  }

  predicate Enabled(cfg: Config, s: State, step: Step) {
    match step
    case Allot(i, _) => i in s.clients
    case Queue(i, snapshot, _) =>
      i in s.clients && snapshot.revision in s.clients[i].drafts && snapshot.revision <= I64_MAX
    case Send(i, batch, _) =>
      i in s.clients && Waiting(s.clients[i].outbox, batch) && F.Short(Encoded(cfg, batch))
    case Leak(m, n) => m in s.sent && n < |m.batch| && cfg.valid(m.batch[n])
    case Write(m) => m in s.sent
    case Record(m) => m in s.written && AllValid(cfg, m.batch)
    case Reply(m) =>
      m in s.sent && (BatchId(cfg, m) in s.completed || (m in s.written && !AllValid(cfg, m.batch)))
    case Deliver(m, n, _) => m in s.answered && n < |m.batch| && m.installation in s.clients
    case Prune(i, _) => i in s.clients
  }

  function InvalidOf(cfg: Config, m: Message): set<(Installation, Snapshot)> {
    set n | 0 <= n < |m.batch| && !cfg.valid(m.batch[n]) :: (m.installation, m.batch[n])
  }

  function ValidOf(cfg: Config, m: Message): set<(Installation, Snapshot)> {
    set n | 0 <= n < |m.batch| && cfg.valid(m.batch[n]) :: (m.installation, m.batch[n])
  }

  function UpdateClient(s: State, i: Installation, c: Client): State {
    s.(clients := s.clients[i := c])
  }

  function QueuedClient(c: Client, s: Snapshot, now: int): Client {
    c.(outbox := Upsert(c.outbox, s, now), drafts := c.drafts - {s.revision}, queued := c.queued + {s}, clock := now)
  }

  function SentClient(c: Client, batch: seq<Snapshot>, now: int): Client {
    c.(sentAt := c.sentAt + map x | x in batch :: now, clock := now)
  }

  function MarkedClient(c: Client, x: Snapshot, now: int): Client {
    c.(outbox := Mark(c.outbox, x, now), clock := now)
  }

  function PrunedClient(cfg: Config, c: Client, now: int): Client {
    var rows := Pruned(c.outbox, now - cfg.retention);
    c.(outbox := rows, pruned := c.pruned + (c.outbox.Keys - rows.Keys), clock := now)
  }

  function Apply(cfg: Config, s: State, step: Step): State {
    if !Enabled(cfg, s, step) then s
    else
      match step
      case Allot(i, observed) =>
        var c := s.clients[i];
        var revision := RevisionAfter(c.counter, observed);
        UpdateClient(s, i, c.(counter := revision, drafts := c.drafts + {revision}))
      case Queue(i, snapshot, now) =>
        UpdateClient(s, i, QueuedClient(s.clients[i], snapshot, now))
      case Send(i, batch, now) =>
        UpdateClient(s, i, SentClient(s.clients[i], batch, now)).(sent := s.sent + {Message(i, batch)})
      case Leak(m, n) =>
        s.(rows := Merge(s.rows, cfg.owner(m.installation), m.batch[n]),
           accepted := s.accepted + {(m.installation, m.batch[n])})
      case Write(m) =>
        s.(rows := Store(s.rows, cfg.owner(m.installation), m.batch, cfg.valid),
           accepted := s.accepted + ValidOf(cfg, m), rejected := s.rejected + InvalidOf(cfg, m),
           written := s.written + {m})
      case Record(m) => s.(completed := s.completed + {BatchId(cfg, m)})
      case Reply(m) => s.(answered := s.answered + {m})
      case Deliver(m, n, now) =>
        UpdateClient(s, m.installation, MarkedClient(s.clients[m.installation], m.batch[n], now))
      case Prune(i, now) => UpdateClient(s, i, PrunedClient(cfg, s.clients[i], now))
  }

  function Run(cfg: Config, steps: seq<Step>): State {
    if steps == [] then Init(cfg) else Apply(cfg, Run(cfg, steps[..|steps| - 1]), steps[|steps| - 1])
  }

  /* ---- What every run keeps ---- */

  predicate OnServer(rows: Rows, k: RowKey, revision: nat) {
    k in rows && revision <= rows[k].revision
  }

  predicate Stored(cfg: Config, rows: Rows, i: Installation, x: Snapshot) {
    OnServer(rows, (cfg.owner(i), x.key), x.revision)
  }

  type Refusals = set<(Installation, Snapshot)>

  /** The server has the snapshot or a newer one, or it has refused it or a newer one. */
  predicate Settled(cfg: Config, rows: Rows, rejected: Refusals, i: Installation, x: Snapshot) {
    || Stored(cfg, rows, i, x)
    || exists r | r in rejected :: r.0 == i && r.1.key == x.key && x.revision <= r.1.revision
  }

  predicate Holds(outbox: Table, x: Snapshot) {
    x.key in outbox && x.revision <= outbox[x.key].snapshot.revision
  }

  /** Revisions: each is queued once. */
  predicate RevisionsOk(c: Client) {
    && (forall x | x in c.queued :: 0 < x.revision <= c.counter && x.revision <= I64_MAX && x.revision !in c.drafts)
    && (forall x, y | x in c.queued && y in c.queued && x.revision == y.revision :: x == y)
    && (forall d | d in c.drafts :: 0 < d <= c.counter)
  }

  /** The outbox only holds queued snapshots and has not lost any session it did not prune. */
  predicate OutboxOk(c: Client) {
    && Filed(c.outbox)
    && (forall k | k in c.outbox :: c.outbox[k].snapshot in c.queued)
    && (forall x | x in c.queued && x.key !in c.pruned :: Holds(c.outbox, x))
  }

  /** Nothing queued is forgotten before it is settled. */
  predicate NothingLost(cfg: Config, rows: Rows, rejected: Refusals, i: Installation, c: Client) {
    forall x | x in c.queued :: Holds(c.outbox, x) || Settled(cfg, rows, rejected, i, x)
  }

  predicate ItemDealt(cfg: Config, rows: Rows, rejected: Refusals, i: Installation, x: Snapshot) {
    if cfg.valid(x) then Stored(cfg, rows, i, x) else (i, x) in rejected
  }

  /** The server has decided on this snapshot of the session or on a newer one. */
  predicate Cleared(cfg: Config, rows: Rows, rejected: Refusals, i: Installation, c: Client, x: Snapshot) {
    exists y | y in c.queued :: y.key == x.key && x.revision <= y.revision && ItemDealt(cfg, rows, rejected, i, y)
  }

  predicate RowOk(cfg: Config, rows: Rows, rejected: Refusals, i: Installation, c: Client, k: Key)
    requires k in c.outbox
  {
    c.outbox[k].acknowledgedAt.Some? ==> Cleared(cfg, rows, rejected, i, c, c.outbox[k].snapshot)
  }

  predicate ClientOk(cfg: Config, rows: Rows, rejected: Refusals, i: Installation, c: Client) {
    && RevisionsOk(c)
    && OutboxOk(c)
    && NothingLost(cfg, rows, rejected, i, c)
    && (forall k | k in c.outbox :: RowOk(cfg, rows, rejected, i, c, k))
  }

  predicate ClientsOk(cfg: Config, s: State) {
    forall i | i in s.clients :: ClientOk(cfg, s.rows, s.rejected, i, s.clients[i])
  }

  /** A batch only holds what its installation queued. */
  predicate BatchOk(cfg: Config, s: State, m: Message) {
    && m.installation in s.clients && F.Short(Encoded(cfg, m.batch))
    && forall n | 0 <= n < |m.batch| :: m.batch[n] in s.clients[m.installation].queued
  }

  /** Every snapshot of the batch is on the server, or refused if invalid. */
  predicate Dealt(cfg: Config, rows: Rows, rejected: Refusals, m: Message) {
    forall n | 0 <= n < |m.batch| :: ItemDealt(cfg, rows, rejected, m.installation, m.batch[n])
  }

  ghost predicate WasRecorded(cfg: Config, s: State, id: (Installation, F.Bytes)) {
    exists m :: m in s.written && BatchId(cfg, m) == id && AllValid(cfg, m.batch)
  }

  ghost predicate MessagesOk(cfg: Config, s: State) {
    && (forall m | m in s.sent :: BatchOk(cfg, s, m))
    && s.written <= s.sent && s.answered <= s.sent
    && (forall m | m in s.written :: Dealt(cfg, s.rows, s.rejected, m))
    && (forall id | id in s.completed :: WasRecorded(cfg, s, id))
    && (forall m | m in s.answered :: Dealt(cfg, s.rows, s.rejected, m))
  }

  /** The row was accepted from an installation of its owner. */
  ghost predicate RowKnown(cfg: Config, s: State, k: RowKey)
    requires k in s.rows
  {
    s.rows[k].key == k.1 && exists i :: (i, s.rows[k]) in s.accepted && cfg.owner(i) == k.0
  }

  predicate AcceptedOk(cfg: Config, s: State, a: (Installation, Snapshot)) {
    Stored(cfg, s.rows, a.0, a.1) && a.0 in s.clients && a.1 in s.clients[a.0].queued
  }

  /** What is refused is invalid, was queued, and its encoding fits into a frame. */
  predicate RefusedOk(cfg: Config, s: State, a: (Installation, Snapshot)) {
    && !cfg.valid(a.1) && |cfg.encode(a.1)| <= U64_MAX
    && a.0 in s.clients && a.1 in s.clients[a.0].queued
  }

  /** The table holds, per session, an accepted snapshot of the highest accepted revision. */
  ghost predicate ServerOk(cfg: Config, s: State) {
    && (forall k | k in s.rows :: RowKnown(cfg, s, k))
    && (forall a | a in s.accepted :: AcceptedOk(cfg, s, a))
    && (forall a | a in s.rejected :: RefusedOk(cfg, s, a))
  }

  ghost predicate Inv(cfg: Config, s: State) {
    ClientsOk(cfg, s) && MessagesOk(cfg, s) && ServerOk(cfg, s)
  }

  /* ---- Steps of a client ---- */

  lemma {:induction false} AllotKeeps(cfg: Config, rows: Rows, rejected: Refusals, i: Installation, c: Client,
                                      observed: u64)
    requires ClientOk(cfg, rows, rejected, i, c)
    ensures var revision := RevisionAfter(c.counter, observed);
            ClientOk(cfg, rows, rejected, i, c.(counter := revision, drafts := c.drafts + {revision}))
  {
    var revision := RevisionAfter(c.counter, observed);
    var c' := c.(counter := revision, drafts := c.drafts + {revision});
    RevisionsRise(c.counter, observed);
    assert RevisionsOk(c');
    assert NothingLost(cfg, rows, rejected, i, c');
    forall k | k in c'.outbox
      ensures RowOk(cfg, rows, rejected, i, c', k)
    {
      assert RowOk(cfg, rows, rejected, i, c, k);
    }
  }

  lemma {:induction false} UpsertHolds(outbox: Table, s: Snapshot, now: int, x: Snapshot)
    ensures Holds(Upsert(outbox, s, now), s)
    ensures Holds(outbox, x) ==> Holds(Upsert(outbox, s, now), x)
  {}

  lemma {:induction false} QueueRevisions(c: Client, s: Snapshot, now: int)
    requires RevisionsOk(c) && s.revision in c.drafts && s.revision <= I64_MAX
    ensures RevisionsOk(QueuedClient(c, s, now))
  {}

  lemma {:induction false} QueueOutbox(c: Client, s: Snapshot, now: int)
    requires OutboxOk(c)
    ensures OutboxOk(QueuedClient(c, s, now))
  {
    var c' := QueuedClient(c, s, now);
    forall x | x in c'.queued && x.key !in c'.pruned
      ensures Holds(c'.outbox, x)
    {
      UpsertHolds(c.outbox, s, now, x);
    }
  }

  lemma {:induction false} QueueLosesNothing(cfg: Config, rows: Rows, rejected: Refusals, i: Installation, c: Client,
                                             s: Snapshot, now: int)
    requires NothingLost(cfg, rows, rejected, i, c)
    ensures NothingLost(cfg, rows, rejected, i, QueuedClient(c, s, now))
  {
    forall x | x in QueuedClient(c, s, now).queued
      ensures Holds(QueuedClient(c, s, now).outbox, x) || Settled(cfg, rows, rejected, i, x)
    {
      UpsertHolds(c.outbox, s, now, x);
    }
  }

  lemma {:induction false} QueueRows(cfg: Config, rows: Rows, rejected: Refusals, i: Installation, c: Client,
                                     s: Snapshot, now: int, k: Key)
    requires k in QueuedClient(c, s, now).outbox
    requires k in c.outbox ==> RowOk(cfg, rows, rejected, i, c, k)
    ensures RowOk(cfg, rows, rejected, i, QueuedClient(c, s, now), k)
  {
    var c' := QueuedClient(c, s, now);
    if c'.outbox[k].acknowledgedAt.Some? {
      ClearedGrows(cfg, rows, rejected, i, c, c', c.outbox[k].snapshot);
    }
  }

  lemma {:induction false} QueueKeeps(cfg: Config, rows: Rows, rejected: Refusals, i: Installation, c: Client,
                                      s: Snapshot, now: int)
    requires ClientOk(cfg, rows, rejected, i, c)
    requires s.revision in c.drafts && s.revision <= I64_MAX
    ensures ClientOk(cfg, rows, rejected, i, QueuedClient(c, s, now))
  {
    var c' := QueuedClient(c, s, now);
    QueueRevisions(c, s, now);
    QueueOutbox(c, s, now);
    QueueLosesNothing(cfg, rows, rejected, i, c, s, now);
    forall k | k in c'.outbox
      ensures RowOk(cfg, rows, rejected, i, c', k)
    {
      QueueRows(cfg, rows, rejected, i, c, s, now, k);
    }
  }

  lemma {:induction false} ClearedGrows(cfg: Config, rows: Rows, rejected: Refusals, i: Installation, c: Client,
                                        c': Client, x: Snapshot)
    requires Cleared(cfg, rows, rejected, i, c, x) && c.queued <= c'.queued
    ensures Cleared(cfg, rows, rejected, i, c', x)
  {}

  lemma {:induction false} MarkKeepsSnapshots(outbox: Table, x: Snapshot, now: int)
    ensures Mark(outbox, x, now).Keys == outbox.Keys
    ensures forall k | k in outbox :: Mark(outbox, x, now)[k].snapshot == outbox[k].snapshot
    ensures forall y :: Holds(Mark(outbox, x, now), y) == Holds(outbox, y)
  {}

  lemma {:induction false} DeliverKeeps(cfg: Config, rows: Rows, rejected: Refusals, i: Installation, c: Client,
                                        x: Snapshot, now: int)
    requires ClientOk(cfg, rows, rejected, i, c)
    requires x in c.queued && ItemDealt(cfg, rows, rejected, i, x)
    ensures ClientOk(cfg, rows, rejected, i, MarkedClient(c, x, now))
  {
    var c' := MarkedClient(c, x, now);
    MarkKeepsSnapshots(c.outbox, x, now);
    forall k | k in c'.outbox
      ensures RowOk(cfg, rows, rejected, i, c', k)
    {
      assert RowOk(cfg, rows, rejected, i, c, k);
      assert c'.outbox[k].snapshot == c.outbox[k].snapshot;
    }
  }

  /** What the server has decided on a newer snapshot settles an older one. */
  lemma {:induction false} ClearedIsSettled(cfg: Config, rows: Rows, rejected: Refusals, i: Installation, c: Client,
                                            x: Snapshot)
    requires Cleared(cfg, rows, rejected, i, c, x)
    ensures Settled(cfg, rows, rejected, i, x)
  {
    var y :| y in c.queued && y.key == x.key && x.revision <= y.revision && ItemDealt(cfg, rows, rejected, i, y);
    if !cfg.valid(y) {
      assert (i, y) in rejected;
    }
  }

  lemma {:induction false} PruneKeeps(cfg: Config, rows: Rows, rejected: Refusals, i: Installation, c: Client, now: int)
    requires ClientOk(cfg, rows, rejected, i, c)
    ensures ClientOk(cfg, rows, rejected, i, PrunedClient(cfg, c, now))
  {
    var c' := PrunedClient(cfg, c, now);
    forall x | x in c'.queued
      ensures x.key !in c'.pruned ==> Holds(c'.outbox, x)
      ensures Holds(c'.outbox, x) || Settled(cfg, rows, rejected, i, x)
    {
      if Holds(c.outbox, x) && x.key !in c'.outbox {
        assert RowOk(cfg, rows, rejected, i, c, x.key);
        ClearedIsSettled(cfg, rows, rejected, i, c, c.outbox[x.key].snapshot);
        SettledBelow(cfg, rows, rejected, i, c.outbox[x.key].snapshot, x);
      }
    }
    forall k | k in c'.outbox
      ensures RowOk(cfg, rows, rejected, i, c', k)
    {
      assert RowOk(cfg, rows, rejected, i, c, k);
    }
  }

  /** Sending changes nothing but what is recorded of it. */
  lemma {:induction false} SendKeepsClient(cfg: Config, rows: Rows, rejected: Refusals, i: Installation, c: Client,
                                           batch: seq<Snapshot>, now: int)
    requires ClientOk(cfg, rows, rejected, i, c)
    ensures ClientOk(cfg, rows, rejected, i, SentClient(c, batch, now))
  {
    var c' := SentClient(c, batch, now);
    forall k | k in c'.outbox
      ensures RowOk(cfg, rows, rejected, i, c', k)
    {
      assert RowOk(cfg, rows, rejected, i, c, k);
    }
  }

  lemma {:induction false} SettledBelow(cfg: Config, rows: Rows, rejected: Refusals, i: Installation, y: Snapshot,
                                        x: Snapshot)
    requires Settled(cfg, rows, rejected, i, y) && x.key == y.key && x.revision <= y.revision
    ensures Settled(cfg, rows, rejected, i, x)
  {}

  lemma {:induction false} UpdateKeepsMessages(cfg: Config, s: State, i: Installation, c: Client)
    requires MessagesOk(cfg, s) && i in s.clients && s.clients[i].queued <= c.queued
    ensures MessagesOk(cfg, UpdateClient(s, i, c))
  {
    var s' := UpdateClient(s, i, c);
    forall m | m in s'.sent
      ensures BatchOk(cfg, s', m)
    {
      assert BatchOk(cfg, s, m);
    }
    forall id | id in s'.completed
      ensures WasRecorded(cfg, s', id)
    {
      assert WasRecorded(cfg, s, id);
    }
  }

  lemma {:induction false} UpdateKeepsServer(cfg: Config, s: State, i: Installation, c: Client)
    requires ServerOk(cfg, s) && i in s.clients && s.clients[i].queued <= c.queued
    ensures ServerOk(cfg, UpdateClient(s, i, c))
  {
    var s' := UpdateClient(s, i, c);
    forall k | k in s'.rows
      ensures RowKnown(cfg, s', k)
    {
      assert RowKnown(cfg, s, k);
    }
    forall a | a in s'.accepted
      ensures AcceptedOk(cfg, s', a)
    {
      assert AcceptedOk(cfg, s, a);
    }
    forall a | a in s'.rejected
      ensures RefusedOk(cfg, s', a)
    {
      assert RefusedOk(cfg, s, a);
    }
  }

  /** A step that only touches one client */
  lemma {:induction false} UpdateKeeps(cfg: Config, s: State, i: Installation, c: Client)
    requires Inv(cfg, s) && i in s.clients
    requires s.clients[i].queued <= c.queued && ClientOk(cfg, s.rows, s.rejected, i, c)
    ensures Inv(cfg, UpdateClient(s, i, c))
  {
    UpdateKeepsMessages(cfg, s, i, c);
    UpdateKeepsServer(cfg, s, i, c);
  }

  /* ---- Steps of the server ---- */

  predicate RowsGrow(rows: Rows, rows': Rows) {
    forall k | k in rows :: OnServer(rows', k, rows[k].revision)
  }

  lemma {:induction false} MergeAllGrows(rows: Rows, ds: seq<Delivery>)
    ensures RowsGrow(rows, MergeAll(rows, ds))
    ensures forall n | 0 <= n < |ds| :: OnServer(MergeAll(rows, ds), RowOf(ds[n]), ds[n].snapshot.revision)
  {
    if ds != [] {
      var front, last := ds[..|ds| - 1], ds[|ds| - 1];
      MergeAllGrows(rows, front);
      forall n | 0 <= n < |ds|
        ensures OnServer(MergeAll(rows, ds), RowOf(ds[n]), ds[n].snapshot.revision)
      {
        assert n < |front| ==> front[n] == ds[n];
      }
    }
  }

  /** A row is either as before or one of those delivered. */
  lemma {:induction false} MergeAllFrom(rows: Rows, ds: seq<Delivery>, k: RowKey)
    requires k in MergeAll(rows, ds)
    ensures || (k in rows && MergeAll(rows, ds)[k] == rows[k])
            || exists n :: 0 <= n < |ds| && RowOf(ds[n]) == k && ds[n].snapshot == MergeAll(rows, ds)[k]
  {
    if ds != [] {
      var front, last := ds[..|ds| - 1], ds[|ds| - 1];
      if MergeAll(rows, ds) == MergeAll(rows, front) || k != RowOf(last) {
        MergeAllFrom(rows, front, k);
        if exists n :: 0 <= n < |front| && RowOf(front[n]) == k && front[n].snapshot == MergeAll(rows, front)[k] {
          var n :| 0 <= n < |front| && RowOf(front[n]) == k && front[n].snapshot == MergeAll(rows, front)[k];
          assert RowOf(ds[n]) == k;
        }
      } else {
        assert RowOf(ds[|front|]) == k;
      }
    }
  }

  lemma {:induction false} SettledStays(cfg: Config, rows: Rows, rejected: Refusals, rows': Rows, rejected': Refusals,
                                        i: Installation, x: Snapshot)
    requires RowsGrow(rows, rows') && rejected <= rejected'
    ensures Stored(cfg, rows, i, x) ==> Stored(cfg, rows', i, x)
    ensures Settled(cfg, rows, rejected, i, x) ==> Settled(cfg, rows', rejected', i, x)
    ensures ItemDealt(cfg, rows, rejected, i, x) ==> ItemDealt(cfg, rows', rejected', i, x)
  {}

  lemma {:induction false} ClearedStays(cfg: Config, rows: Rows, rejected: Refusals, rows': Rows, rejected': Refusals,
                                        i: Installation, c: Client, x: Snapshot)
    requires RowsGrow(rows, rows') && rejected <= rejected' && Cleared(cfg, rows, rejected, i, c, x)
    ensures Cleared(cfg, rows', rejected', i, c, x)
  {
    var y :| y in c.queued && y.key == x.key && x.revision <= y.revision && ItemDealt(cfg, rows, rejected, i, y);
    SettledStays(cfg, rows, rejected, rows', rejected', i, y);
  }

  lemma {:induction false} ClientStays(cfg: Config, rows: Rows, rejected: Refusals, rows': Rows, rejected': Refusals,
                                       i: Installation, c: Client)
    requires RowsGrow(rows, rows') && rejected <= rejected' && ClientOk(cfg, rows, rejected, i, c)
    ensures ClientOk(cfg, rows', rejected', i, c)
  {
    forall x | x in c.queued
      ensures Holds(c.outbox, x) || Settled(cfg, rows', rejected', i, x)
    {
      SettledStays(cfg, rows, rejected, rows', rejected', i, x);
    }
    forall k | k in c.outbox
      ensures RowOk(cfg, rows', rejected', i, c, k)
    {
      assert RowOk(cfg, rows, rejected, i, c, k);
      if c.outbox[k].acknowledgedAt.Some? {
        ClearedStays(cfg, rows, rejected, rows', rejected', i, c, c.outbox[k].snapshot);
      }
    }
  }

  lemma {:induction false} DealtStays(cfg: Config, rows: Rows, rejected: Refusals, rows': Rows, rejected': Refusals,
                                      m: Message)
    requires RowsGrow(rows, rows') && rejected <= rejected' && Dealt(cfg, rows, rejected, m)
    ensures Dealt(cfg, rows', rejected', m)
  {
    forall n | 0 <= n < |m.batch|
      ensures ItemDealt(cfg, rows', rejected', m.installation, m.batch[n])
    {
      SettledStays(cfg, rows, rejected, rows', rejected', m.installation, m.batch[n]);
    }
  }

  /** What a step of the server leaves to be shown when it writes the deliveries `ds` of `i` */
  predicate Writes(cfg: Config, s: State, s': State, i: Installation, ds: seq<Delivery>) {
    && s' == s.(rows := s'.rows, written := s'.written, accepted := s'.accepted, rejected := s'.rejected)
    && s'.rows == MergeAll(s.rows, ds)
    && s.written <= s'.written <= s.sent && s.rejected <= s'.rejected
    && (forall n | 0 <= n < |ds| :: ds[n].owner == cfg.owner(i) && (i, ds[n].snapshot) in s'.accepted)
    && s.accepted <= s'.accepted
    && (forall a | a in s'.accepted - s.accepted :: AcceptedOk(cfg, s', a))
    && (forall a | a in s'.rejected - s.rejected :: RefusedOk(cfg, s', a))
    && (forall m | m in s'.written - s.written :: Dealt(cfg, s'.rows, s'.rejected, m))
  }

  lemma {:induction false} WritesKeepClients(cfg: Config, s: State, s': State, i: Installation, ds: seq<Delivery>)
    requires ClientsOk(cfg, s) && Writes(cfg, s, s', i, ds)
    ensures ClientsOk(cfg, s')
  {
    MergeAllGrows(s.rows, ds);
    forall j | j in s'.clients
      ensures ClientOk(cfg, s'.rows, s'.rejected, j, s'.clients[j])
    {
      ClientStays(cfg, s.rows, s.rejected, s'.rows, s'.rejected, j, s.clients[j]);
    }
  }

  lemma {:induction false} WritesKeepMessages(cfg: Config, s: State, s': State, i: Installation, ds: seq<Delivery>)
    requires MessagesOk(cfg, s) && Writes(cfg, s, s', i, ds)
    ensures MessagesOk(cfg, s')
  {
    MergeAllGrows(s.rows, ds);
    forall m | m in s'.written || m in s'.answered
      ensures Dealt(cfg, s'.rows, s'.rejected, m)
    {
      if m in s.written || m in s.answered {
        DealtStays(cfg, s.rows, s.rejected, s'.rows, s'.rejected, m);
      }
    }
    forall m | m in s'.sent
      ensures BatchOk(cfg, s', m)
    {
      assert BatchOk(cfg, s, m);
    }
    forall id | id in s'.completed
      ensures WasRecorded(cfg, s', id)
    {
      assert WasRecorded(cfg, s, id);
    }
  }

  lemma {:induction false} WritesKeepServer(cfg: Config, s: State, s': State, i: Installation, ds: seq<Delivery>)
    requires ServerOk(cfg, s) && Writes(cfg, s, s', i, ds)
    ensures ServerOk(cfg, s')
  {
    MergeAllGrows(s.rows, ds);
    forall k | k in s'.rows
      ensures RowKnown(cfg, s', k)
    {
      MergeAllFrom(s.rows, ds, k);
      if k in s.rows && s'.rows[k] == s.rows[k] {
        assert RowKnown(cfg, s, k);
      } else {
        var n :| 0 <= n < |ds| && RowOf(ds[n]) == k && ds[n].snapshot == s'.rows[k];
        assert (i, s'.rows[k]) in s'.accepted && cfg.owner(i) == k.0;
      }
    }
    forall a | a in s'.accepted
      ensures AcceptedOk(cfg, s', a)
    {
      if a in s.accepted {
        assert AcceptedOk(cfg, s, a);
        SettledStays(cfg, s.rows, s.rejected, s'.rows, s'.rejected, a.0, a.1);
      }
    }
    forall a | a in s'.rejected
      ensures RefusedOk(cfg, s', a)
    {
      assert a in s.rejected ==> RefusedOk(cfg, s, a);
    }
  }

  lemma {:induction false} WritesKeep(cfg: Config, s: State, s': State, i: Installation, ds: seq<Delivery>)
    requires Inv(cfg, s) && Writes(cfg, s, s', i, ds)
    ensures Inv(cfg, s')
  {
    WritesKeepClients(cfg, s, s', i, ds);
    WritesKeepMessages(cfg, s, s', i, ds);
    WritesKeepServer(cfg, s, s', i, ds);
  }

  lemma {:induction false} MergeOne(rows: Rows, d: Delivery)
    ensures MergeAll(rows, [d]) == Merge(rows, d.owner, d.snapshot)
    ensures OnServer(MergeAll(rows, [d]), RowOf(d), d.snapshot.revision)
  {
    assert [d][..0] == [];
    assert MergeAll(rows, [d][..0]) == rows;
  }

  lemma {:induction false} LeakWrites(cfg: Config, s: State, m: Message, n: nat)
    requires Enabled(cfg, s, Leak(m, n)) && BatchOk(cfg, s, m) && s.written <= s.sent
    ensures Writes(cfg, s, Apply(cfg, s, Leak(m, n)), m.installation, [Delivery(cfg.owner(m.installation), m.batch[n])])
  {
    MergeOne(s.rows, Delivery(cfg.owner(m.installation), m.batch[n]));
  }

  lemma {:induction false} LeakKeeps(cfg: Config, s: State, m: Message, n: nat)
    requires Inv(cfg, s) && Enabled(cfg, s, Leak(m, n))
    ensures Inv(cfg, Apply(cfg, s, Leak(m, n)))
  {
    assert BatchOk(cfg, s, m);
    LeakWrites(cfg, s, m, n);
    WritesKeep(cfg, s, Apply(cfg, s, Leak(m, n)), m.installation, [Delivery(cfg.owner(m.installation), m.batch[n])]);
  }

  /** After a write, every snapshot of the batch is dealt with. */
  lemma {:induction false} WriteDeals(cfg: Config, s: State, m: Message)
    requires Enabled(cfg, s, Write(m))
    ensures var s' := Apply(cfg, s, Write(m)); Dealt(cfg, s'.rows, s'.rejected, m)
  {
    var s' := Apply(cfg, s, Write(m));
    var passing := Passing(m.batch, cfg.valid, true);
    var ds := From(cfg.owner(m.installation), passing);
    MergeAllGrows(s.rows, ds);
    forall n | 0 <= n < |m.batch|
      ensures ItemDealt(cfg, s'.rows, s'.rejected, m.installation, m.batch[n])
    {
      if cfg.valid(m.batch[n]) {
        PassingAre(m.batch, cfg.valid, true, m.batch[n]);
        var j :| 0 <= j < |passing| && passing[j] == m.batch[n];
        assert OnServer(s'.rows, RowOf(ds[j]), ds[j].snapshot.revision);
      }
    }
  }

  lemma {:induction false} WriteWrites(cfg: Config, s: State, m: Message)
    requires Enabled(cfg, s, Write(m)) && BatchOk(cfg, s, m) && s.written <= s.sent
    ensures Writes(cfg, s, Apply(cfg, s, Write(m)), m.installation,
                   From(cfg.owner(m.installation), Passing(m.batch, cfg.valid, true)))
  {
    var s', i := Apply(cfg, s, Write(m)), m.installation;
    var ds := From(cfg.owner(i), Passing(m.batch, cfg.valid, true));
    WriteDeals(cfg, s, m);
    forall n | 0 <= n < |ds|
      ensures (i, ds[n].snapshot) in s'.accepted
    {
      PassingAre(m.batch, cfg.valid, true, ds[n].snapshot);
      assert ds[n].snapshot in Passing(m.batch, cfg.valid, true);
      var j :| 0 <= j < |m.batch| && m.batch[j] == ds[n].snapshot;
    }
    forall a | a in ValidOf(cfg, m)
      ensures AcceptedOk(cfg, s', a)
    {
      var n :| 0 <= n < |m.batch| && cfg.valid(m.batch[n]) && a == (i, m.batch[n]);
      assert ItemDealt(cfg, s'.rows, s'.rejected, i, m.batch[n]);
    }
    forall a | a in InvalidOf(cfg, m)
      ensures RefusedOk(cfg, s', a)
    {
      var n :| 0 <= n < |m.batch| && !cfg.valid(m.batch[n]) && a == (i, m.batch[n]);
      assert |Encoded(cfg, m.batch)[n]| <= U64_MAX;
    }
  }

  lemma {:induction false} WriteKeeps(cfg: Config, s: State, m: Message)
    requires Inv(cfg, s) && Enabled(cfg, s, Write(m))
    ensures Inv(cfg, Apply(cfg, s, Write(m)))
  {
    assert BatchOk(cfg, s, m);
    WriteWrites(cfg, s, m);
    WritesKeep(cfg, s, Apply(cfg, s, Write(m)), m.installation,
               From(cfg.owner(m.installation), Passing(m.batch, cfg.valid, true)));
  }

  /* ---- Messages ---- */

  /** A step that only touches messages */
  lemma {:induction false} MessageStepKeeps(cfg: Config, s: State, s': State)
    requires Inv(cfg, s) && MessagesOk(cfg, s')
    requires s' == s.(sent := s'.sent, completed := s'.completed, answered := s'.answered)
    ensures Inv(cfg, s')
  {
    forall k | k in s'.rows
      ensures RowKnown(cfg, s', k)
    {
      assert RowKnown(cfg, s, k);
    }
    forall a | a in s'.accepted
      ensures AcceptedOk(cfg, s', a)
    {
      assert AcceptedOk(cfg, s, a);
    }
    forall a | a in s'.rejected
      ensures RefusedOk(cfg, s', a)
    {
      assert RefusedOk(cfg, s, a);
    }
  }

  lemma {:induction false} SameRecords(cfg: Config, s: State, s': State, id: (Installation, F.Bytes))
    requires WasRecorded(cfg, s, id) && s.written <= s'.written
    ensures WasRecorded(cfg, s', id)
  {}

  /** The request of a client whose own part has been recorded */
  lemma {:induction false} RequestKeeps(cfg: Config, s: State, i: Installation, batch: seq<Snapshot>)
    requires Inv(cfg, s) && i in s.clients && Waiting(s.clients[i].outbox, batch) && F.Short(Encoded(cfg, batch))
    ensures Inv(cfg, s.(sent := s.sent + {Message(i, batch)}))
  {
    var s' := s.(sent := s.sent + {Message(i, batch)});
    assert ClientOk(cfg, s.rows, s.rejected, i, s.clients[i]);
    forall m | m in s'.sent
      ensures BatchOk(cfg, s', m)
    {
      assert m in s.sent ==> BatchOk(cfg, s, m);
    }
    forall id | id in s'.completed
      ensures WasRecorded(cfg, s', id)
    {
      SameRecords(cfg, s, s', id);
    }
    MessageStepKeeps(cfg, s, s');
  }

  lemma {:induction false} SendKeeps(cfg: Config, s: State, i: Installation, batch: seq<Snapshot>, now: int)
    requires Inv(cfg, s) && Enabled(cfg, s, Send(i, batch, now))
    ensures Inv(cfg, Apply(cfg, s, Send(i, batch, now)))
  {
    var c' := SentClient(s.clients[i], batch, now);
    SendKeepsClient(cfg, s.rows, s.rejected, i, s.clients[i], batch, now);
    UpdateKeeps(cfg, s, i, c');
    RequestKeeps(cfg, UpdateClient(s, i, c'), i, batch);
  }

  lemma {:induction false} SameIdSameBatch(cfg: Config, a: Message, b: Message)
    requires Faithful(cfg) && F.Short(Encoded(cfg, a.batch)) && F.Short(Encoded(cfg, b.batch))
    requires BatchId(cfg, a) == BatchId(cfg, b)
    ensures a == b
  {
    F.BatchBytesInjective(Encoded(cfg, a.batch), Encoded(cfg, b.batch));
    assert |a.batch| == |b.batch|;
    forall n | 0 <= n < |a.batch|
      ensures a.batch[n] == b.batch[n]
    {
      assert Encoded(cfg, a.batch)[n] == Encoded(cfg, b.batch)[n];
    }
  }

  /** Answering "duplicate" is sound: when the id of a batch that was sent is on record, all of the
      batch is on the server. */
  lemma {:induction false} DuplicateIsSound(cfg: Config, s: State, m: Message)
    requires Faithful(cfg) && Inv(cfg, s) && m in s.sent && BatchId(cfg, m) in s.completed
    ensures m in s.written && AllValid(cfg, m.batch)
    ensures forall n | 0 <= n < |m.batch| :: Stored(cfg, s.rows, m.installation, m.batch[n])
  {
    assert WasRecorded(cfg, s, BatchId(cfg, m));
    var w :| w in s.written && BatchId(cfg, w) == BatchId(cfg, m) && AllValid(cfg, w.batch);
    assert BatchOk(cfg, s, w) && BatchOk(cfg, s, m);
    SameIdSameBatch(cfg, w, m);
    forall n | 0 <= n < |m.batch|
      ensures Stored(cfg, s.rows, m.installation, m.batch[n])
    {
      assert ItemDealt(cfg, s.rows, s.rejected, m.installation, m.batch[n]);
    }
  }

  lemma {:induction false} RecordKeeps(cfg: Config, s: State, m: Message)
    requires Inv(cfg, s) && Enabled(cfg, s, Record(m))
    ensures Inv(cfg, Apply(cfg, s, Record(m)))
  {
    var s' := Apply(cfg, s, Record(m));
    forall id | id in s'.completed
      ensures WasRecorded(cfg, s', id)
    {
      if id in s.completed {
        SameRecords(cfg, s, s', id);
      }
    }
    forall x | x in s'.sent
      ensures BatchOk(cfg, s', x)
    {
      assert BatchOk(cfg, s, x);
    }
    MessageStepKeeps(cfg, s, s');
  }

  lemma {:induction false} ReplyKeeps(cfg: Config, s: State, m: Message)
    requires Faithful(cfg) && Inv(cfg, s) && Enabled(cfg, s, Reply(m))
    ensures Inv(cfg, Apply(cfg, s, Reply(m)))
  {
    var s' := Apply(cfg, s, Reply(m));
    if BatchId(cfg, m) in s.completed {
      DuplicateIsSound(cfg, s, m);
    }
    forall id | id in s'.completed
      ensures WasRecorded(cfg, s', id)
    {
      SameRecords(cfg, s, s', id);
    }
    forall x | x in s'.sent
      ensures BatchOk(cfg, s', x)
    {
      assert BatchOk(cfg, s, x);
    }
    MessageStepKeeps(cfg, s, s');
  }

  lemma {:induction false} AllotStepKeeps(cfg: Config, s: State, i: Installation, observed: u64)
    requires Inv(cfg, s) && Enabled(cfg, s, Allot(i, observed))
    ensures Inv(cfg, Apply(cfg, s, Allot(i, observed)))
  {
    var c := s.clients[i];
    var revision := RevisionAfter(c.counter, observed);
    AllotKeeps(cfg, s.rows, s.rejected, i, c, observed);
    UpdateKeeps(cfg, s, i, c.(counter := revision, drafts := c.drafts + {revision}));
  }

  lemma {:induction false} QueueStepKeeps(cfg: Config, s: State, i: Installation, x: Snapshot, now: int)
    requires Inv(cfg, s) && Enabled(cfg, s, Queue(i, x, now))
    ensures Inv(cfg, Apply(cfg, s, Queue(i, x, now)))
  {
    var c := s.clients[i];
    QueueKeeps(cfg, s.rows, s.rejected, i, c, x, now);
    UpdateKeeps(cfg, s, i, QueuedClient(c, x, now));
  }

  lemma {:induction false} PruneStepKeeps(cfg: Config, s: State, i: Installation, now: int)
    requires Inv(cfg, s) && Enabled(cfg, s, Prune(i, now))
    ensures Inv(cfg, Apply(cfg, s, Prune(i, now)))
  {
    PruneKeeps(cfg, s.rows, s.rejected, i, s.clients[i], now);
    UpdateKeeps(cfg, s, i, PrunedClient(cfg, s.clients[i], now));
  }

  lemma {:induction false} DeliveryKeeps(cfg: Config, s: State, m: Message, n: nat, now: int)
    requires Inv(cfg, s) && Enabled(cfg, s, Deliver(m, n, now))
    ensures Inv(cfg, Apply(cfg, s, Deliver(m, n, now)))
  {
    var i := m.installation;
    var c := s.clients[i];
    assert ClientOk(cfg, s.rows, s.rejected, i, c);
    assert BatchOk(cfg, s, m);
    assert Dealt(cfg, s.rows, s.rejected, m);
    DeliverKeeps(cfg, s.rows, s.rejected, i, c, m.batch[n], now);
    UpdateKeeps(cfg, s, i, MarkedClient(c, m.batch[n], now));
  }

  lemma {:induction false} StepKeeps(cfg: Config, s: State, step: Step)
    requires Faithful(cfg) && Inv(cfg, s)
    ensures Inv(cfg, Apply(cfg, s, step))
  {
    if Enabled(cfg, s, step) {
      match step
      case Allot(i, observed) => AllotStepKeeps(cfg, s, i, observed);
      case Queue(i, x, now) => QueueStepKeeps(cfg, s, i, x, now);
      case Prune(i, now) => PruneStepKeeps(cfg, s, i, now);
      case Send(i, batch, now) => SendKeeps(cfg, s, i, batch, now);
      case Leak(m, n) => LeakKeeps(cfg, s, m, n);
      case Write(m) => WriteKeeps(cfg, s, m);
      case Record(m) => RecordKeeps(cfg, s, m);
      case Reply(m) => ReplyKeeps(cfg, s, m);
      case Deliver(m, n, now) => DeliveryKeeps(cfg, s, m, n, now);
    }
  }

  lemma {:induction false} RunKeepsInv(cfg: Config, steps: seq<Step>)
    requires Faithful(cfg)
    ensures Inv(cfg, Run(cfg, steps))
  {
    if steps != [] {
      RunKeepsInv(cfg, steps[..|steps| - 1]);
      StepKeeps(cfg, Run(cfg, steps[..|steps| - 1]), steps[|steps| - 1]);
    }
  }

  /* ---- Safety and convergence ---- */

  /** No newer snapshot of the session was ever queued. */
  predicate Newest(c: Client, x: Snapshot) {
    forall y | y in c.queued && y.key == x.key :: y.revision <= x.revision
  }

  /** A newer snapshot of the session was queued and refused. */
  predicate RefusedNewer(rejected: Refusals, i: Installation, c: Client, x: Snapshot) {
    exists y | y in c.queued :: y.key == x.key && x.revision < y.revision && (i, y) in rejected
  }

  predicate Acknowledged(s: State, i: Installation, k: Key) {
    i in s.clients && k in s.clients[i].outbox && s.clients[i].outbox[k].acknowledgedAt.Some?
  }

  lemma {:induction false} ClearedUnless(cfg: Config, rows: Rows, rejected: Refusals, i: Installation, c: Client,
                                         x: Snapshot)
    requires RevisionsOk(c) && x in c.queued && Cleared(cfg, rows, rejected, i, c, x)
    ensures Stored(cfg, rows, i, x) || (i, x) in rejected || RefusedNewer(rejected, i, c, x)
    ensures Newest(c, x) ==> ItemDealt(cfg, rows, rejected, i, x)
  {
    var y :| y in c.queued && y.key == x.key && x.revision <= y.revision && ItemDealt(cfg, rows, rejected, i, y);
    if y.revision == x.revision {
      assert x == y;
    }
  }

  /** In every run, the snapshot in an acknowledged row is stored, or a newer one is, or it was refused
      itself - unless a newer one was refused, behind which it was queued.  The newest snapshot ever
      queued for a session is stored if it is valid and was refused if it is not; and an acknowledged
      row holds the newest one if its session was never pruned. */
  lemma {:induction false} AcknowledgedIsSafe(cfg: Config, steps: seq<Step>, i: Installation, k: Key)
    requires Faithful(cfg) && Acknowledged(Run(cfg, steps), i, k)
    ensures var s := Run(cfg, steps);
            var c := s.clients[i];
            var x := c.outbox[k].snapshot;
            && Settled(cfg, s.rows, s.rejected, i, x)
            && (Stored(cfg, s.rows, i, x) || (i, x) in s.rejected || RefusedNewer(s.rejected, i, c, x))
            && (Newest(c, x) ==> ItemDealt(cfg, s.rows, s.rejected, i, x))
            && (k !in c.pruned ==> Newest(c, x))
  {
    var s := Run(cfg, steps);
    var c := s.clients[i];
    RunKeepsInv(cfg, steps);
    assert ClientOk(cfg, s.rows, s.rejected, i, c);
    assert RowOk(cfg, s.rows, s.rejected, i, c, k);
    ClearedIsSettled(cfg, s.rows, s.rejected, i, c, c.outbox[k].snapshot);
    ClearedUnless(cfg, s.rows, s.rejected, i, c, c.outbox[k].snapshot);
    assert k !in c.pruned ==> forall y | y in c.queued && y.key == k :: Holds(c.outbox, y);
  }

  /** The step confirms a snapshot of session `k` at least as new as `revision` to installation `i`. */
  predicate Confirms(step: Step, i: Installation, k: Key, revision: nat) {
    && step.Deliver? && step.m.installation == i && step.n < |step.m.batch|
    && step.m.batch[step.n].key == k && revision <= step.m.batch[step.n].revision
  }

  /** A session that waits keeps waiting, with the same snapshot or a newer one, until a snapshot at
      least as new is confirmed: a late answer never hides a newer revision. */
  lemma {:induction false} WaitingGoesOn(cfg: Config, s: State, step: Step, i: Installation, k: Key)
    requires i in s.clients && Filed(s.clients[i].outbox) && k in Pending(s.clients[i].outbox)
    requires !Confirms(step, i, k, s.clients[i].outbox[k].snapshot.revision)
    ensures var s' := Apply(cfg, s, step);
            && i in s'.clients && k in Pending(s'.clients[i].outbox)
            && s.clients[i].outbox[k].snapshot.revision <= s'.clients[i].outbox[k].snapshot.revision
            && (!step.Queue? ==> s'.clients[i].outbox[k] == s.clients[i].outbox[k])
  {
    if Enabled(cfg, s, step) {
      match step
      case Allot(_, _) =>
      case Queue(j, x, now) => assert k in Upsert(s.clients[i].outbox, x, now);
      case Send(_, _, _) =>
      case Leak(_, _) =>
      case Write(_) =>
      case Record(_) =>
      case Reply(_) =>
      case Deliver(m, n, now) => assert Mark(s.clients[i].outbox, m.batch[n], now).Keys == s.clients[i].outbox.Keys;
      case Prune(_, now) => assert k in Pruned(s.clients[i].outbox, now - cfg.retention);
    }
  }

  /** All that was ever queued for a session of an owner, by whichever installation */
  ghost predicate QueuedFor(cfg: Config, s: State, k: RowKey, x: Snapshot) {
    x.key == k.1 && exists i :: i in s.clients && cfg.owner(i) == k.0 && x in s.clients[i].queued
  }

  predicate Quiet(s: State) {
    s.rejected == {} && forall i | i in s.clients :: Pending(s.clients[i].outbox) == {}
  }

  /** Convergence: whenever nothing is waiting and nothing was refused, the server shows, for every
      session ever queued, a queued snapshot of the highest revision ever queued, and no others. */
  lemma {:induction false} Converged(cfg: Config, steps: seq<Step>, k: RowKey)
    requires Faithful(cfg) && Quiet(Run(cfg, steps))
    ensures var s := Run(cfg, steps);
            && (k in s.rows <==> exists x :: QueuedFor(cfg, s, k, x))
            && (k in s.rows ==> QueuedFor(cfg, s, k, s.rows[k]))
            && (forall x | QueuedFor(cfg, s, k, x) :: k in s.rows && x.revision <= s.rows[k].revision)
  {
    var s := Run(cfg, steps);
    RunKeepsInv(cfg, steps);
    if k in s.rows {
      assert RowKnown(cfg, s, k);
      var i :| (i, s.rows[k]) in s.accepted && cfg.owner(i) == k.0;
      assert AcceptedOk(cfg, s, (i, s.rows[k]));
      assert QueuedFor(cfg, s, k, s.rows[k]);
    }
    forall x | QueuedFor(cfg, s, k, x)
      ensures OnServer(s.rows, k, x.revision)
    {
      var i :| i in s.clients && cfg.owner(i) == k.0 && x in s.clients[i].queued;
      QueuedIsStored(cfg, s, i, x);
    }
  }

  lemma {:induction false} QueuedIsStored(cfg: Config, s: State, i: Installation, x: Snapshot)
    requires Inv(cfg, s) && Quiet(s) && i in s.clients && x in s.clients[i].queued
    ensures Stored(cfg, s.rows, i, x)
  {
    var c := s.clients[i];
    assert ClientOk(cfg, s.rows, s.rejected, i, c);
    if Holds(c.outbox, x) {
      assert x.key !in Pending(c.outbox);
      assert RowOk(cfg, s.rows, s.rejected, i, c, x.key);
      ClearedIsSettled(cfg, s.rows, s.rejected, i, c, c.outbox[x.key].snapshot);
    }
  }

  /** If a single installation reports an owner's sessions, the snapshot shown is the newest queued. */
  lemma {:induction false} ConvergedExactly(cfg: Config, steps: seq<Step>, k: RowKey, i: Installation, x: Snapshot)
    requires Faithful(cfg) && Quiet(Run(cfg, steps))
    requires forall j | j in Run(cfg, steps).clients && cfg.owner(j) == k.0 :: j == i
    requires QueuedFor(cfg, Run(cfg, steps), k, x)
    ensures var s := Run(cfg, steps);
            k in s.rows && (x == s.rows[k] || x.revision < s.rows[k].revision)
  {
    var s := Run(cfg, steps);
    Converged(cfg, steps, k);
    RunKeepsInv(cfg, steps);
    var j :| j in s.clients && cfg.owner(j) == k.0 && x in s.clients[j].queued;
    assert ClientOk(cfg, s.rows, s.rejected, i, s.clients[i]);
  }
}
