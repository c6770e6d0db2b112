/** The outbox as its callers see it */
module Queueing {
  /* What waits, and in which order, told from the calls alone */

  import opened Outbox
  import opened Text

  /** A call of `queue_snapshot` or of `acknowledge` */
  datatype Call =
    | Queue(snapshot: Snapshot, now: int)
    | Acknowledge(snapshots: seq<Snapshot>, now: int)

  /* ---- What the calls say ---- */

  /** Revisions beyond a signed 64-bit integer are not stored. */
  predicate Stores(c: Call) {
    c.Queue? && c.snapshot.revision <= 0x7FFF_FFFF_FFFF_FFFF
  }

  /** Call `i` replaces what its session had queued before: nothing stored earlier was newer. */
  predicate Effective(calls: seq<Call>, i: nat)
    requires i < |calls|
  {
    && Stores(calls[i])
    && forall j | 0 <= j < i && Stores(calls[j]) && calls[j].snapshot.key == calls[i].snapshot.key ::
         calls[j].snapshot.revision <= calls[i].snapshot.revision
  }

  /** The session's last effective call */
  predicate Latest(calls: seq<Call>, i: nat)
    requires i < |calls|
  {
    && Effective(calls, i)
    && forall j | i < j < |calls| && Effective(calls, j) :: calls[j].snapshot.key != calls[i].snapshot.key
  }

  predicate Confirms(snapshots: seq<Snapshot>, s: Snapshot) {
    exists q :: 0 <= q < |snapshots| && snapshots[q].key == s.key && s.revision <= snapshots[q].revision
  }

  /** What call `i` queued was neither replaced nor acknowledged since. */
  predicate StillWaits(calls: seq<Call>, i: nat)
    requires i < |calls|
  {
    && Latest(calls, i)
    && forall j | i < j < |calls| && calls[j].Acknowledge? :: !Confirms(calls[j].snapshots, calls[i].snapshot)
  }

  /** Queued before, or at the same time under a smaller key */
  predicate Earlier(a: Call, b: Call)
    requires a.Queue? && b.Queue?
  {
    a.now < b.now || (a.now == b.now && a.snapshot.key < b.snapshot.key)
  }

  /* ---- What the table holds ---- */

  predicate HoldsCall(table: Table, calls: seq<Call>, i: nat)
    requires i < |calls| && Latest(calls, i)
  {
    var k := calls[i].snapshot.key;
    && k in table
    && table[k].snapshot == calls[i].snapshot
    && table[k].updatedAt == calls[i].now
    && (table[k].acknowledgedAt.None? <==> StillWaits(calls, i))
  }

  predicate Accounted(calls: seq<Call>, k: Key) {
    exists i :: 0 <= i < |calls| && Latest(calls, i) && calls[i].snapshot.key == k
  }

  predicate Newest(table: Table, c: Call)
    requires c.Queue?
  {
    c.snapshot.key in table && c.snapshot.revision <= table[c.snapshot.key].snapshot.revision
  }

  /** One row per session that queued anything, with its newest revision and the time of its last
      effective call */
  ghost predicate Reflects(table: Table, calls: seq<Call>) {
    && Filed(table)
    && (forall i | 0 <= i < |calls| && Latest(calls, i) :: HoldsCall(table, calls, i))
    && (forall k | k in table :: Accounted(calls, k))
    && (forall i | 0 <= i < |calls| && Stores(calls[i]) :: Newest(table, calls[i]))
  }

  lemma {:induction false} EffectiveBefore(calls: seq<Call>, c: Call, i: nat)
    requires i < |calls|
    ensures Effective(calls + [c], i) <==> Effective(calls, i)
  {
    assert forall j | 0 <= j <= i :: (calls + [c])[j] == calls[j];
  }

  lemma {:induction false} LatestBefore(calls: seq<Call>, c: Call, i: nat)
    requires i < |calls|
    ensures Latest(calls + [c], i)
       <==> && Latest(calls, i)
            && !(Effective(calls + [c], |calls|) && c.snapshot.key == calls[i].snapshot.key)
  {
    var longer := calls + [c];
    EffectiveBefore(calls, c, i);
    forall j | i < j < |calls|
      ensures Effective(longer, j) <==> Effective(calls, j)
      ensures longer[j] == calls[j]
    {
      EffectiveBefore(calls, c, j);
    }
    assert longer[i] == calls[i] && longer[|calls|] == c;
  }

  lemma {:induction false} WaitsBefore(calls: seq<Call>, c: Call, i: nat)
    requires i < |calls| && Latest(calls + [c], i)
    ensures Latest(calls, i)
    ensures StillWaits(calls + [c], i)
       <==> StillWaits(calls, i) && !(c.Acknowledge? && Confirms(c.snapshots, calls[i].snapshot))
  {
    var longer := calls + [c];
    LatestBefore(calls, c, i);
    assert longer[|calls|] == c && forall j | 0 <= j < |calls| :: longer[j] == calls[j];
  }

  /** The upsert takes effect exactly when nothing newer was stored. */
  lemma {:induction false} EffectiveNow(table: Table, calls: seq<Call>, c: Call)
    requires Reflects(table, calls) && Stores(c)
    ensures Effective(calls + [c], |calls|)
       <==> !(c.snapshot.key in table && c.snapshot.revision < table[c.snapshot.key].snapshot.revision)
  {
    var longer, k := calls + [c], c.snapshot.key;
    assert longer[|calls|] == c;
    if k in table && c.snapshot.revision < table[k].snapshot.revision {
      assert Accounted(calls, k);
      var i :| 0 <= i < |calls| && Latest(calls, i) && calls[i].snapshot.key == k;
      assert HoldsCall(table, calls, i) && longer[i] == calls[i] && Stores(calls[i]);
    } else {
      forall j | 0 <= j < |calls| && Stores(longer[j]) && longer[j].snapshot.key == k
        ensures longer[j].snapshot.revision <= c.snapshot.revision
      {
        assert longer[j] == calls[j] && Newest(table, calls[j]);
      }
    }
  }

  lemma {:induction false} StillAccounted(calls: seq<Call>, c: Call, k: Key)
    requires Accounted(calls, k) || (Effective(calls + [c], |calls|) && c.snapshot.key == k)
    ensures Accounted(calls + [c], k)
  {
    var longer := calls + [c];
    assert longer[|calls|] == c;
    if Effective(longer, |calls|) && c.snapshot.key == k {
      assert Latest(longer, |calls|);
    } else {
      var i :| 0 <= i < |calls| && Latest(calls, i) && calls[i].snapshot.key == k;
      LatestBefore(calls, c, i);
      assert longer[i] == calls[i];
    }
  }

  lemma {:induction false} NothingQueued(table: Table, calls: seq<Call>, c: Call)
    requires Reflects(table, calls) && c.Queue? && !Effective(calls + [c], |calls|)
    ensures Reflects(table, calls + [c])
  {
    var longer := calls + [c];
    assert longer[|calls|] == c;
    forall i | 0 <= i < |longer| && Latest(longer, i)
      ensures HoldsCall(table, longer, i)
    {
      WaitsBefore(calls, c, i);
      assert HoldsCall(table, calls, i) && longer[i] == calls[i];
    }
    forall k | k in table
      ensures Accounted(longer, k)
    {
      StillAccounted(calls, c, k);
    }
    forall i | 0 <= i < |longer| && Stores(longer[i])
      ensures Newest(table, longer[i])
    {
      if i < |calls| {
        assert longer[i] == calls[i];
      } else {
        EffectiveNow(table, calls, c);
      }
    }
  }

  lemma {:induction false} OneQueued(table: Table, calls: seq<Call>, c: Call)
    requires Reflects(table, calls) && Effective(calls + [c], |calls|)
    ensures Reflects(table[c.snapshot.key := Row(c.snapshot, None, c.now)], calls + [c])
  {
    var longer, key := calls + [c], c.snapshot.key;
    var after := table[key := Row(c.snapshot, None, c.now)];
    assert longer[|calls|] == c;
    EffectiveNow(table, calls, c);
    forall i | 0 <= i < |longer| && Latest(longer, i)
      ensures HoldsCall(after, longer, i)
    {
      if i < |calls| {
        LatestBefore(calls, c, i);
        WaitsBefore(calls, c, i);
        assert HoldsCall(table, calls, i) && longer[i] == calls[i];
      }
    }
    forall k | k in after
      ensures Accounted(longer, k)
    {
      StillAccounted(calls, c, k);
    }
    forall i | 0 <= i < |longer| && Stores(longer[i])
      ensures Newest(after, longer[i])
    {
      if i < |calls| {
        assert longer[i] == calls[i] && Newest(table, calls[i]);
      }
    }
  }

  lemma {:induction false} QueueReflects(table: Table, calls: seq<Call>, s: Snapshot, now: int)
    requires Reflects(table, calls)
    ensures Reflects(if s.revision <= I64_MAX then Upsert(table, s, now) else table, calls + [Queue(s, now)])
  {
    var c := Queue(s, now);
    assert (calls + [c])[|calls|] == c;
    if Stores(c) {
      EffectiveNow(table, calls, c);
    }
    if Effective(calls + [c], |calls|) {
      OneQueued(table, calls, c);
    } else {
      NothingQueued(table, calls, c);
    }
  }

  lemma {:induction false} ConfirmsIs(table: Table, snapshots: seq<Snapshot>, k: Key)
    requires Filed(table) && k in table
    ensures Confirmed(table, snapshots, k) <==> Confirms(snapshots, table[k].snapshot)
  {
    if Confirms(snapshots, table[k].snapshot) {
      var q :| 0 <= q < |snapshots| && snapshots[q].key == table[k].snapshot.key
               && table[k].snapshot.revision <= snapshots[q].revision;
      assert Covers(snapshots[q], table[k]);
    }
    if Confirmed(table, snapshots, k) {
      var q :| 0 <= q < |snapshots| && Covers(snapshots[q], table[k]);
    }
  }

  lemma {:induction false} MarkedRow(table: Table, snapshots: seq<Snapshot>, now: int, k: Key)
    requires Filed(table) && k in table
    ensures k in MarkAll(table, snapshots, now)
    ensures var row, row' := table[k], MarkAll(table, snapshots, now)[k];
            && row'.snapshot == row.snapshot && row'.updatedAt == row.updatedAt
            && (row'.acknowledgedAt.None? <==> row.acknowledgedAt.None? && !Confirms(snapshots, row.snapshot))
  {
    MarkAllAt(table, snapshots, now, k);
    ConfirmsIs(table, snapshots, k);
  }

  lemma {:induction false} AcknowledgeReflects(table: Table, calls: seq<Call>, snapshots: seq<Snapshot>, now: int)
    requires Reflects(table, calls)
    ensures Reflects(MarkAll(table, snapshots, now), calls + [Acknowledge(snapshots, now)])
  {
    var c := Acknowledge(snapshots, now);
    var longer, after := calls + [c], MarkAll(table, snapshots, now);
    assert longer[|calls|] == c;
    MarkAllAt(table, snapshots, now, 0);
    forall i | 0 <= i < |longer| && Latest(longer, i)
      ensures HoldsCall(after, longer, i)
    {
      WaitsBefore(calls, c, i);
      assert HoldsCall(table, calls, i) && longer[i] == calls[i];
      MarkedRow(table, snapshots, now, calls[i].snapshot.key);
    }
    forall k | k in after
      ensures Accounted(longer, k)
    {
      StillAccounted(calls, c, k);
    }
    forall i | 0 <= i < |longer| && Stores(longer[i])
      ensures Newest(after, longer[i])
    {
      assert longer[i] == calls[i] && Newest(table, calls[i]);
      MarkedRow(table, snapshots, now, calls[i].snapshot.key);
    }
  }

  /* ---- The batch ---- */

  lemma {:induction false} WaitingRow(table: Table, calls: seq<Call>, i: nat)
    requires Reflects(table, calls) && i < |calls| && StillWaits(calls, i)
    ensures calls[i].snapshot.key in Pending(table)
    ensures table[calls[i].snapshot.key].snapshot == calls[i].snapshot
    ensures table[calls[i].snapshot.key].updatedAt == calls[i].now
  {
    assert HoldsCall(table, calls, i);
  }

  lemma {:induction false} WaitingCall(table: Table, calls: seq<Call>, k: Key) returns (i: nat)
    requires Reflects(table, calls) && k in Pending(table)
    ensures i < |calls| && StillWaits(calls, i) && calls[i].snapshot == table[k].snapshot
  {
    assert Accounted(calls, k);
    i :| 0 <= i < |calls| && Latest(calls, i) && calls[i].snapshot.key == k;
    assert HoldsCall(table, calls, i);
  }

  /** Who waits longer is sent first. */
  lemma {:induction false} EarlierIsSent(table: Table, calls: seq<Call>, batch: seq<Snapshot>, i: nat, j: nat, q: nat)
    returns (p: nat)
    requires Reflects(table, calls) && Outbox.Waiting(table, batch) && Oldest(table, batch)
    requires i < |calls| && StillWaits(calls, i) && j < |calls| && StillWaits(calls, j)
    requires Earlier(calls[i], calls[j]) && q < |batch| && batch[q] == calls[j].snapshot
    ensures p < q && batch[p] == calls[i].snapshot
  {
    WaitingRow(table, calls, i);
    WaitingRow(table, calls, j);
    var k := calls[i].snapshot.key;
    assert !Before(table[batch[q].key], table[k]);
    assert k in KeysOf(batch);
    p :| 0 <= p < |batch| && batch[p].key == k;
    assert p != q;
  }

  predicate Sends(batch: seq<Snapshot>, s: Snapshot, before: nat) {
    exists p :: 0 <= p < before <= |batch| && batch[p] == s
  }

  predicate Comes(calls: seq<Call>, s: Snapshot) {
    exists i :: 0 <= i < |calls| && StillWaits(calls, i) && calls[i].snapshot == s
  }

  lemma {:induction false} BatchIsFair(table: Table, calls: seq<Call>, batch: seq<Snapshot>, limit: nat)
    requires Reflects(table, calls) && Outbox.Waiting(table, batch) && Oldest(table, batch)
    requires |batch| < limit ==> KeysOf(batch) == Pending(table)
    ensures forall q | 0 <= q < |batch| :: Comes(calls, batch[q])
    ensures forall i, j, q | 0 <= i < |calls| && StillWaits(calls, i) && 0 <= j < |calls| && StillWaits(calls, j)
                             && Earlier(calls[i], calls[j]) && 0 <= q < |batch| && batch[q] == calls[j].snapshot ::
              Sends(batch, calls[i].snapshot, q)
    ensures |batch| < limit ==>
              forall i | 0 <= i < |calls| && StillWaits(calls, i) :: Sends(batch, calls[i].snapshot, |batch|)
  {
    forall q | 0 <= q < |batch|
      ensures Comes(calls, batch[q])
    {
      var i := WaitingCall(table, calls, batch[q].key);
    }
    forall i, j, q | 0 <= i < |calls| && StillWaits(calls, i) && 0 <= j < |calls| && StillWaits(calls, j)
                     && Earlier(calls[i], calls[j]) && 0 <= q < |batch| && batch[q] == calls[j].snapshot
      ensures Sends(batch, calls[i].snapshot, q)
    {
      var p := EarlierIsSent(table, calls, batch, i, j, q);
    }
    forall i | |batch| < limit && 0 <= i < |calls| && StillWaits(calls, i)
      ensures Sends(batch, calls[i].snapshot, |batch|)
    {
      WaitingRow(table, calls, i);
      var p :| 0 <= p < |batch| && batch[p].key == calls[i].snapshot.key;
    }
  }

  /** The batch that is sent after `calls`: it holds snapshots that still wait, each session at most
      once, and every session that was queued earlier comes first.  It is short only when it holds
      everything that waits. */
  method BatchAfter(calls: seq<Call>, limit: nat) returns (batch: seq<Snapshot>)
    ensures |batch| <= limit
    ensures forall p, q | 0 <= p < q < |batch| :: batch[p].key != batch[q].key
    ensures forall q | 0 <= q < |batch| :: Comes(calls, batch[q])
    ensures forall i, j, q | 0 <= i < |calls| && StillWaits(calls, i) && 0 <= j < |calls| && StillWaits(calls, j)
                             && Earlier(calls[i], calls[j]) && 0 <= q < |batch| && batch[q] == calls[j].snapshot ::
              Sends(batch, calls[i].snapshot, q)
    ensures |batch| < limit ==>
              forall i | 0 <= i < |calls| && StillWaits(calls, i) :: Sends(batch, calls[i].snapshot, |batch|)
  {
    var state := new LocalState();
    for n := 0 to |calls|
      invariant state.Valid() && Reflects(state.outbox, calls[..n])
    {
      assert calls[..n + 1] == calls[..n] + [calls[n]];
      match calls[n] {
        case Queue(snapshot, now) =>
          QueueReflects(state.outbox, calls[..n], snapshot, now);
          var ok := state.QueueSnapshot(snapshot, now);
        case Acknowledge(snapshots, now) =>
          AcknowledgeReflects(state.outbox, calls[..n], snapshots, now);
          state.Acknowledge(snapshots, now);
      }
    }
    assert calls[..|calls|] == calls;
    batch := state.PendingBatch(limit);
    BatchIsFair(state.outbox, calls, batch, limit);
  }
}
