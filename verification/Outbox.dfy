/** The client's outbox, the revision counter, and what an acknowledgement does to them. */
module Outbox {
  import opened Ledgers
  import opened Text

  /** A session key is a hex digest of fixed length; keys are compared as the numbers they spell. */
  type Key = nat

  /** `body` stands for the JSON text of everything but key and revision. */
  datatype Snapshot = Snapshot(key: Key, revision: u64, body: seq<char>)

  datatype Row = Row(snapshot: Snapshot, acknowledgedAt: Option<int>, updatedAt: int)

  type Table = map<Key, Row>

  /** Each row is filed under its own session. */
  predicate Filed(table: Table) {
    forall k | k in table :: table[k].snapshot.key == k
  }

  /* ---- The statements ---- */

  /** The upsert: a snapshot replaces any that is not newer. */
  function Upsert(table: Table, s: Snapshot, now: int): Table {
    if s.key in table && s.revision < table[s.key].snapshot.revision then table
    else table[s.key := Row(s, None, now)]
  }

  predicate Covers(s: Snapshot, row: Row) {
    row.snapshot.key == s.key && row.snapshot.revision <= s.revision
  }

  /** `UPDATE … SET acknowledged_at WHERE session_key = ? AND revision <= ?` */
  function Mark(table: Table, s: Snapshot, now: int): Table {
    if s.key in table && table[s.key].snapshot.revision <= s.revision
    then table[s.key := table[s.key].(acknowledgedAt := Some(now))]
    else table
  }

  function MarkAll(table: Table, snapshots: seq<Snapshot>, now: int): Table {
    if snapshots == [] then table
    else Mark(MarkAll(table, snapshots[..|snapshots| - 1], now), snapshots[|snapshots| - 1], now)
  }

  predicate Expired(row: Row, cutoff: int) {
    row.acknowledgedAt.Some? && row.acknowledgedAt.value < cutoff
  }

  function Pruned(table: Table, cutoff: int): Table {
    map k | k in table && !Expired(table[k], cutoff) :: table[k]
  }

  function Pending(table: Table): set<Key> {
    set k | k in table && table[k].acknowledgedAt.None?
  }

  /** `ORDER BY updated_at, session_key` */
  predicate Before(a: Row, b: Row) {
    a.updatedAt < b.updatedAt || (a.updatedAt == b.updatedAt && a.snapshot.key < b.snapshot.key)
  }

  predicate InOrder(rows: seq<Row>) {
    forall i, j | 0 <= i < j < |rows| :: Before(rows[i], rows[j])
  }

  function KeysOf(snapshots: seq<Snapshot>): set<Key> {
    set i | 0 <= i < |snapshots| :: snapshots[i].key
  }

  /** One snapshot per session */
  predicate DistinctKeys(snapshots: seq<Snapshot>) {
    forall i, j | 0 <= i < j < |snapshots| :: snapshots[i].key != snapshots[j].key
  }

  /** The batch holds the current snapshots of distinct pending sessions. */
  predicate Waiting(table: Table, batch: seq<Snapshot>) {
    && DistinctKeys(batch)
    && forall i | 0 <= i < |batch| :: batch[i].key in Pending(table) && table[batch[i].key].snapshot == batch[i]
  }

  /** No session outside the batch has been waiting longer than one inside. */
  predicate Oldest(table: Table, batch: seq<Snapshot>)
    requires Waiting(table, batch)
  {
    && (forall i, j | 0 <= i < j < |batch| :: Before(table[batch[i].key], table[batch[j].key]))
    && (forall i, k | 0 <= i < |batch| && k in Pending(table) - KeysOf(batch) :: Before(table[batch[i].key], table[k]))
  }

  /* ---- Revisions ---- */

  /** SQLite stores signed integers: queueing a larger revision fails. */
  const I64_MAX: nat := 0x7FFF_FFFF_FFFF_FFFF

  function RevisionAfter(current: u64, observed: u64): u64 {
    var next := SatAdd(current, 1);
    if observed < next then next else observed
  }

  /** Revisions are never behind what was observed, and they rise strictly as long as the counter
      has not reached its end - by no more than that takes. */
  lemma {:induction false} RevisionsRise(current: u64, observed: u64)
    ensures observed <= RevisionAfter(current, observed)
    ensures current < RevisionAfter(current, observed) <==> current < 0xFFFF_FFFF_FFFF_FFFF
    ensures RevisionAfter(current, observed) == observed || RevisionAfter(current, observed) <= current + 1
  {}

  /* ---- The state ---- */

  class LocalState {
    var outbox: Table
    var lastRevision: Option<u64>

    ghost predicate Valid()
      reads this
    {
      Filed(outbox)
    }

    constructor ()
      ensures Valid() && outbox == map[] && lastRevision == None
    {
      outbox := map[];
      lastRevision := None;
    }

    /** The stored counter, zero if there is none */
    function Counter(): u64
      reads this
    {
      if lastRevision.Some? then lastRevision.value else 0
    }

    method NextRevision(observed: u64) returns (revision: u64)
      modifies this`lastRevision
      ensures revision == RevisionAfter(old(Counter()), observed) == Counter()
    {
      var current := Counter();
      revision := SatAdd(current, 1);
      if revision < observed {
        revision := observed;
      }
      lastRevision := Some(revision);
    }

    method QueueSnapshot(snapshot: Snapshot, now: int) returns (ok: bool)
      requires Valid()
      modifies this`outbox
      ensures Valid()
      ensures ok <==> snapshot.revision <= 0x7FFF_FFFF_FFFF_FFFF
      ensures outbox == if ok then Upsert(old(outbox), snapshot, now) else old(outbox)
      ensures var k := snapshot.key;
              if ok && (k in old(outbox) ==> old(outbox)[k].snapshot.revision <= snapshot.revision) then
                k in outbox && outbox[k].snapshot == snapshot && outbox[k].acknowledgedAt == None
                && outbox[k].updatedAt == now && outbox - {k} == old(outbox) - {k}
              else outbox == old(outbox)
    {
      if snapshot.revision > I64_MAX {
        return false;
      }
      if snapshot.key !in outbox || outbox[snapshot.key].snapshot.revision <= snapshot.revision {
        outbox := outbox[snapshot.key := Row(snapshot, None, now)];
      }
      ok := true;
    }

    method PendingBatch(limit: nat) returns (batch: seq<Snapshot>)
      requires Valid()
      ensures Waiting(outbox, batch) && Oldest(outbox, batch)
      ensures |batch| == Min(limit, |Pending(outbox)|)
      ensures |batch| < limit ==> KeysOf(batch) == Pending(outbox)
    {
      batch := [];
      ghost var pending := Pending(outbox);
      var left := Pending(outbox);
      while |batch| < limit && left != {}
        invariant Waiting(outbox, batch) && Oldest(outbox, batch)
        invariant left == Pending(outbox) - KeysOf(batch)
        invariant |left| + |batch| == |Pending(outbox)| && |batch| <= limit
        decreases left
      {
        var first := FirstOf(outbox, left);
        BatchGrows(outbox, batch, left, first);
        batch := batch + [outbox[first].snapshot];
        left := left - {first};
      }
    }

    method Acknowledge(snapshots: seq<Snapshot>, now: int)
      requires Valid()
      modifies this`outbox
      ensures Valid()
      ensures outbox == MarkAll(old(outbox), snapshots, now)
      ensures outbox.Keys == old(outbox).Keys
      ensures forall k | k in outbox ::
                outbox[k] == if ListedFor(old(outbox)[k], snapshots)
                             then old(outbox)[k].(acknowledgedAt := Some(now)) else old(outbox)[k]
    {
      ghost var before := outbox;
      for i := 0 to |snapshots|
        invariant Valid() && outbox == MarkAll(old(outbox), snapshots[..i], now)
      {
        assert snapshots[..i + 1][..i] == snapshots[..i];
        var s := snapshots[i];
        if s.key in outbox && outbox[s.key].snapshot.revision <= s.revision {
          outbox := outbox[s.key := outbox[s.key].(acknowledgedAt := Some(now))];
        }
      }
      assert snapshots[..|snapshots|] == snapshots;
      AcknowledgedRows(before, snapshots, now);
    }

    method AcknowledgeSessionKeys(snapshots: seq<Snapshot>, sessionKeys: seq<Key>, now: int)
      requires Valid()
      modifies this`outbox
      ensures Valid()
      ensures outbox == MarkAll(old(outbox), Named(snapshots, sessionKeys), now)
      ensures outbox.Keys == old(outbox).Keys
      ensures forall k | k in outbox ::
                outbox[k] == if k in sessionKeys && ListedFor(old(outbox)[k], snapshots)
                             then old(outbox)[k].(acknowledgedAt := Some(now)) else old(outbox)[k]
    {
      ghost var before := outbox;
      if |sessionKeys| == 0 {
        NothingNamed(snapshots);
        return;
      }
      for i := 0 to |snapshots|
        invariant Valid() && outbox == MarkAll(old(outbox), Named(snapshots[..i], sessionKeys), now)
      {
        assert snapshots[..i + 1][..i] == snapshots[..i];
        var s := snapshots[i];
        ghost var named := Named(snapshots[..i], sessionKeys);
        assert named + [] == named;
        if s.key in sessionKeys {
          assert (named + [s])[..|named|] == named;
          if s.key in outbox && outbox[s.key].snapshot.revision <= s.revision {
            outbox := outbox[s.key := outbox[s.key].(acknowledgedAt := Some(now))];
          }
        }
      }
      assert snapshots[..|snapshots|] == snapshots;
      AcknowledgedByName(before, snapshots, sessionKeys, now);
    }

    method PruneExpiredRows(cutoff: int)
      requires Valid()
      modifies this`outbox
      ensures Valid()
      ensures outbox == Pruned(old(outbox), cutoff)
      ensures forall k :: k in outbox <==>
                && k in old(outbox)
                && (old(outbox)[k].acknowledgedAt.Some? ==> cutoff <= old(outbox)[k].acknowledgedAt.value)
      ensures forall k | k in outbox :: outbox[k] == old(outbox)[k]
    {
      outbox := map k | k in outbox && !Expired(outbox[k], cutoff) :: outbox[k];
    }

    /** What `upload` does with the server's answer to `batch` */
    method ProcessAnswer(batch: seq<Snapshot>, ack: IngestAck, now: int) returns (uploaded: Option<nat>)
      requires Valid()
      modifies this`outbox
      ensures Valid()
      ensures outbox == Answered(old(outbox), batch, ack, now)
      ensures outbox.Keys == old(outbox).Keys
      ensures forall k | k in outbox ::
                var counts := ack.rejected == 0 || k in ack.acceptedSessionKeys || k in ack.rejectedSessionKeys;
                outbox[k] == if counts && ListedFor(old(outbox)[k], batch)
                             then old(outbox)[k].(acknowledgedAt := Some(now)) else old(outbox)[k]
      ensures uploaded == if ack.rejected > 0 then None else Some(ack.accepted + ack.duplicates)
    {
      if ack.rejected > 0 {
        if |ack.acceptedSessionKeys| > 0 || |ack.rejectedSessionKeys| > 0 {
          AcknowledgeSessionKeys(batch, ack.acceptedSessionKeys, now);
          AcknowledgeSessionKeys(batch, ack.rejectedSessionKeys, now);
        } else {
          NothingNamed(batch);
        }
        return None;
      }
      Acknowledge(batch, now);
      return Some(ack.accepted + ack.duplicates);
    }
  }

  method FirstOf(table: Table, keys: set<Key>) returns (first: Key)
    requires Filed(table) && keys <= table.Keys && keys != {}
    ensures first in keys && forall k | k in keys && k != first :: Before(table[first], table[k])
  {
    first :| first in keys;
    var left := keys - {first};
    while left != {}
      invariant left <= keys && first in keys && first !in left
      invariant forall k | k in keys - left && k != first :: Before(table[first], table[k])
      decreases left
    {
      var k :| k in left;
      if Before(table[k], table[first]) {
        first := k;
      }
      left := left - {k};
    }
  }

  lemma {:induction false} BatchGrows(table: Table, batch: seq<Snapshot>, left: set<Key>, first: Key)
    requires Filed(table) && Waiting(table, batch) && Oldest(table, batch)
    requires left == Pending(table) - KeysOf(batch)
    requires first in left && forall k | k in left && k != first :: Before(table[first], table[k])
    ensures var longer := batch + [table[first].snapshot];
            && Waiting(table, longer) && Oldest(table, longer)
            && left - {first} == Pending(table) - KeysOf(longer)
  {
    var longer := batch + [table[first].snapshot];
    assert KeysOf(longer) == KeysOf(batch) + {first} by {
      assert longer[|batch|].key == first;
      assert forall i | 0 <= i < |batch| :: longer[i] == batch[i];
    }
    forall i, j | 0 <= i < j < |longer|
      ensures longer[i].key != longer[j].key
    {
      assert batch[i].key in KeysOf(batch);
    }
  }

  /* ---- Acknowledgements ---- */

  datatype IngestAck = IngestAck(
    accepted: nat,
    duplicates: nat,
    rejected: nat,
    acceptedSessionKeys: seq<Key>,
    rejectedSessionKeys: seq<Key>)

  function Named(snapshots: seq<Snapshot>, keys: seq<Key>): seq<Snapshot> {
    if snapshots == [] then []
    else
      var last := snapshots[|snapshots| - 1];
      Named(snapshots[..|snapshots| - 1], keys) + if last.key in keys then [last] else []
  }

  lemma {:induction false} NothingNamed(snapshots: seq<Snapshot>)
    ensures Named(snapshots, []) == []
  {
    if snapshots != [] {
      NothingNamed(snapshots[..|snapshots| - 1]);
    }
  }

  function Answered(table: Table, batch: seq<Snapshot>, ack: IngestAck, now: int): Table {
    if ack.rejected > 0 then
      MarkAll(MarkAll(table, Named(batch, ack.acceptedSessionKeys), now), Named(batch, ack.rejectedSessionKeys), now)
    else MarkAll(table, batch, now)
  }

  /* ---- What acknowledgements do ---- */

  predicate Confirmed(table: Table, snapshots: seq<Snapshot>, k: Key) {
    k in table && exists i :: 0 <= i < |snapshots| && Covers(snapshots[i], table[k])
  }

  /** A row is acknowledged when a snapshot at least as new is among those named, and is left as it
      was otherwise - in particular when every snapshot named is older: a late acknowledgement never
      hides a newer revision. */
  lemma {:induction false} MarkAllAt(table: Table, snapshots: seq<Snapshot>, now: int, k: Key)
    requires Filed(table)
    ensures Filed(MarkAll(table, snapshots, now)) && MarkAll(table, snapshots, now).Keys == table.Keys
    ensures k in table ==>
              MarkAll(table, snapshots, now)[k]
              == if Confirmed(table, snapshots, k) then table[k].(acknowledgedAt := Some(now)) else table[k]
  {
    if snapshots != [] {
      var front, last := snapshots[..|snapshots| - 1], snapshots[|snapshots| - 1];
      MarkAllAt(table, front, now, k);
      MarkAllAt(table, front, now, last.key);
      if k in table && Confirmed(table, front, k) {
        var i :| 0 <= i < |front| && Covers(front[i], table[k]);
        assert Covers(snapshots[i], table[k]);
      }
      assert k in table && Covers(last, table[k]) ==> Covers(snapshots[|front|], table[k]);
    }
  }

  /** A snapshot of the row's session that is at least as new is on the list. */
  predicate ListedFor(row: Row, snapshots: seq<Snapshot>) {
    exists i :: 0 <= i < |snapshots|
      && snapshots[i].key == row.snapshot.key && row.snapshot.revision <= snapshots[i].revision
  }

  lemma {:induction false} ListedIsConfirmed(table: Table, snapshots: seq<Snapshot>, k: Key)
    requires k in table
    ensures Confirmed(table, snapshots, k) <==> ListedFor(table[k], snapshots)
  {
    if i :| 0 <= i < |snapshots| && snapshots[i].key == table[k].snapshot.key
            && table[k].snapshot.revision <= snapshots[i].revision {
      assert Covers(snapshots[i], table[k]);
    }
  }

  /** The same for all rows */
  lemma {:induction false} AcknowledgedRows(table: Table, snapshots: seq<Snapshot>, now: int)
    requires Filed(table)
    ensures Filed(MarkAll(table, snapshots, now)) && MarkAll(table, snapshots, now).Keys == table.Keys
    ensures forall k | k in table ::
              MarkAll(table, snapshots, now)[k]
              == if ListedFor(table[k], snapshots) then table[k].(acknowledgedAt := Some(now)) else table[k]
  {
    MarkAllAt(table, snapshots, now, 0);
    forall k | k in table
      ensures MarkAll(table, snapshots, now)[k]
           == if ListedFor(table[k], snapshots) then table[k].(acknowledgedAt := Some(now)) else table[k]
    {
      MarkAllAt(table, snapshots, now, k);
      ListedIsConfirmed(table, snapshots, k);
    }
  }

  lemma {:induction false} NamedListed(row: Row, snapshots: seq<Snapshot>, keys: seq<Key>)
    ensures ListedFor(row, Named(snapshots, keys)) <==> row.snapshot.key in keys && ListedFor(row, snapshots)
  {
    var named := Named(snapshots, keys);
    if i :| 0 <= i < |named| && named[i].key == row.snapshot.key && row.snapshot.revision <= named[i].revision {
      NamedAre(snapshots, keys, named[i]);
      var j :| 0 <= j < |snapshots| && snapshots[j] == named[i];
    }
    if row.snapshot.key in keys {
      if i :| 0 <= i < |snapshots| && snapshots[i].key == row.snapshot.key
              && row.snapshot.revision <= snapshots[i].revision {
        NamedAre(snapshots, keys, snapshots[i]);
        var j :| 0 <= j < |named| && named[j] == snapshots[i];
      }
    }
  }

  lemma {:induction false} AcknowledgedByName(table: Table, snapshots: seq<Snapshot>, keys: seq<Key>, now: int)
    requires Filed(table)
    ensures var after := MarkAll(table, Named(snapshots, keys), now);
            && Filed(after) && after.Keys == table.Keys
            && forall k | k in table ::
                 after[k] == if k in keys && ListedFor(table[k], snapshots)
                             then table[k].(acknowledgedAt := Some(now)) else table[k]
  {
    AcknowledgedRows(table, Named(snapshots, keys), now);
    forall k | k in table
      ensures ListedFor(table[k], Named(snapshots, keys)) <==> k in keys && ListedFor(table[k], snapshots)
    {
      NamedListed(table[k], snapshots, keys);
    }
  }

  lemma {:induction false} CountKeys(batch: seq<Snapshot>)
    requires DistinctKeys(batch)
    ensures |KeysOf(batch)| == |batch|
  {
    if batch != [] {
      var front, last := batch[..|batch| - 1], batch[|batch| - 1];
      CountKeys(front);
      assert last.key !in KeysOf(front);
      assert KeysOf(batch) == KeysOf(front) + {last.key};
    }
  }

  lemma {:induction false} ConfirmedByName(table: Table, batch: seq<Snapshot>, k: Key)
    requires Filed(table) && Waiting(table, batch) && k in table
    ensures Confirmed(table, batch, k) <==> k in KeysOf(batch)
  {
    if k in KeysOf(batch) {
      var i :| 0 <= i < |batch| && batch[i].key == k;
      assert Covers(batch[i], table[k]);
    }
  }

  lemma {:induction false} NamedAre(batch: seq<Snapshot>, keys: seq<Key>, s: Snapshot)
    ensures s in Named(batch, keys) <==> s in batch && s.key in keys
  {
    if batch != [] {
      NamedAre(batch[..|batch| - 1], keys, s);
      assert batch == batch[..|batch| - 1] + [batch[|batch| - 1]];
    }
  }

  /** The answer accounts for every snapshot of the batch. */
  predicate Complete(batch: seq<Snapshot>, ack: IngestAck) {
    ack.rejected > 0 ==> forall i | 0 <= i < |batch| ::
      batch[i].key in ack.acceptedSessionKeys || batch[i].key in ack.rejectedSessionKeys
  }

  lemma {:induction false} AnsweredAt(table: Table, batch: seq<Snapshot>, ack: IngestAck, now: int, k: Key)
    requires Filed(table) && Waiting(table, batch) && Complete(batch, ack)
    ensures Answered(table, batch, ack, now).Keys == table.Keys
    ensures k in Pending(Answered(table, batch, ack, now)) <==> k in Pending(table) && k !in KeysOf(batch)
  {
    if ack.rejected > 0 {
      var a, r := Named(batch, ack.acceptedSessionKeys), Named(batch, ack.rejectedSessionKeys);
      var middle := MarkAll(table, a, now);
      MarkAllAt(table, a, now, k);
      MarkAllAt(middle, r, now, k);
      if k in table {
        NamedConfirms(table, batch, ack.acceptedSessionKeys, k);
        NamedConfirms(table, batch, ack.rejectedSessionKeys, k);
        assert Confirmed(middle, r, k) <==> Confirmed(table, r, k);
        if k in KeysOf(batch) {
          var i :| 0 <= i < |batch| && batch[i].key == k;
        }
      }
    } else {
      MarkAllAt(table, batch, now, k);
      if k in table {
        ConfirmedByName(table, batch, k);
      }
    }
  }

  lemma {:induction false} NamedConfirms(table: Table, batch: seq<Snapshot>, keys: seq<Key>, k: Key)
    requires Filed(table) && Waiting(table, batch) && k in table
    ensures Confirmed(table, Named(batch, keys), k) <==> k in KeysOf(batch) && k in keys
  {
    var named := Named(batch, keys);
    if Confirmed(table, named, k) {
      var i :| 0 <= i < |named| && Covers(named[i], table[k]);
      NamedAre(batch, keys, named[i]);
      assert named[i] in named;
    }
    if k in KeysOf(batch) && k in keys {
      var i :| 0 <= i < |batch| && batch[i].key == k;
      NamedAre(batch, keys, batch[i]);
      var j :| 0 <= j < |named| && named[j] == batch[i];
      assert Covers(named[j], table[k]);
    }
  }

  /** Progress: as long as nothing is queued meanwhile, an answer that accounts for the whole batch
      takes exactly the batch out of the queue - even when rows were rejected. */
  lemma {:induction false} UploadProgress(table: Table, batch: seq<Snapshot>, ack: IngestAck, now: int)
    requires Filed(table) && Waiting(table, batch) && Complete(batch, ack)
    ensures Pending(Answered(table, batch, ack, now)) == Pending(table) - KeysOf(batch)
    ensures |Pending(Answered(table, batch, ack, now))| == |Pending(table)| - |batch|
  {
    forall k
      ensures k in Pending(Answered(table, batch, ack, now)) <==> k in Pending(table) && k !in KeysOf(batch)
    {
      AnsweredAt(table, batch, ack, now, k);
    }
    CountKeys(batch);
    assert KeysOf(batch) <= Pending(table);
  }

  lemma {:induction false} AnsweredKeepsFiled(table: Table, batch: seq<Snapshot>, ack: IngestAck, now: int)
    requires Filed(table)
    ensures Filed(Answered(table, batch, ack, now))
  {
    if ack.rejected > 0 {
      var accepted := MarkAll(table, Named(batch, ack.acceptedSessionKeys), now);
      MarkAllAt(table, Named(batch, ack.acceptedSessionKeys), now, 0);
      MarkAllAt(accepted, Named(batch, ack.rejectedSessionKeys), now, 0);
    } else {
      MarkAllAt(table, batch, now, 0);
    }
  }
}
