/** `ingest_sessions`: the server's side of an upload. */
module Ingestion {
  /* The table of sessions keeps, per owner and session, the row with the highest revision
     (`ReplacingMergeTree(revision)`, read with `FINAL`; of equal revisions the last written). */

  import opened Ledgers
  import opened Text
  import opened Outbox
  import F = Framing

  type Owner = nat
  type Installation = nat
  type RowKey = (Owner, Key)
  type Rows = map<RowKey, Snapshot>

  /** One row written */
  function Merge(rows: Rows, owner: Owner, s: Snapshot): Rows {
    if (owner, s.key) in rows && s.revision < rows[(owner, s.key)].revision then rows
    else rows[(owner, s.key) := s]
  }

  datatype Delivery = Delivery(owner: Owner, snapshot: Snapshot)

  function RowOf(d: Delivery): RowKey {
    (d.owner, d.snapshot.key)
  }

  function MergeAll(rows: Rows, ds: seq<Delivery>): Rows {
    if ds == [] then rows
    else Merge(MergeAll(rows, ds[..|ds| - 1]), ds[|ds| - 1].owner, ds[|ds| - 1].snapshot)
  }

  /* ---- Duplicates and reordering ---- */

  predicate Delivered(ds: seq<Delivery>, k: RowKey) {
    exists i :: 0 <= i < |ds| && RowOf(ds[i]) == k
  }

  /** Delivery `i` has the session's highest revision, and is the last one that has. */
  predicate LastOfHighest(ds: seq<Delivery>, k: RowKey, i: nat) {
    && i < |ds| && RowOf(ds[i]) == k
    && (forall j | 0 <= j < |ds| && RowOf(ds[j]) == k :: ds[j].snapshot.revision <= ds[i].snapshot.revision)
    && (forall j | i < j < |ds| && RowOf(ds[j]) == k :: ds[j].snapshot.revision < ds[i].snapshot.revision)
  }

  lemma {:induction false} DeliveredSnoc(ds: seq<Delivery>, d: Delivery, k: RowKey)
    ensures Delivered(ds + [d], k) <==> Delivered(ds, k) || RowOf(d) == k
  {
    assert (ds + [d])[|ds|] == d;
    assert forall i | 0 <= i < |ds| :: (ds + [d])[i] == ds[i];
  }

  lemma {:induction false} HighestStays(ds: seq<Delivery>, d: Delivery, k: RowKey, i: nat)
    requires LastOfHighest(ds, k, i) && (RowOf(d) == k ==> d.snapshot.revision < ds[i].snapshot.revision)
    ensures LastOfHighest(ds + [d], k, i)
  {
    assert forall j | 0 <= j < |ds| :: (ds + [d])[j] == ds[j];
  }

  lemma {:induction false} HighestMoves(ds: seq<Delivery>, d: Delivery, k: RowKey)
    requires RowOf(d) == k
    requires forall j | 0 <= j < |ds| && RowOf(ds[j]) == k :: ds[j].snapshot.revision <= d.snapshot.revision
    ensures LastOfHighest(ds + [d], k, |ds|)
  {
    assert forall j | 0 <= j < |ds| :: (ds + [d])[j] == ds[j];
  }

  /** The table holds, per session, the delivered snapshot of the highest revision, and of several the
      one that came last. */
  lemma {:induction false} MergeAllIsMaximum(ds: seq<Delivery>, k: RowKey)
    ensures k in MergeAll(map[], ds) <==> Delivered(ds, k)
    ensures k in MergeAll(map[], ds) ==>
              exists i :: 0 <= i < |ds| && LastOfHighest(ds, k, i) && ds[i].snapshot == MergeAll(map[], ds)[k]
  {
    if ds != [] {
      var front, last := ds[..|ds| - 1], ds[|ds| - 1];
      var before := MergeAll(map[], front);
      assert ds == front + [last];
      MergeAllIsMaximum(front, k);
      DeliveredSnoc(front, last, k);
      if k in before && (RowOf(last) == k ==> last.snapshot.revision < before[k].revision) {
        var i :| 0 <= i < |front| && LastOfHighest(front, k, i) && front[i].snapshot == before[k];
        HighestStays(front, last, k, i);
        assert ds[i].snapshot == MergeAll(map[], ds)[k];
      } else if RowOf(last) == k {
        if k in before {
          var i :| 0 <= i < |front| && LastOfHighest(front, k, i) && front[i].snapshot == before[k];
        }
        HighestMoves(front, last, k);
      }
    }
  }

  /** A session never has two snapshots of the same revision. */
  predicate Unambiguous(ds: seq<Delivery>) {
    forall i, j | && 0 <= i < |ds| && 0 <= j < |ds|
                  && RowOf(ds[i]) == RowOf(ds[j]) && ds[i].snapshot.revision == ds[j].snapshot.revision ::
      ds[i] == ds[j]
  }

  predicate SameDeliveries(a: seq<Delivery>, b: seq<Delivery>) {
    && (forall i | 0 <= i < |a| :: a[i] in b)
    && (forall j | 0 <= j < |b| :: b[j] in a)
  }

  lemma {:induction false} DeliveredInBoth(a: seq<Delivery>, b: seq<Delivery>, k: RowKey)
    requires SameDeliveries(a, b) && k in MergeAll(map[], a)
    ensures k in MergeAll(map[], b)
    ensures MergeAll(map[], a)[k].revision <= MergeAll(map[], b)[k].revision
  {
    MergeAllIsMaximum(a, k);
    MergeAllIsMaximum(b, k);
    var i :| 0 <= i < |a| && RowOf(a[i]) == k && a[i].snapshot == MergeAll(map[], a)[k];
    var j :| 0 <= j < |b| && b[j] == a[i];
  }

  /** Delivering the same snapshots any number of times in any order gives the same table. */
  lemma {:induction false} DeliveryOrderIrrelevant(a: seq<Delivery>, b: seq<Delivery>)
    requires SameDeliveries(a, b) && Unambiguous(a)
    ensures MergeAll(map[], a) == MergeAll(map[], b)
  {
    var x, y := MergeAll(map[], a), MergeAll(map[], b);
    forall k
      ensures k in x <==> k in y
      ensures k in x ==> x[k] == y[k]
    {
      if k in x {
        DeliveredInBoth(a, b, k);
      }
      if k in y {
        DeliveredInBoth(b, a, k);
        MergeAllIsMaximum(a, k);
        MergeAllIsMaximum(b, k);
        var i :| 0 <= i < |a| && RowOf(a[i]) == k && a[i].snapshot == x[k];
        var j :| 0 <= j < |b| && RowOf(b[j]) == k && b[j].snapshot == y[k];
        var m :| 0 <= m < |a| && a[m] == b[j];
      }
    }
  }

  /* ---- One upload ---- */

  const MAX_BATCH_SNAPSHOTS := 1000

  /** The snapshots that pass validation, or those that do not */
  function Passing(snapshots: seq<Snapshot>, valid: Snapshot -> bool, passes: bool): seq<Snapshot> {
    if snapshots == [] then []
    else
      var last := snapshots[|snapshots| - 1];
      Passing(snapshots[..|snapshots| - 1], valid, passes) + if valid(last) == passes then [last] else []
  }

  function Keys(snapshots: seq<Snapshot>): (r: seq<Key>)
    ensures |r| == |snapshots|
    ensures forall i | 0 <= i < |snapshots| :: r[i] == snapshots[i].key
  {
    seq(|snapshots|, i requires 0 <= i < |snapshots| => snapshots[i].key)
  }

  function From(owner: Owner, snapshots: seq<Snapshot>): (r: seq<Delivery>)
    ensures |r| == |snapshots|
    ensures forall i | 0 <= i < |snapshots| :: r[i] == Delivery(owner, snapshots[i])
  {
    seq(|snapshots|, i requires 0 <= i < |snapshots| => Delivery(owner, snapshots[i]))
  }

  function Duplicate(snapshots: seq<Snapshot>): IngestAck {
    IngestAck(0, |snapshots|, 0, [], [])
  }

  function Verdicts(snapshots: seq<Snapshot>, valid: Snapshot -> bool): IngestAck {
    var accepted, rejected := Passing(snapshots, valid, true), Passing(snapshots, valid, false);
    IngestAck(|accepted|, 0, |rejected|, Keys(accepted), Keys(rejected))
  }

  lemma {:induction false} VerdictsSnoc(snapshots: seq<Snapshot>, s: Snapshot, valid: Snapshot -> bool)
    ensures var ack, more := Verdicts(snapshots, valid), Verdicts(snapshots + [s], valid);
            more == if valid(s)
                    then ack.(accepted := ack.accepted + 1, acceptedSessionKeys := ack.acceptedSessionKeys + [s.key])
                    else ack.(rejected := ack.rejected + 1, rejectedSessionKeys := ack.rejectedSessionKeys + [s.key])
  {
    assert (snapshots + [s])[..|snapshots|] == snapshots;
    assert Keys(Passing(snapshots, valid, true) + [s]) == Keys(Passing(snapshots, valid, true)) + [s.key];
    assert Keys(Passing(snapshots, valid, false) + [s]) == Keys(Passing(snapshots, valid, false)) + [s.key];
    assert Passing(snapshots, valid, true) + [] == Passing(snapshots, valid, true);
    assert Passing(snapshots, valid, false) + [] == Passing(snapshots, valid, false);
  }

  lemma {:induction false} PassingAre(snapshots: seq<Snapshot>, valid: Snapshot -> bool, passes: bool, s: Snapshot)
    ensures s in Passing(snapshots, valid, passes) <==> s in snapshots && valid(s) == passes
  {
    if snapshots != [] {
      PassingAre(snapshots[..|snapshots| - 1], valid, passes, s);
      assert snapshots == snapshots[..|snapshots| - 1] + [snapshots[|snapshots| - 1]];
    }
  }

  /** The answer names every snapshot of the batch exactly once. */
  lemma {:induction false} VerdictsPartition(snapshots: seq<Snapshot>, valid: Snapshot -> bool)
    ensures Complete(snapshots, Verdicts(snapshots, valid))
    ensures Verdicts(snapshots, valid).accepted + Verdicts(snapshots, valid).rejected == |snapshots|
    ensures multiset(Passing(snapshots, valid, true)) + multiset(Passing(snapshots, valid, false))
         == multiset(snapshots)
  {
    VerdictsCount(snapshots, valid);
    forall i | 0 <= i < |snapshots|
      ensures
        || snapshots[i].key in Verdicts(snapshots, valid).acceptedSessionKeys
        || snapshots[i].key in Verdicts(snapshots, valid).rejectedSessionKeys
    {
      var s := snapshots[i];
      PassingAre(snapshots, valid, valid(s), s);
      var named := Passing(snapshots, valid, valid(s));
      var j :| 0 <= j < |named| && named[j] == s;
      assert Keys(named)[j] == s.key;
    }
  }

  lemma {:induction false} VerdictsCount(snapshots: seq<Snapshot>, valid: Snapshot -> bool)
    ensures |Passing(snapshots, valid, true)| + |Passing(snapshots, valid, false)| == |snapshots|
    ensures multiset(Passing(snapshots, valid, true)) + multiset(Passing(snapshots, valid, false))
         == multiset(snapshots)
  {
    if snapshots != [] {
      var front, last := snapshots[..|snapshots| - 1], snapshots[|snapshots| - 1];
      VerdictsCount(front, valid);
      assert snapshots == front + [last];
      PassingSnoc(front, last, valid, true);
      PassingSnoc(front, last, valid, false);
    }
  }

  lemma {:induction false} PassingSnoc(snapshots: seq<Snapshot>, s: Snapshot, valid: Snapshot -> bool, passes: bool)
    ensures |Passing(snapshots + [s], valid, passes)|
         == |Passing(snapshots, valid, passes)| + if valid(s) == passes then 1 else 0
    ensures multiset(Passing(snapshots + [s], valid, passes))
         == multiset(Passing(snapshots, valid, passes)) + if valid(s) == passes then multiset{s} else multiset{}
  {
    assert (snapshots + [s])[..|snapshots|] == snapshots;
  }

  /** Whichever way the server answers a batch, the client's queue gets shorter by that batch. */
  lemma {:induction false} EveryAnswerMakesProgress(table: Table, batch: seq<Snapshot>, ack: IngestAck,
                                                    valid: Snapshot -> bool, now: int)
    requires Filed(table) && Waiting(table, batch)
    requires ack == Duplicate(batch) || ack == Verdicts(batch, valid)
    ensures |Pending(Answered(table, batch, ack, now))| == |Pending(table)| - |batch|
  {
    VerdictsPartition(batch, valid);
    UploadProgress(table, batch, ack, now);
  }

  /** The table after the valid snapshots of a batch were written */
  function Store(rows: Rows, owner: Owner, snapshots: seq<Snapshot>, valid: Snapshot -> bool): Rows {
    MergeAll(rows, From(owner, Passing(snapshots, valid, true)))
  }

  lemma {:induction false} MergeAllSnoc(rows: Rows, ds: seq<Delivery>, d: Delivery)
    ensures MergeAll(rows, ds + [d]) == Merge(MergeAll(rows, ds), d.owner, d.snapshot)
  {
    assert (ds + [d])[..|ds|] == ds;
  }

  lemma {:induction false} FromSnoc(owner: Owner, snapshots: seq<Snapshot>, s: Snapshot)
    ensures From(owner, snapshots + [s]) == From(owner, snapshots) + [Delivery(owner, s)]
  {}

  lemma {:induction false} PassingNext(snapshots: seq<Snapshot>, s: Snapshot, valid: Snapshot -> bool, passes: bool)
    ensures Passing(snapshots + [s], valid, passes)
         == if valid(s) == passes then Passing(snapshots, valid, passes) + [s] else Passing(snapshots, valid, passes)
  {
    assert (snapshots + [s])[..|snapshots|] == snapshots;
    assert Passing(snapshots, valid, passes) + [] == Passing(snapshots, valid, passes);
  }

  lemma {:induction false} StoreSnoc(rows: Rows, owner: Owner, snapshots: seq<Snapshot>, s: Snapshot,
                                     valid: Snapshot -> bool)
    ensures Store(rows, owner, snapshots + [s], valid)
         == if valid(s) then Merge(Store(rows, owner, snapshots, valid), owner, s)
            else Store(rows, owner, snapshots, valid)
  {
    var so := Passing(snapshots, valid, true);
    PassingNext(snapshots, s, valid, true);
    FromSnoc(owner, so, s);
    MergeAllSnoc(rows, From(owner, so), Delivery(owner, s));
  }

  /** Some snapshot passes validation at first, but not with the server's prices. */
  predicate Breaks(snapshots: seq<Snapshot>, valid: Snapshot -> bool, validPriced: Snapshot -> bool) {
    exists i :: 0 <= i < |snapshots| && valid(snapshots[i]) && !validPriced(snapshots[i])
  }

  /** The server's answer: none when the batch is too large or a snapshot no longer validates once it
      is priced, "duplicate" when the batch is on record, and its verdicts otherwise */
  function AnswerTo(completed: set<(Installation, F.Bytes)>, id: (Installation, F.Bytes), snapshots: seq<Snapshot>,
                    valid: Snapshot -> bool, validPriced: Snapshot -> bool): Option<IngestAck> {
    if |snapshots| > MAX_BATCH_SNAPSHOTS then None
    else if id in completed then Some(Duplicate(snapshots))
    else if Breaks(snapshots, valid, validPriced) then None
    else Some(Verdicts(snapshots, valid))
  }

  /* ---- What a stored batch leaves, told from its snapshots ---- */

  /** Snapshot `i` is a valid one of the session with the highest revision, and the last one that is. */
  predicate Latest(snapshots: seq<Snapshot>, valid: Snapshot -> bool, k: Key, i: nat) {
    && i < |snapshots| && snapshots[i].key == k && valid(snapshots[i])
    && (forall j | 0 <= j < |snapshots| && snapshots[j].key == k && valid(snapshots[j]) ::
          snapshots[j].revision <= snapshots[i].revision)
    && (forall j | i < j < |snapshots| && snapshots[j].key == k && valid(snapshots[j]) ::
          snapshots[j].revision < snapshots[i].revision)
  }

  predicate HasValid(snapshots: seq<Snapshot>, valid: Snapshot -> bool, k: Key) {
    exists i :: 0 <= i < |snapshots| && snapshots[i].key == k && valid(snapshots[i])
  }

  /** What a session's row becomes: the latest valid snapshot of the batch, unless the row is newer */
  ghost predicate RowAfter(before: Option<Snapshot>, after: Option<Snapshot>, snapshots: seq<Snapshot>,
                           valid: Snapshot -> bool, k: Key) {
    if !HasValid(snapshots, valid, k) then after == before
    else
      exists i: nat :: Latest(snapshots, valid, k, i)
        && after == if before.Some? && snapshots[i].revision < before.value.revision then before
                    else Some(snapshots[i])
  }

  function Find(rows: Rows, rk: RowKey): Option<Snapshot> {
    if rk in rows then Some(rows[rk]) else None
  }

  lemma {:induction false} HasValidSnoc(snapshots: seq<Snapshot>, s: Snapshot, valid: Snapshot -> bool, k: Key)
    ensures HasValid(snapshots + [s], valid, k) <==> HasValid(snapshots, valid, k) || (s.key == k && valid(s))
  {
    assert (snapshots + [s])[|snapshots|] == s;
    assert forall i | 0 <= i < |snapshots| :: (snapshots + [s])[i] == snapshots[i];
  }

  lemma {:induction false} LatestStays(snapshots: seq<Snapshot>, s: Snapshot, valid: Snapshot -> bool, k: Key, i: nat)
    requires Latest(snapshots, valid, k, i)
    requires s.key == k && valid(s) ==> s.revision < snapshots[i].revision
    ensures Latest(snapshots + [s], valid, k, i)
  {
    assert forall j | 0 <= j < |snapshots| :: (snapshots + [s])[j] == snapshots[j];
  }

  lemma {:induction false} LatestMoves(snapshots: seq<Snapshot>, s: Snapshot, valid: Snapshot -> bool, k: Key)
    requires s.key == k && valid(s)
    requires forall j | 0 <= j < |snapshots| && snapshots[j].key == k && valid(snapshots[j]) ::
      snapshots[j].revision <= s.revision
    ensures Latest(snapshots + [s], valid, k, |snapshots|)
  {
    assert forall j | 0 <= j < |snapshots| :: (snapshots + [s])[j] == snapshots[j];
  }

  lemma {:induction false} RowAfterSnoc(before: Option<Snapshot>, after: Option<Snapshot>, snapshots: seq<Snapshot>,
                                        s: Snapshot, valid: Snapshot -> bool, k: Key)
    requires RowAfter(before, after, snapshots, valid, k)
    ensures var mine := s.key == k && valid(s);
            RowAfter(before,
                     if mine && !(after.Some? && s.revision < after.value.revision) then Some(s) else after,
                     snapshots + [s], valid, k)
  {
    HasValidSnoc(snapshots, s, valid, k);
    var longer := snapshots + [s];
    assert longer[|snapshots|] == s;
    if HasValid(snapshots, valid, k) {
      var i: nat :| Latest(snapshots, valid, k, i)
        && after == if before.Some? && snapshots[i].revision < before.value.revision then before
                    else Some(snapshots[i]);
      assert longer[i] == snapshots[i];
      if s.key == k && valid(s) && snapshots[i].revision <= s.revision {
        LatestMoves(snapshots, s, valid, k);
      } else {
        LatestStays(snapshots, s, valid, k, i);
      }
    } else if s.key == k && valid(s) {
      LatestMoves(snapshots, s, valid, k);
    }
  }

  lemma {:induction false} StoredRow(rows: Rows, owner: Owner, snapshots: seq<Snapshot>, valid: Snapshot -> bool,
                                     rk: RowKey)
    ensures var after := Store(rows, owner, snapshots, valid);
            if rk.0 == owner then RowAfter(Find(rows, rk), Find(after, rk), snapshots, valid, rk.1)
            else Find(after, rk) == Find(rows, rk)
  {
    if snapshots != [] {
      var front, last := snapshots[..|snapshots| - 1], snapshots[|snapshots| - 1];
      assert snapshots == front + [last];
      StoredRow(rows, owner, front, valid, rk);
      StoreSnoc(rows, owner, front, last, valid);
      if rk.0 == owner {
        RowAfterSnoc(Find(rows, rk), Find(Store(rows, owner, front, valid), rk), front, last, valid, rk.1);
      }
    }
  }

  lemma {:induction false} RowsStored(rows: Rows, owner: Owner, snapshots: seq<Snapshot>, valid: Snapshot -> bool)
    ensures var after := Store(rows, owner, snapshots, valid);
            forall rk: RowKey ::
              if rk.0 == owner then RowAfter(Find(rows, rk), Find(after, rk), snapshots, valid, rk.1)
              else Find(after, rk) == Find(rows, rk)
  {
    forall rk: RowKey
      ensures var after := Store(rows, owner, snapshots, valid);
              if rk.0 == owner then RowAfter(Find(rows, rk), Find(after, rk), snapshots, valid, rk.1)
              else Find(after, rk) == Find(rows, rk)
    {
      StoredRow(rows, owner, snapshots, valid, rk);
    }
  }

  /** What an answer with verdicts says about the batch */
  ghost predicate AnswersEach(ack: IngestAck, snapshots: seq<Snapshot>, valid: Snapshot -> bool) {
    && ack.duplicates == 0 && ack.accepted + ack.rejected == |snapshots|
    && |ack.acceptedSessionKeys| == ack.accepted && |ack.rejectedSessionKeys| == ack.rejected
    && (ack.rejected == 0 <==> forall i | 0 <= i < |snapshots| :: valid(snapshots[i]))
    && (forall k :: k in ack.acceptedSessionKeys <==>
          exists i :: 0 <= i < |snapshots| && valid(snapshots[i]) && snapshots[i].key == k)
    && (forall k :: k in ack.rejectedSessionKeys <==>
          exists i :: 0 <= i < |snapshots| && !valid(snapshots[i]) && snapshots[i].key == k)
  }

  lemma {:induction false} KeysOfPassing(snapshots: seq<Snapshot>, valid: Snapshot -> bool, passes: bool, k: Key)
    ensures k in Keys(Passing(snapshots, valid, passes))
       <==> exists i :: 0 <= i < |snapshots| && valid(snapshots[i]) == passes && snapshots[i].key == k
  {
    var passing := Passing(snapshots, valid, passes);
    if k in Keys(passing) {
      var j :| 0 <= j < |passing| && Keys(passing)[j] == k;
      PassingAre(snapshots, valid, passes, passing[j]);
      var i :| 0 <= i < |snapshots| && snapshots[i] == passing[j];
      assert valid(snapshots[i]) == passes && snapshots[i].key == k;
    }
    if i :| 0 <= i < |snapshots| && valid(snapshots[i]) == passes && snapshots[i].key == k {
      PassingAre(snapshots, valid, passes, snapshots[i]);
      var j :| 0 <= j < |passing| && passing[j] == snapshots[i];
      assert Keys(passing)[j] == k;
    }
  }

  lemma {:induction false} NothingFails(snapshots: seq<Snapshot>, valid: Snapshot -> bool)
    ensures Passing(snapshots, valid, false) == [] <==> forall i | 0 <= i < |snapshots| :: valid(snapshots[i])
  {
    if snapshots != [] {
      NothingFails(snapshots[..|snapshots| - 1], valid);
    }
  }

  lemma {:induction false} VerdictsAnswerEach(snapshots: seq<Snapshot>, valid: Snapshot -> bool)
    ensures AnswersEach(Verdicts(snapshots, valid), snapshots, valid)
  {
    VerdictsCount(snapshots, valid);
    NothingFails(snapshots, valid);
    forall k
      ensures k in Verdicts(snapshots, valid).acceptedSessionKeys <==>
              exists i :: 0 <= i < |snapshots| && valid(snapshots[i]) && snapshots[i].key == k
      ensures k in Verdicts(snapshots, valid).rejectedSessionKeys <==>
              exists i :: 0 <= i < |snapshots| && !valid(snapshots[i]) && snapshots[i].key == k
    {
      KeysOfPassing(snapshots, valid, true, k);
      KeysOfPassing(snapshots, valid, false, k);
    }
  }

  /** The outcome of an upload: no answer and no change when there are more than 1000 snapshots, or a
      snapshot no longer validates once it is priced; no change either for a known batch; otherwise the
      valid snapshots are stored and every snapshot is answered. */
  ghost predicate Ingested(before: Rows, after: Rows, known: bool, owner: Owner, snapshots: seq<Snapshot>,
                           valid: Snapshot -> bool, validPriced: Snapshot -> bool, answer: Option<IngestAck>) {
    if |snapshots| > 1000 then answer == None && after == before
    else if known then answer == Some(IngestAck(0, |snapshots|, 0, [], [])) && after == before
    else if exists i :: 0 <= i < |snapshots| && valid(snapshots[i]) && !validPriced(snapshots[i]) then
      answer == None && after == before
    else
      && answer.Some? && AnswersEach(answer.value, snapshots, valid)
      && forall rk: RowKey ::
           if rk.0 == owner then RowAfter(Find(before, rk), Find(after, rk), snapshots, valid, rk.1)
           else Find(after, rk) == Find(before, rk)
  }

  lemma {:induction false} IngestedAsAnswered(rows: Rows, completed: set<(Installation, F.Bytes)>,
                                              id: (Installation, F.Bytes), owner: Owner, snapshots: seq<Snapshot>,
                                              valid: Snapshot -> bool, validPriced: Snapshot -> bool)
    ensures var answer := AnswerTo(completed, id, snapshots, valid, validPriced);
            var after := if answer == None || id in completed then rows else Store(rows, owner, snapshots, valid);
            Ingested(rows, after, id in completed, owner, snapshots, valid, validPriced, answer)
  {
    VerdictsAnswerEach(snapshots, valid);
    RowsStored(rows, owner, snapshots, valid);
  }

  class Server {
    var rows: Rows
    var completed: set<(Installation, F.Bytes)>

    constructor ()
      ensures rows == map[] && completed == {}
    {
      rows := map[];
      completed := {};
    }

    /** `ingest_sessions` once the request has been admitted.  There is no answer, and nothing
        changes, when the batch is too large or a snapshot no longer validates once it is priced. */
    method IngestSessions(installation: Installation, owner: Owner, batchId: F.Bytes, snapshots: seq<Snapshot>,
                          valid: Snapshot -> bool, validPriced: Snapshot -> bool)
      returns (answer: Option<IngestAck>)
      modifies this
      ensures answer == AnswerTo(old(completed), (installation, batchId), snapshots, valid, validPriced)
      ensures rows == if answer == None || (installation, batchId) in old(completed) then old(rows)
                      else Store(old(rows), owner, snapshots, valid)
      ensures completed == if answer.Some? && answer.value.rejected == 0
                           then old(completed) + {(installation, batchId)} else old(completed)
      ensures Ingested(old(rows), rows, (installation, batchId) in old(completed), owner, snapshots, valid, validPriced,
                       answer)
    {
      IngestedAsAnswered(rows, completed, (installation, batchId), owner, snapshots, valid, validPriced);
      if |snapshots| > MAX_BATCH_SNAPSHOTS {
        return None;
      }
      if (installation, batchId) in completed {
        return Some(Duplicate(snapshots));
      }
      var ack := IngestAck(0, 0, 0, [], []);
      var inserted := rows;
      for i := 0 to |snapshots|
        invariant ack == Verdicts(snapshots[..i], valid)
        invariant rows == old(rows) && completed == old(completed)
        invariant inserted == Store(rows, owner, snapshots[..i], valid)
        invariant !Breaks(snapshots[..i], valid, validPriced)
      {
        var s := snapshots[i];
        assert snapshots[..i + 1] == snapshots[..i] + [s];
        VerdictsSnoc(snapshots[..i], s, valid);
        StoreSnoc(rows, owner, snapshots[..i], s, valid);
        if valid(s) {
          if !validPriced(s) {
            return None;
          }
          inserted := Merge(inserted, owner, s);
          ack := ack.(accepted := ack.accepted + 1, acceptedSessionKeys := ack.acceptedSessionKeys + [s.key]);
        } else {
          ack := ack.(rejected := ack.rejected + 1, rejectedSessionKeys := ack.rejectedSessionKeys + [s.key]);
        }
      }
      assert snapshots[..|snapshots|] == snapshots;
      rows := inserted;
      if ack.rejected == 0 {
        completed := completed + {(installation, batchId)};
      }
      return Some(ack);
    }
  }

  /* ---- Rounds of uploads ---- */

  /** What an upload meets: the batch it takes from the outbox, its id, the server's record, and what
      validates there */
  datatype Upload = Upload(
    batch: seq<Snapshot>,
    id: (Installation, F.Bytes),
    completed: set<(Installation, F.Bytes)>,
    valid: Snapshot -> bool,
    validPriced: Snapshot -> bool,
    now: int)

  function AnswerOf(u: Upload): Option<IngestAck> {
    AnswerTo(u.completed, u.id, u.batch, u.valid, u.validPriced)
  }

  /** One upload of the sessions waiting longest, with nothing queued meanwhile: `table` becomes
      `table'`.  The request does not fail as a whole on account of the prices. */
  predicate Round(table: Table, u: Upload, table': Table, limit: nat) {
    && Waiting(table, u.batch) && Oldest(table, u.batch) && |u.batch| == Min(limit, |Pending(table)|)
    && (u.id in u.completed || !Breaks(u.batch, u.valid, u.validPriced))
    && table' == if AnswerOf(u).Some? then Answered(table, u.batch, AnswerOf(u).value, u.now) else table
  }

  lemma {:induction false} RoundTakesBatch(table: Table, u: Upload, table': Table, limit: nat)
    requires Filed(table) && Round(table, u, table', limit) && limit <= MAX_BATCH_SNAPSHOTS
    ensures Filed(table') && |Pending(table')| == |Pending(table)| - Min(limit, |Pending(table)|)
  {
    EveryAnswerMakesProgress(table, u.batch, AnswerOf(u).value, u.valid, u.now);
    AnsweredKeepsFiled(table, u.batch, AnswerOf(u).value, u.now);
  }

  /** What is left of `pending` after so many rounds */
  function Left(pending: nat, limit: nat, rounds: nat): nat {
    if rounds * limit < pending then pending - rounds * limit else 0
  }

  lemma {:induction false} LeftNext(pending: nat, limit: nat, rounds: nat)
    ensures Left(pending, limit, rounds + 1) == Left(pending, limit, rounds) - Min(limit, Left(pending, limit, rounds))
  {
    assert (rounds + 1) * limit == rounds * limit + limit;
  }

  /** Repeated uploads drain the outbox, whatever the server answers to each: with a limit of up to 1000
      every round takes `limit` sessions off the queue, until it is empty. */
  lemma {:induction false} RoundsDrain(tables: seq<Table>, uploads: seq<Upload>, limit: nat)
    requires 1 <= limit <= MAX_BATCH_SNAPSHOTS
    requires |tables| == |uploads| + 1 && Filed(tables[0])
    requires forall i | 0 <= i < |uploads| :: Round(tables[i], uploads[i], tables[i + 1], limit)
    ensures Filed(tables[|uploads|])
    ensures |Pending(tables[|uploads|])| == Left(|Pending(tables[0])|, limit, |uploads|)
  {
    if |uploads| > 0 {
      var n := |uploads| - 1;
      RoundsDrain(tables[..n + 1], uploads[..n], limit);
      RoundTakesBatch(tables[n], uploads[n], tables[n + 1], limit);
      LeftNext(|Pending(tables[0])|, limit, n);
    }
  }

  /** A larger limit stops the uploads for good once more than 1000 sessions wait. */
  lemma {:induction false} LargeBatchesFail(table: Table, u: Upload, table': Table, limit: nat)
    requires Round(table, u, table', limit) && MAX_BATCH_SNAPSHOTS < limit && MAX_BATCH_SNAPSHOTS < |Pending(table)|
    ensures AnswerOf(u) == None && table' == table
  {}
}
