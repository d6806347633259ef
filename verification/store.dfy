/**
 What a store answers for the two queries the monitor sends to the test
 table, given the table's ids: `SELECT COUNT(*)` and `SELECT MAX(id)`.
 MAX over an empty table is SQL NULL.
 */
module Store {
  import opened Wrappers
  import opened Replication

  /** SELECT MAX(id) over a table holding `ids`. */
  function SqlMax(ids: seq<int>): (r: Option<int>)
    ensures r.None? <==> |ids| == 0
    ensures r.Some? ==> r.value in ids
    ensures r.Some? ==> forall i :: 0 <= i < |ids| ==> ids[i] <= r.value
  {
    if |ids| == 0 then None
    else
      var rest := SqlMax(ids[1..]);
      assert forall i :: 1 <= i < |ids| ==> ids[i] == ids[1..][i - 1];
      match rest
      case None => Some(ids[0])
      case Some(m) => if ids[0] < m then Some(m) else Some(ids[0])
  }

  /** The reading a store holding `ids` gives. */
  function TableReading(ids: seq<int>): Reading {
    Reading(|ids|, SqlMax(ids))
  }

  /**
   With MAX(id)'s NULL taken as 0, the max id the monitor records is never
   negative when the table's ids are not, and it bounds every id.
   */
  lemma {:induction false} MaxIdNonNegative(ids: seq<int>)
    requires forall i :: 0 <= i < |ids| ==> ids[i] >= 0
    ensures OrZero(SqlMax(ids)) >= 0
    ensures forall i :: 0 <= i < |ids| ==> ids[i] <= OrZero(SqlMax(ids))
    ensures |ids| == 0 ==> OrZero(SqlMax(ids)) == 0
  {
    if |ids| > 0 {
      assert ids[0] >= 0;
    }
  }

  /**
   A poll over stores whose ids are non-negative records non-negative max
   ids for the primary and for every replica it measured.
   */
  lemma {:induction false} PolledMaxIdsNonNegative(m: Monitor, primaryIds: seq<int>, replicaIds: seq<seq<int>>, results: seq<ReplicaResult>)
    requires |results| == |ReplicaRegions| == |replicaIds|
    requires forall i :: 0 <= i < |primaryIds| ==> primaryIds[i] >= 0
    requires forall k, i :: 0 <= k < |replicaIds| && 0 <= i < |replicaIds[k]| ==> replicaIds[k][i] >= 0
    requires forall k :: 0 <= k < |results| ==>
               results[k].Err? || results[k] == Ok(|replicaIds[k]|, SqlMax(replicaIds[k]))
    ensures Poll(m, TableReading(primaryIds), results).snapshot.primary.maxId >= 0
    ensures forall k :: 0 <= k < |ReplicaRegions| && Poll(m, TableReading(primaryIds), results).snapshot.replicas[k].Measured? ==>
              Poll(m, TableReading(primaryIds), results).snapshot.replicas[k].maxId >= 0
  {
    MaxIdNonNegative(primaryIds);
    assert Reachable(results);
    var snapshot := Poll(m, TableReading(primaryIds), results).snapshot;
    forall k | 0 <= k < |ReplicaRegions| && snapshot.replicas[k].Measured?
      ensures snapshot.replicas[k].maxId >= 0
    {
      MaxIdNonNegative(replicaIds[k]);
    }
  }
}
