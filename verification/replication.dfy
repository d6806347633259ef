/**
 The decision step of the replication monitor: one poll of the primary and
 the replicas, turned into a status snapshot and a list of lag alerts.

 Database reads are inputs. A `Reading` is the pair of answers to
 `SELECT COUNT(*)` and `SELECT MAX(id)` on the test table; the latter is
 `None` when the table is empty. A replica whose queries raised inside the
 per-replica error handler is `Err(msg)`. A replica whose cursor could not
 be opened (its connection was closed) is `CursorFailed(msg)`: that error
 is raised outside the handler, so it ends the poll.
 */
module Replication {
  import opened Wrappers

  /** Region of the primary store. */
  const PrimaryRegion: string := "us-west"

  /** Replica regions, in the order a poll visits them. */
  const ReplicaRegions: seq<string> := ["us-east", "eu-west"]

  /** A replica is healthy when it is fewer than this many records behind. */
  const HealthyLagLimit: int := 10

  /** Alerts for a lag of at least this many records are critical. */
  const CriticalLag: int := 50

  datatype Severity = Warning | Critical

  /** COUNT(*) and MAX(id) of the test table, as one store answered them. */
  datatype Reading = Reading(count: int, maxId: Option<int>)

  /** Outcome of querying one replica. */
  datatype ReplicaResult =
    | Ok(count: int, maxId: Option<int>)
    | Err(msg: string)
    | CursorFailed(msg: string)

  datatype PrimaryStatus = PrimaryStatus(region: string, recordCount: int, maxId: int)

  /** One replica's entry in a snapshot: either measured, or the query error. */
  datatype ReplicaStatus =
    | Measured(region: string, recordCount: int, maxId: int,
               lagRecords: int, lagIds: int, isHealthy: bool)
    | Failed(region: string, error: string)
  {
    /** The `is_healthy` flag of the entry; an error entry is never healthy. */
    predicate Healthy() {
      Measured? && isHealthy
    }

    /** An entry that raises an alert: measured, and not healthy. */
    predicate Alarming() {
      Measured? && !isHealthy
    }
  }

  datatype Alert = Alert(region: string, severity: Severity, lagCount: int)

  datatype Snapshot = Snapshot(primary: PrimaryStatus, replicas: seq<ReplicaStatus>)

  /** The monitor's in-memory state: the metrics history and the alert list. */
  datatype Monitor = Monitor(history: seq<Snapshot>, alerts: seq<Alert>)

  /** A freshly constructed monitor. */
  const Fresh: Monitor := Monitor([], [])

  /**
   A poll either completes with its snapshot, or raises out of the poll
   with the alerts appended before the error still in the monitor.
   */
  datatype PollOutcome = Polled(monitor: Monitor, snapshot: Snapshot) | Raised(monitor: Monitor)

  ghost predicate Distinct(names: seq<string>) {
    forall i, j :: 0 <= i < j < |names| ==> names[i] != names[j]
  }

  /** Python's `value or 0` on the result of MAX(id): NULL becomes 0. */
  function OrZero(v: Option<int>): int {
    match v
    case None => 0
    case Some(x) => x
  }

  /** Every replica's cursor could be opened. */
  predicate Reachable(results: seq<ReplicaResult>) {
    forall i :: 0 <= i < |results| ==> !results[i].CursorFailed?
  }

  /** Index of the first replica whose cursor could not be opened, or the number of replicas. */
  function FirstCursorFailure(results: seq<ReplicaResult>): (k: nat)
    ensures k <= |results|
    ensures forall i :: 0 <= i < k ==> !results[i].CursorFailed?
    ensures k < |results| ==> results[k].CursorFailed?
    ensures k == |results| <==> Reachable(results)
  {
    if |results| == 0 then 0
    else if results[0].CursorFailed? then 0
    else
      assert forall i :: 1 <= i < |results| ==> results[i] == results[1..][i - 1];
      1 + FirstCursorFailure(results[1..])
  }

  /** The primary's entry of a snapshot. */
  function ReadPrimary(p: Reading): (s: PrimaryStatus)
    ensures s.region == PrimaryRegion
    ensures s.recordCount == p.count
    ensures p.maxId.None? ==> s.maxId == 0
    ensures p.maxId.Some? ==> s.maxId == p.maxId.value
  {
    PrimaryStatus(PrimaryRegion, p.count, OrZero(p.maxId))
  }

  /** The entry for one replica whose cursor was opened, compared against the primary. */
  function Classify(region: string, primary: PrimaryStatus, r: ReplicaResult): (s: ReplicaStatus)
    requires !r.CursorFailed?
    ensures s.region == region
    ensures s.Failed? <==> r.Err?
    ensures r.Err? ==> s.error == r.msg && !s.Healthy() && !s.Alarming()
    ensures r.Ok? ==> s.recordCount == r.count && s.maxId == OrZero(r.maxId)
    ensures r.Ok? ==> s.lagRecords + r.count == primary.recordCount
    ensures r.Ok? ==> s.lagIds + OrZero(r.maxId) == primary.maxId
    ensures r.Ok? ==> (s.Healthy() <==> r.count + HealthyLagLimit > primary.recordCount)
    ensures r.Ok? ==> (s.Alarming() <==> !s.Healthy())
  {
    match r
    case Err(msg) => Failed(region, msg)
    case Ok(count, maxId) =>
      var lagRecords := primary.recordCount - count;
      var lagIds := primary.maxId - OrZero(maxId);
      Measured(region, count, OrZero(maxId), lagRecords, lagIds, lagRecords < HealthyLagLimit)
  }

  /** The alert raised for a replica that is `lag` records behind. */
  function CreateAlert(region: string, lag: int): (a: Alert)
    ensures a.region == region
    ensures a.lagCount == lag
    ensures a.severity == Warning <==> lag < CriticalLag
    ensures a.severity == Critical <==> lag >= CriticalLag
  {
    Alert(region, if lag < CriticalLag then Warning else Critical, lag)
  }

  /** Reference definition: the alerts a sequence of entries calls for, in order. */
  function AlertsOf(statuses: seq<ReplicaStatus>): seq<Alert> {
    if |statuses| == 0 then []
    else
      var s := statuses[0];
      (if s.Alarming() then [CreateAlert(s.region, s.lagRecords)] else []) + AlertsOf(statuses[1..])
  }

  /**
   Reference definition: the entries of the replicas a poll visits before
   the first cursor failure (all of them when there is none), in order.
   */
  function Answered(primary: Reading, results: seq<ReplicaResult>): (entries: seq<ReplicaStatus>)
    requires |results| == |ReplicaRegions|
    ensures |entries| == FirstCursorFailure(results)
    ensures forall i :: 0 <= i < |entries| ==>
              entries[i] == Classify(ReplicaRegions[i], ReadPrimary(primary), results[i])
  {
    var k := FirstCursorFailure(results);
    seq(k, i requires 0 <= i < k => Classify(ReplicaRegions[i], ReadPrimary(primary), results[i]))
  }

  /** Reference definition: the snapshot a completed poll records. */
  function Observe(primary: Reading, results: seq<ReplicaResult>): Snapshot
    requires |results| == |ReplicaRegions|
  {
    Snapshot(ReadPrimary(primary), Answered(primary, results))
  }

  /** What the replica loop leaves behind: its entries, its alerts, and whether it raised. */
  datatype Checked = Checked(statuses: seq<ReplicaStatus>, alerts: seq<Alert>, raised: bool)

  /**
   The loop over the replicas: one entry per region, in order, and the
   alerts appended while visiting them. A query error is recorded and the
   loop goes on; a cursor failure raises and stops the loop there.
   */
  function CheckReplicas(regions: seq<string>, primary: PrimaryStatus, results: seq<ReplicaResult>)
    : (c: Checked)
    requires |results| == |regions|
    ensures |c.statuses| == FirstCursorFailure(results)
    ensures c.raised <==> !Reachable(results)
    ensures forall i :: 0 <= i < |c.statuses| ==> c.statuses[i] == Classify(regions[i], primary, results[i])
    ensures c.alerts == AlertsOf(c.statuses)
    decreases |regions|
  {
    if |regions| == 0 then Checked([], [], false)
    else if results[0].CursorFailed? then Checked([], [], true)
    else
      var s := Classify(regions[0], primary, results[0]);
      var rest := CheckReplicas(regions[1..], primary, results[1..]);
      var raised := if s.Alarming() then [CreateAlert(regions[0], s.lagRecords)] else [];
      Checked([s] + rest.statuses, raised + rest.alerts, rest.raised)
  }

  /**
   One poll: `results[i]` is what the replica in `ReplicaRegions[i]`
   answered. A completed poll returns the new monitor state and the
   snapshot it recorded; a poll that raised returns the monitor state the
   error left behind.
   */
  function Poll(m: Monitor, primary: Reading, results: seq<ReplicaResult>): (out: PollOutcome)
    requires |results| == |ReplicaRegions|
    ensures out.Polled? <==> Reachable(results)
    ensures out.Polled? ==> out.monitor.history == m.history + [out.snapshot]
    ensures out.Polled? ==> out.snapshot == Observe(primary, results)
    ensures out.Polled? ==> out.snapshot.primary == ReadPrimary(primary)
    ensures out.Polled? ==> |out.snapshot.replicas| == |ReplicaRegions|
    ensures out.Polled? ==> forall i :: 0 <= i < |ReplicaRegions| ==>
              out.snapshot.replicas[i] == Classify(ReplicaRegions[i], out.snapshot.primary, results[i])
    ensures out.Raised? ==> out.monitor.history == m.history
    ensures out.monitor.alerts == m.alerts + AlertsOf(Answered(primary, results))
  {
    var p := ReadPrimary(primary);
    var checked := CheckReplicas(ReplicaRegions, p, results);
    assert checked.statuses == Answered(primary, results);
    if checked.raised then
      Raised(Monitor(m.history, m.alerts + checked.alerts))
    else
      var snapshot := Snapshot(p, checked.statuses);
      Polled(Monitor(m.history + [snapshot], m.alerts + checked.alerts), snapshot)
  }
}
