# Multi-region replication monitor: the poll-and-alert step

The monitor watches one primary PostgreSQL store (`us-west`) and two
replicas (`us-east`, `eu-west`). Each poll reads `COUNT(*)` and `MAX(id)` of
the test table on every store. For each replica it computes the record lag
and the id lag against the primary, flags the replica healthy when it is
fewer than 10 records behind, and appends an alert for every replica that
answered but is not healthy. The alert is a WARNING below a lag of 50 and
CRITICAL from 50 on. A replica whose query fails is recorded as an error
entry and the poll goes on to the next replica. A replica whose cursor
cannot be opened (its connection is closed) raises outside that error
handler: the poll stops there, keeps the alerts it already appended, and
records no snapshot. The error also ends the run. A poll that completes
appends one snapshot to the metrics history.

The model is pure. The stores' answers are inputs: a `Reading(count,
maxId)` for the primary, and per replica an `Ok(count, maxId)`, an
`Err(msg)` or a `CursorFailed(msg)`, where `maxId` is `None` for SQL NULL.
The wall-clock duration of a run becomes a number of iterations, one poll
input per iteration. The per-region connection outcomes are inputs too.

Modules:

- `Wrappers` (wrappers.dfy): `Option`.
- `Replication` (replication.dfy): entities (`ReplicaStatus`, `Alert`,
  `Snapshot`, `Monitor`), thresholds, and the poll (`Classify`,
  `CreateAlert`, `CheckReplicas`, `Poll`). `AlertsOf` is the reference
  definition of which alerts a list of entries calls for. `Answered` and
  `Observe` are the reference definitions of the entries and the snapshot a
  poll records.
- `ReplicationProperties` (replication_properties.dfy): lemmas about one
  poll.
- `Store` (store.dfy): what `COUNT(*)` and `MAX(id)` return for a table of
  ids. Used to show that recorded max ids are non-negative.
- `Schedule` (schedule.dfy): `ConnectAll` and the monitoring loop.
  `Recorded` states what the loop leaves in the history and the alert list.
  `LoopAlerts` is the reference definition of the alerts of a history.

The loop as the code runs it (src/replication_monitor.py):

- Every iteration polls (line 229).
- Even iterations write 5 rows first (line 227) and print the poll's
  snapshot afterwards (line 232).
- `run_monitoring` returns before setup or any poll unless every region
  connected (lines 211-213).

## Model

| member | source | states |
|---|---|---|
| Replication.ReadPrimary | src/replication_monitor.py:100-114 | The primary entry carries the primary's row count. Its max id is the MAX(id) value, or 0 when MAX(id) is NULL. |
| Replication.FirstCursorFailure | src/replication_monitor.py:118-120 | The index of the first replica whose `cursor()` call raises, or the number of replicas when every cursor opens. It equals the number of replicas iff none fails. |
| Replication.Classify | src/replication_monitor.py:122-152 | A replica that answered gets `lag_records = primary count - replica count` and `lag_ids = primary max id - replica max id`, neither clamped. It is healthy iff it is fewer than 10 records behind. A replica whose query failed gets an error entry with the message; that entry is neither healthy nor alarming. |
| Replication.CreateAlert | src/replication_monitor.py:159-168 | The alert carries the region and the lag as `lag_count`. Severity is WARNING iff lag < 50 and CRITICAL iff lag >= 50. |
| Replication.Answered | src/replication_monitor.py:118-152 | The entries a poll records: one per replica visited before the first cursor failure, in visiting order, entry i classified from replica i's answer. |
| Replication.CheckReplicas | src/replication_monitor.py:118-154 | The replica loop yields one entry per region visited before the first cursor failure, in visiting order. Entry i depends only on region i's answer. It raises iff some cursor fails. The alerts are exactly `AlertsOf` the entries, so a query error does not stop the later replicas. |
| Replication.Poll | src/replication_monitor.py:94-157 | A poll completes iff every replica's cursor opens. A completed poll appends exactly one snapshot, `Observe` of its inputs, with one entry per replica in the order `us-east`, `eu-west`. A raising poll leaves the history unchanged. Either way it appends to the earlier alerts exactly the alerts of the entries it recorded before stopping. |
| ReplicationProperties.NegativeLagIsHealthy | src/replication_monitor.py:129-138 | A replica with more rows than the primary has a negative lag and is healthy. |
| ReplicationProperties.InSyncReplicaIsHealthy | src/replication_monitor.py:129-138 | A replica that reports the primary's count and max id has lag 0 on both and is healthy. |
| ReplicationProperties.LaggingIffTenBehind | src/replication_monitor.py:138-144 | An answering replica raises an alert iff it is at least 10 records behind. |
| ReplicationProperties.SeverityMonotone | src/replication_monitor.py:164 | A larger lag never gets a lower severity. |
| ReplicationProperties.SeverityExamples | src/replication_monitor.py:164 | Lags 10 and 49 give WARNING; lags 50 and 60 give CRITICAL. |
| ReplicationProperties.AlertsOfLength | src/replication_monitor.py:143-144 | The number of alerts equals the number of answering, unhealthy entries. |
| ReplicationProperties.AlertsOfSound | src/replication_monitor.py:143-168 | Every alert comes from an answering, unhealthy entry and carries that entry's region and record lag. |
| ReplicationProperties.OneAlertPerLaggingRegion | src/replication_monitor.py:118-152 | When regions are distinct, each region gets exactly one alert if its entry is alarming and none otherwise. |
| ReplicationProperties.NoAlertForAbsentRegion | src/replication_monitor.py:143-144 | A region with no entry gets no alert. |
| ReplicationProperties.PollAlertsPerReplica | src/replication_monitor.py:118-168 | A poll appends exactly one alert for a replica visited before any cursor failure that answered and is >= 10 records behind. Any other replica gets none. |
| ReplicationProperties.PollAlertsSound | src/replication_monitor.py:143-168 | Every alert a poll appends names a replica visited before any cursor failure that answered and is >= 10 behind. Its `lag_count` is that lag, and it is CRITICAL iff the lag is >= 50. |
| ReplicationProperties.ErrorIsolation | src/replication_monitor.py:122-152 | When both polls complete, a replica's entry does not depend on what the other replica answered, including when that replica's query failed. |
| ReplicationProperties.CursorFailureEndsPoll | src/replication_monitor.py:118-156 | A cursor failure makes the poll raise. The history is unchanged, and neither the failing replica nor any later one gets an alert. |
| ReplicationProperties.PollAppendOnly | src/replication_monitor.py:141-156 | A poll adds one snapshot if it completes and none if it raises, and at most one alert per replica. Earlier snapshots and alerts are left unchanged. |
| ReplicationProperties.ScenarioLagging | src/replication_monitor.py:129-168 | With a 1000-row primary, replicas at 990 and 940 rows give a WARNING with lag 10 and then a CRITICAL with lag 60. |
| ReplicationProperties.ScenarioFailedReplica | src/replication_monitor.py:122-156 | A failed `us-east` next to an in-sync `eu-west` gives an error entry, a healthy entry, one snapshot and no alert. |
| ReplicationProperties.ScenarioClosedConnection | src/replication_monitor.py:118-156 | A lagging `us-east` followed by a closed `eu-west` connection: the poll raises with the `us-east` WARNING appended and no snapshot recorded. |
| Store.SqlMax | src/replication_monitor.py:103-104 | MAX(id) is NULL exactly on an empty table. Otherwise it is an id of the table and bounds every id. |
| Store.MaxIdNonNegative | src/replication_monitor.py:126-127 | Once NULL is taken as 0, the max id is >= 0 when all ids are non-negative. It is 0 on an empty table and bounds every id. |
| Store.PolledMaxIdsNonNegative | src/replication_monitor.py:100-135 | A poll over tables with non-negative ids records non-negative max ids for the primary and for every replica it measured. |
| Schedule.ConnectedSize | src/replication_monitor.py:32-47 | With distinct region names, the number of open connections equals the number of successful attempts. |
| Schedule.ConnectAll | src/replication_monitor.py:29-47 | Comparing the number of connections with the number of configured regions gives true iff every region's attempt succeeded. |
| Schedule.BeforePoll | src/replication_monitor.py:224-229 | Up to and including its poll, an iteration checks status once and prints nothing. Exactly the even iterations write, once and 5 rows, before the poll. It never sets up the primary. |
| Schedule.Step | src/replication_monitor.py:224-232 | A completed iteration checks status once. Exactly the even iterations also write and print once. The write comes before the poll and the print after it, and the print carries this iteration's snapshot. It never sets up the primary. |
| Schedule.Trace | src/replication_monitor.py:223-232 | The reference schedule of the loop: for each completed poll in turn, that iteration's `Step` with its own snapshot, then, when a poll raised, the raising iteration's `BeforePoll`. It never sets up the primary. |
| Schedule.TraceSplit | src/replication_monitor.py:223-232 | A schedule that ends in a raising poll is the schedule of the completed iterations followed by the raising iteration's actions up to its poll. |
| Schedule.FirstCrash | src/replication_monitor.py:223-229 | The index of the first iteration whose poll raises (a replica cursor failing at line 120), or the number of iterations. Every earlier poll completes. |
| Schedule.Iterate | src/replication_monitor.py:220-234 | The loop stops early iff some poll raises. Snapshot i appended is `Observe` of iteration i's input, for every poll that completed, after the untouched earlier history. The alert list grows by the alerts of those snapshots in order, then the alerts the raising poll appended. Status is checked once per iteration run. Writes happen once per even iteration run, prints once per even iteration completed, and every write is of 5 rows. |
| Schedule.IterateTraced | src/replication_monitor.py:223-234 | The loop's actions are exactly `Trace` of the snapshots it appended, in order, ending with the raising iteration's actions when a poll raised. |
| Schedule.RecordedCons | src/replication_monitor.py:220-234 | What the loop leaves behind after one completed poll and the remaining iterations follows from what the remaining iterations leave behind. |
| Schedule.EvenIterationsHalf | src/replication_monitor.py:221-226 | Among the iterations after the first `done`, up to `done + n`, the count of even iteration numbers is floor((done + n) / 2) - floor(done / 2). |
| Schedule.Launch | src/replication_monitor.py:215-234 | A started run sets up the primary first. With setup and write batches taken to succeed, it ends on an error iff some poll raises. Its history is the snapshots of the polls before the first raising one, in order. Its alerts are those snapshots' alerts, then the raising poll's. With k completed polls it checks status k times, plus once if a poll raised. It writes once per even iteration run and prints floor(k/2) times. |
| Schedule.LaunchTraced | src/replication_monitor.py:215-234 | A started run's actions are the primary setup followed by exactly `Trace` of its history, so the setup happens once and first. |
| Schedule.RunMonitoring | src/replication_monitor.py:204-234 | A run proceeds iff every region connected. With setup and write batches taken to succeed, it ends on an error iff it proceeded and some poll raises. It then sets up the primary first and collects the snapshot of every completed poll, in order, and their alerts. With no raising poll, n iterations give n polls, floor(n/2) writes and floor(n/2) prints. After k completed polls and one raising poll there are k + 1 polls, floor((k+1)/2) writes and floor(k/2) prints. |
| Schedule.RunMonitoringTraced | src/replication_monitor.py:211-234 | A run that was not aborted performs the primary setup followed by exactly `Trace` of its history, and sets up the primary nowhere else. |

## Left out

- `setup_primary`: drops, creates and seeds tables with random amounts on the store. This is external database I/O; the model only records that it happens first.
- `simulate_writes`: the rows' contents and timestamps come from the wall clock. The model keeps the batch size 5. The effect of the writes shows up in the poll inputs: an even iteration's poll already sees the 5 rows written in that same iteration.
- Timestamps of snapshots and alerts (`datetime.now()`), `time.sleep` and `time.time`. These are wall-clock values; the duration bound is an iteration count.
- Replication.CreateAlert: leaves out the alert's message text. It is a formatting of `lag_count`, which the model keeps.
- `print_status` and the run summary are output formatting. The "recent alerts" filter compares timestamp strings, which depends on the clock.
- Replication.Poll: does not model a failing primary query (lines 97-106). It runs outside any error handler and would raise out of the poll before any replica is visited; the primary's answers are an input that is always present.
- Replication.Poll: does not model the `KeyError` of a missing replica connection (line 119). The loop only starts once every region connected, so every region has a connection.
- Replication.Poll: does not model a failing `replica_cursor.close()` (line 154). A cursor that opened is taken to close.
- Schedule.Launch: does not model a failing `setup_primary` (line 215; its statement at 55-75) or a failing `simulate_writes` batch (line 227; its inserts at 86-89). Both run outside any error handler, so either would raise out of `run_monitoring` and end the run; the store's side of those calls is external I/O, and the model takes them to succeed.
- Logging, hosts, ports and credentials. Only region names and roles are kept.
