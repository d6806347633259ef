/**
 Properties of one poll: the sign and meaning of the lag, the health
 threshold, exactly one alert per lagging replica, error isolation and the
 append-only history and alert list.
 */
module ReplicationProperties {
  import opened Wrappers
  import opened Replication

  /** Number of alerts about `region`. */
  function CountFor(alerts: seq<Alert>, region: string): nat {
    if |alerts| == 0 then 0
    else (if alerts[0].region == region then 1 else 0) + CountFor(alerts[1..], region)
  }

  /** Number of entries that call for an alert. */
  function CountAlarming(statuses: seq<ReplicaStatus>): nat {
    if |statuses| == 0 then 0
    else (if statuses[0].Alarming() then 1 else 0) + CountAlarming(statuses[1..])
  }

  function RegionsOf(statuses: seq<ReplicaStatus>): (names: seq<string>)
    ensures |names| == |statuses|
    ensures forall i :: 0 <= i < |statuses| ==> names[i] == statuses[i].region
  {
    seq(|statuses|, i requires 0 <= i < |statuses| => statuses[i].region)
  }

  /** A replica ahead of the primary has a negative lag and counts as healthy. */
  lemma NegativeLagIsHealthy(region: string, primary: PrimaryStatus, count: int, maxId: Option<int>)
    requires count > primary.recordCount
    ensures Classify(region, primary, Ok(count, maxId)).lagRecords < 0
    ensures Classify(region, primary, Ok(count, maxId)).Healthy()
  {
  }

  /** A replica that reports exactly what the primary reports is in sync. */
  lemma InSyncReplicaIsHealthy(region: string, primary: Reading)
    ensures Classify(region, ReadPrimary(primary), Ok(primary.count, primary.maxId))
              == Measured(region, primary.count, OrZero(primary.maxId), 0, 0, true)
  {
  }

  /** A replica is lagging exactly when it is at least ten records behind. */
  lemma LaggingIffTenBehind(region: string, primary: PrimaryStatus, count: int, maxId: Option<int>)
    ensures Classify(region, primary, Ok(count, maxId)).Alarming() <==> primary.recordCount - count >= 10
  {
  }

  /** Severity never drops as the lag grows. */
  lemma SeverityMonotone(region: string, lag1: int, lag2: int)
    requires lag1 <= lag2
    ensures CreateAlert(region, lag1).severity == Critical ==> CreateAlert(region, lag2).severity == Critical
    ensures CreateAlert(region, lag2).severity == Warning ==> CreateAlert(region, lag1).severity == Warning
  {
  }

  lemma SeverityExamples()
    ensures CreateAlert("us-east", 10).severity == Warning
    ensures CreateAlert("us-east", 49).severity == Warning
    ensures CreateAlert("eu-west", 50).severity == Critical
    ensures CreateAlert("eu-west", 60).severity == Critical
  {
  }

  lemma {:induction false} CountForAppend(a: seq<Alert>, b: seq<Alert>, region: string)
    ensures CountFor(a + b, region) == CountFor(a, region) + CountFor(b, region)
    decreases |a|
  {
    if |a| == 0 {
      assert a + b == b;
    } else {
      assert (a + b)[1..] == a[1..] + b;
      CountForAppend(a[1..], b, region);
    }
  }

  /** One alert per lagging entry, none for healthy or failed ones. */
  lemma {:induction false} AlertsOfLength(statuses: seq<ReplicaStatus>)
    ensures |AlertsOf(statuses)| == CountAlarming(statuses)
    decreases |statuses|
  {
    if |statuses| > 0 {
      AlertsOfLength(statuses[1..]);
    }
  }

  /** Every alert comes from a lagging entry and carries its region and lag. */
  lemma {:induction false} AlertsOfSound(statuses: seq<ReplicaStatus>)
    ensures forall a :: a in AlertsOf(statuses) ==>
              exists i :: 0 <= i < |statuses| && statuses[i].Alarming()
                          && a == CreateAlert(statuses[i].region, statuses[i].lagRecords)
    decreases |statuses|
  {
    if |statuses| > 0 {
      AlertsOfSound(statuses[1..]);
      var s := statuses[0];
      var head := if s.Alarming() then [CreateAlert(s.region, s.lagRecords)] else [];
      assert AlertsOf(statuses) == head + AlertsOf(statuses[1..]);
      forall a | a in AlertsOf(statuses)
        ensures exists i :: 0 <= i < |statuses| && statuses[i].Alarming()
                            && a == CreateAlert(statuses[i].region, statuses[i].lagRecords)
      {
        if a in head {
          assert statuses[0].Alarming();
        } else {
          assert a in AlertsOf(statuses[1..]);
          var j :| 0 <= j < |statuses[1..]| && statuses[1..][j].Alarming()
                   && a == CreateAlert(statuses[1..][j].region, statuses[1..][j].lagRecords);
          assert statuses[j + 1] == statuses[1..][j];
        }
      }
    }
  }

  /** With distinct regions, a region gets one alert if its entry lags and none otherwise. */
  lemma {:induction false} OneAlertPerLaggingRegion(statuses: seq<ReplicaStatus>, k: int)
    requires Distinct(RegionsOf(statuses))
    requires 0 <= k < |statuses|
    ensures CountFor(AlertsOf(statuses), statuses[k].region) == if statuses[k].Alarming() then 1 else 0
    decreases |statuses|
  {
    var s := statuses[0];
    var region := statuses[k].region;
    var head := if s.Alarming() then [CreateAlert(s.region, s.lagRecords)] else [];
    assert AlertsOf(statuses) == head + AlertsOf(statuses[1..]);
    CountForAppend(head, AlertsOf(statuses[1..]), region);
    if k == 0 {
      NoAlertForAbsentRegion(statuses[1..], region);
    } else {
      assert statuses[1..][k - 1] == statuses[k];
      assert s.region != region by {
        assert RegionsOf(statuses)[0] != RegionsOf(statuses)[k];
      }
      assert Distinct(RegionsOf(statuses[1..])) by {
        forall i, j | 0 <= i < j < |statuses| - 1
          ensures RegionsOf(statuses[1..])[i] != RegionsOf(statuses[1..])[j]
        {
          assert RegionsOf(statuses)[i + 1] != RegionsOf(statuses)[j + 1];
        }
      }
      OneAlertPerLaggingRegion(statuses[1..], k - 1);
    }
  }

  /** A region that no entry carries gets no alert. */
  lemma {:induction false} NoAlertForAbsentRegion(statuses: seq<ReplicaStatus>, region: string)
    requires forall i :: 0 <= i < |statuses| ==> statuses[i].region != region
    ensures CountFor(AlertsOf(statuses), region) == 0
    decreases |statuses|
  {
    if |statuses| > 0 {
      var s := statuses[0];
      var head := if s.Alarming() then [CreateAlert(s.region, s.lagRecords)] else [];
      assert AlertsOf(statuses) == head + AlertsOf(statuses[1..]);
      CountForAppend(head, AlertsOf(statuses[1..]), region);
      NoAlertForAbsentRegion(statuses[1..], region);
    }
  }

  /**
   One poll appends exactly one alert for each replica that answered and is
   at least ten records behind, carrying that replica's lag, and no alert
   for a replica that answered within the threshold or failed. A replica the
   poll never reached, because an earlier replica's cursor failed or its own
   did, gets no alert either.
   */
  lemma {:induction false} PollAlertsPerReplica(m: Monitor, primary: Reading, results: seq<ReplicaResult>, k: int)
    requires |results| == |ReplicaRegions|
    requires 0 <= k < |ReplicaRegions|
    ensures CountFor(Poll(m, primary, results).monitor.alerts[|m.alerts|..], ReplicaRegions[k])
              == if k < FirstCursorFailure(results) && results[k].Ok?
                    && primary.count - results[k].count >= HealthyLagLimit then 1 else 0
  {
    var out := Poll(m, primary, results);
    assert out.monitor.alerts[|m.alerts|..] == AlertsOf(Answered(primary, results));
    AnsweredAlertsPerReplica(primary, results, k);
  }

  /** The counting behind `PollAlertsPerReplica`, on the entries a poll visits. */
  lemma {:induction false} AnsweredAlertsPerReplica(primary: Reading, results: seq<ReplicaResult>, k: int)
    requires |results| == |ReplicaRegions|
    requires 0 <= k < |ReplicaRegions|
    ensures CountFor(AlertsOf(Answered(primary, results)), ReplicaRegions[k])
              == if k < FirstCursorFailure(results) && results[k].Ok?
                    && primary.count - results[k].count >= HealthyLagLimit then 1 else 0
  {
    var entries := Answered(primary, results);
    if k < |entries| {
      assert Distinct(RegionsOf(entries)) by {
        forall i, j | 0 <= i < j < |entries|
          ensures RegionsOf(entries)[i] != RegionsOf(entries)[j]
        {
          assert entries[i].region == ReplicaRegions[i];
          assert entries[j].region == ReplicaRegions[j];
        }
      }
      OneAlertPerLaggingRegion(entries, k);
    } else {
      forall i | 0 <= i < |entries|
        ensures entries[i].region != ReplicaRegions[k]
      {
        assert entries[i].region == ReplicaRegions[i];
      }
      NoAlertForAbsentRegion(entries, ReplicaRegions[k]);
    }
  }

  /**
   Every alert one poll appends is about a replica that answered and is
   behind by at least ten records; its lag is that replica's lag.
   */
  lemma {:induction false} PollAlertsSound(m: Monitor, primary: Reading, results: seq<ReplicaResult>)
    requires |results| == |ReplicaRegions|
    ensures forall a :: a in Poll(m, primary, results).monitor.alerts[|m.alerts|..] ==>
              exists k :: 0 <= k < FirstCursorFailure(results) && results[k].Ok?
                          && a.region == ReplicaRegions[k]
                          && a.lagCount == primary.count - results[k].count >= HealthyLagLimit
                          && (a.severity == Critical <==> a.lagCount >= CriticalLag)
  {
    assert Poll(m, primary, results).monitor.alerts[|m.alerts|..] == AlertsOf(Answered(primary, results));
    AnsweredAlertsSound(primary, results);
  }

  /** `PollAlertsSound`, for the alerts of the entries a poll records. */
  lemma {:induction false} AnsweredAlertsSound(primary: Reading, results: seq<ReplicaResult>)
    requires |results| == |ReplicaRegions|
    ensures forall a :: a in AlertsOf(Answered(primary, results)) ==>
              exists k :: 0 <= k < FirstCursorFailure(results) && results[k].Ok?
                          && a.region == ReplicaRegions[k]
                          && a.lagCount == primary.count - results[k].count >= HealthyLagLimit
                          && (a.severity == Critical <==> a.lagCount >= CriticalLag)
  {
    var entries := Answered(primary, results);
    AlertsOfSound(entries);
    forall a | a in AlertsOf(entries)
      ensures exists k :: 0 <= k < FirstCursorFailure(results) && results[k].Ok?
                          && a.region == ReplicaRegions[k]
                          && a.lagCount == primary.count - results[k].count >= HealthyLagLimit
                          && (a.severity == Critical <==> a.lagCount >= CriticalLag)
    {
      var k :| 0 <= k < |entries| && entries[k].Alarming()
               && a == CreateAlert(entries[k].region, entries[k].lagRecords);
      assert entries[k] == Classify(ReplicaRegions[k], ReadPrimary(primary), results[k]);
      assert results[k].Ok?;
    }
  }

  /**
   A query error on one replica does not touch the other replica's entry:
   when both polls complete, an entry depends on its own answer only.
   */
  lemma {:induction false} ErrorIsolation(m: Monitor, primary: Reading, results: seq<ReplicaResult>, results': seq<ReplicaResult>, k: int)
    requires |results| == |results'| == |ReplicaRegions|
    requires Reachable(results) && Reachable(results')
    requires 0 <= k < |ReplicaRegions|
    requires results[k] == results'[k]
    ensures Poll(m, primary, results).snapshot.replicas[k] == Poll(m, primary, results').snapshot.replicas[k]
  {
  }

  /**
   A replica whose cursor cannot be opened ends the poll: no snapshot is
   recorded, the alerts of the replicas visited before it stay appended,
   and neither it nor any later replica gets an alert.
   */
  lemma {:induction false} CursorFailureEndsPoll(m: Monitor, primary: Reading, results: seq<ReplicaResult>)
    requires |results| == |ReplicaRegions|
    requires !Reachable(results)
    ensures Poll(m, primary, results).Raised?
    ensures Poll(m, primary, results).monitor.history == m.history
    ensures forall k :: FirstCursorFailure(results) <= k < |ReplicaRegions| ==>
              CountFor(Poll(m, primary, results).monitor.alerts[|m.alerts|..], ReplicaRegions[k]) == 0
  {
    forall k | FirstCursorFailure(results) <= k < |ReplicaRegions|
      ensures CountFor(Poll(m, primary, results).monitor.alerts[|m.alerts|..], ReplicaRegions[k]) == 0
    {
      PollAlertsPerReplica(m, primary, results, k);
    }
  }

  /**
   A poll keeps every earlier snapshot and alert, adds one snapshot when it
   completes and none when it raised, and at most one alert per replica.
   */
  lemma {:induction false} PollAppendOnly(m: Monitor, primary: Reading, results: seq<ReplicaResult>)
    requires |results| == |ReplicaRegions|
    ensures |Poll(m, primary, results).monitor.history| == |m.history| + (if Reachable(results) then 1 else 0)
    ensures Poll(m, primary, results).monitor.history[..|m.history|] == m.history
    ensures |Poll(m, primary, results).monitor.alerts| >= |m.alerts|
    ensures Poll(m, primary, results).monitor.alerts[..|m.alerts|] == m.alerts
    ensures |Poll(m, primary, results).monitor.alerts| - |m.alerts| <= |ReplicaRegions|
    ensures forall k :: 0 <= k < |ReplicaRegions| ==>
              CountFor(Poll(m, primary, results).monitor.alerts[|m.alerts|..], ReplicaRegions[k]) <= 1
  {
    var entries := Answered(primary, results);
    AlertsOfLength(entries);
    CountAlarmingBound(entries);
    forall k | 0 <= k < |ReplicaRegions|
      ensures CountFor(Poll(m, primary, results).monitor.alerts[|m.alerts|..], ReplicaRegions[k]) <= 1
    {
      PollAlertsPerReplica(m, primary, results, k);
    }
  }

  lemma {:induction false} CountAlarmingBound(statuses: seq<ReplicaStatus>)
    ensures CountAlarming(statuses) <= |statuses|
    decreases |statuses|
  {
    if |statuses| > 0 {
      CountAlarmingBound(statuses[1..]);
    }
  }

  /**
   With 1000 rows on the primary, a replica at 990 rows gets one WARNING
   with lag 10 and a replica at 940 rows one CRITICAL with lag 60.
   */
  lemma ScenarioLagging()
    ensures Poll(Fresh, Reading(1000, Some(1000)), [Ok(990, Some(990)), Ok(940, Some(940))]).monitor.alerts
              == [Alert("us-east", Warning, 10), Alert("eu-west", Critical, 60)]
  {
    var results := [Ok(990, Some(990)), Ok(940, Some(940))];
    assert FirstCursorFailure(results) == 2 by {
      assert Reachable(results);
    }
  }

  /** A failed replica next to an in-sync one: an error entry, and no alert. */
  lemma ScenarioFailedReplica()
    ensures Poll(Fresh, Reading(1000, Some(1000)), [Err("timeout"), Ok(1000, Some(1000))]).monitor
              == Monitor([Snapshot(PrimaryStatus("us-west", 1000, 1000),
                                   [Failed("us-east", "timeout"),
                                    Measured("eu-west", 1000, 1000, 0, 0, true)])], [])
  {
    var results := [Err("timeout"), Ok(1000, Some(1000))];
    assert FirstCursorFailure(results) == 2 by {
      assert Reachable(results);
    }
    var entries := Answered(Reading(1000, Some(1000)), results);
    assert entries == [Failed("us-east", "timeout"), Measured("eu-west", 1000, 1000, 0, 0, true)];
    assert AlertsOf(entries[1..]) == [];
  }

  /**
   A closed connection on `eu-west` after a lagging `us-east`: the poll
   raises, the `us-east` alert stays appended, and no snapshot is recorded.
   */
  lemma ScenarioClosedConnection()
    ensures Poll(Fresh, Reading(1000, Some(1000)), [Ok(990, Some(990)), CursorFailed("connection already closed")])
              == Raised(Monitor([], [Alert("us-east", Warning, 10)]))
  {
    var results := [Ok(990, Some(990)), CursorFailed("connection already closed")];
    assert FirstCursorFailure(results) == 1 by {
      assert results[1..] == [CursorFailed("connection already closed")];
    }
    var entries := Answered(Reading(1000, Some(1000)), results);
    assert entries == [Measured("us-east", 990, 990, 10, 10, false)];
    assert AlertsOf(entries[1..]) == [];
  }
}
