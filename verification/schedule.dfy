/**
 Connecting to the configured regions and the monitoring loop. The
 wall-clock bound of the loop is a number of iterations: the loop is given
 one poll input per iteration. The store's answers for an iteration already
 reflect every row written so far, including the 5 rows an even iteration
 writes just before its own poll.
 */
module Schedule {
  import opened Replication

  datatype Role = PrimaryRole | ReplicaRole

  datatype Endpoint = Endpoint(region: string, role: Role)

  /** The configured regions, in configuration order. */
  const Endpoints: seq<Endpoint> := [
    Endpoint("us-west", PrimaryRole),
    Endpoint("us-east", ReplicaRole),
    Endpoint("eu-west", ReplicaRole)
  ]

  /** Rows written to the primary on each even iteration. */
  const WriteBatch: nat := 5

  /** The store's answers for one iteration's poll. */
  datatype PollInput = PollInput(primary: Reading, replicas: seq<ReplicaResult>)

  /** Side effects of a run other than the monitor's own lists, in order. */
  datatype Action = SetupPrimary | SimulateWrites(rows: nat) | CheckStatus | PrintStatus(status: Snapshot)

  /**
   A run either never starts (not every region connected), finishes its
   iterations, or ends with the error a poll raised.
   */
  datatype Run =
    | Aborted
    | Finished(monitor: Monitor, actions: seq<Action>)
    | Crashed(monitor: Monitor, actions: seq<Action>)

  /** State of the loop when it stops, and whether it stopped on a raised error. */
  datatype Loop = Loop(monitor: Monitor, actions: seq<Action>, crashed: bool)

  /** The regions whose connection attempt succeeded; `up[i]` is the outcome for `regions[i]`. */
  function Connected(regions: seq<string>, up: seq<bool>): (c: set<string>)
    requires |up| == |regions|
    ensures forall r :: r in c ==> r in regions
    decreases |regions|
  {
    if |regions| == 0 then {}
    else (if up[0] then {regions[0]} else {}) + Connected(regions[1..], up[1..])
  }

  function CountTrue(up: seq<bool>): nat {
    if |up| == 0 then 0 else (if up[0] then 1 else 0) + CountTrue(up[1..])
  }

  function Regions(endpoints: seq<Endpoint>): (rs: seq<string>)
    ensures |rs| == |endpoints|
    ensures forall i :: 0 <= i < |endpoints| ==> rs[i] == endpoints[i].region
  {
    seq(|endpoints|, i requires 0 <= i < |endpoints| => endpoints[i].region)
  }

  lemma {:induction false} ConnectedSize(regions: seq<string>, up: seq<bool>)
    requires |up| == |regions|
    requires Distinct(regions)
    ensures |Connected(regions, up)| == CountTrue(up)
    decreases |regions|
  {
    if |regions| > 0 {
      var rest := Connected(regions[1..], up[1..]);
      ConnectedSize(regions[1..], up[1..]);
      assert regions[0] !in rest;
    }
  }

  lemma {:induction false} CountTrueAll(up: seq<bool>)
    ensures CountTrue(up) <= |up|
    ensures CountTrue(up) == |up| <==> forall i :: 0 <= i < |up| ==> up[i]
    decreases |up|
  {
    if |up| > 0 {
      CountTrueAll(up[1..]);
      if forall i :: 0 <= i < |up| ==> up[i] {
        assert forall i :: 0 <= i < |up[1..]| ==> up[1..][i] == up[i + 1];
      }
      if forall i :: 0 <= i < |up[1..]| ==> up[1..][i] {
        assert forall i :: 1 <= i < |up| ==> up[i] == up[1..][i - 1];
      }
    }
  }

  /**
   Connect to every configured region; `up[i]` is whether the attempt for
   `Endpoints[i]` succeeded. The result compares the number of open
   connections with the number of configured regions, which is the same as
   asking that every attempt succeeded.
   */
  function ConnectAll(up: seq<bool>): (ok: bool)
    requires |up| == |Endpoints|
    ensures ok <==> forall i :: 0 <= i < |up| ==> up[i]
  {
    var regions := Regions(Endpoints);
    assert regions == ["us-west", "us-east", "eu-west"];
    ConnectedSize(regions, up);
    CountTrueAll(up);
    |Connected(regions, up)| == |Endpoints|
  }

  predicate WellShaped(inputs: seq<PollInput>) {
    forall i :: 0 <= i < |inputs| ==> |inputs[i].replicas| == |ReplicaRegions|
  }

  /** Index of the first iteration whose poll raises, or the number of iterations. */
  function FirstCrash(inputs: seq<PollInput>): (k: nat)
    ensures k <= |inputs|
    ensures forall i :: 0 <= i < k ==> Reachable(inputs[i].replicas)
    ensures k < |inputs| ==> !Reachable(inputs[k].replicas)
  {
    if |inputs| == 0 then 0
    else if !Reachable(inputs[0].replicas) then 0
    else
      assert forall i :: 1 <= i < |inputs| ==> inputs[i] == inputs[1..][i - 1];
      1 + FirstCrash(inputs[1..])
  }

  /** Reference definition: the alerts the completed polls of a history raised, in order. */
  function LoopAlerts(history: seq<Snapshot>): seq<Alert> {
    if |history| == 0 then []
    else AlertsOf(history[0].replicas) + LoopAlerts(history[1..])
  }

  /** The alerts the raising poll appended before its error, if some poll raised. */
  function CrashAlerts(inputs: seq<PollInput>): seq<Alert>
    requires WellShaped(inputs)
  {
    var k := FirstCrash(inputs);
    if k < |inputs| then AlertsOf(Answered(inputs[k].primary, inputs[k].replicas)) else []
  }

  /**
   `after` is what iterations over `inputs` leave behind when they start
   from `before`: one snapshot per completed poll, each the one its input
   gives, appended in input order after the untouched earlier history; and
   after the earlier alerts, the alerts of those snapshots in order,
   followed by the alerts the raising poll appended before its error.
   */
  ghost predicate Recorded(before: Monitor, inputs: seq<PollInput>, after: Monitor)
    requires WellShaped(inputs)
  {
    && |after.history| == |before.history| + FirstCrash(inputs)
    && after.history[..|before.history|] == before.history
    && (forall i :: 0 <= i < FirstCrash(inputs) ==>
          after.history[|before.history| + i] == Observe(inputs[i].primary, inputs[i].replicas))
    && after.alerts == before.alerts + LoopAlerts(after.history[|before.history|..]) + CrashAlerts(inputs)
  }

  function CountWrites(actions: seq<Action>): nat {
    if |actions| == 0 then 0
    else (if actions[0].SimulateWrites? then 1 else 0) + CountWrites(actions[1..])
  }

  function CountPrints(actions: seq<Action>): nat {
    if |actions| == 0 then 0
    else (if actions[0].PrintStatus? then 1 else 0) + CountPrints(actions[1..])
  }

  function CountChecks(actions: seq<Action>): nat {
    if |actions| == 0 then 0
    else (if actions[0].CheckStatus? then 1 else 0) + CountChecks(actions[1..])
  }

  lemma {:induction false} CountsAppend(a: seq<Action>, b: seq<Action>)
    ensures CountWrites(a + b) == CountWrites(a) + CountWrites(b)
    ensures CountPrints(a + b) == CountPrints(a) + CountPrints(b)
    ensures CountChecks(a + b) == CountChecks(a) + CountChecks(b)
    decreases |a|
  {
    if |a| == 0 {
      assert a + b == b;
    } else {
      assert (a + b)[1..] == a[1..] + b;
      CountsAppend(a[1..], b);
    }
  }

  /** Every write the actions perform is a batch of `WriteBatch` rows. */
  ghost predicate FullBatches(actions: seq<Action>) {
    forall a :: a in actions && a.SimulateWrites? ==> a.rows == WriteBatch
  }

  lemma {:induction false} CountsOne(a: Action)
    ensures CountWrites([a]) == if a.SimulateWrites? then 1 else 0
    ensures CountPrints([a]) == if a.PrintStatus? then 1 else 0
    ensures CountChecks([a]) == if a.CheckStatus? then 1 else 0
  {
    assert [a][1..] == [];
  }

  /** Where an action falls in a run: setup, then per iteration write, poll, print. */
  function Rank(a: Action): nat {
    match a
    case SetupPrimary => 0
    case SimulateWrites(_) => 1
    case CheckStatus => 2
    case PrintStatus(_) => 3
  }

  /** Each action comes strictly later in the order of `Rank` than the one before it. */
  ghost predicate InOrder(acts: seq<Action>) {
    forall i, j :: 0 <= i < j < |acts| ==> Rank(acts[i]) < Rank(acts[j])
  }

  /**
   The actions of iteration number `iteration` (counted from 1) up to and
   including its poll: on even iterations the write batch comes first.
   */
  function BeforePoll(iteration: nat): (acts: seq<Action>)
    ensures InOrder(acts)
    ensures SetupPrimary !in acts
    ensures |acts| > 0 && acts[|acts| - 1] == CheckStatus
    ensures CountChecks(acts) == 1 && CountPrints(acts) == 0
    ensures CountWrites(acts) == if iteration % 2 == 0 then 1 else 0
    ensures FullBatches(acts)
  {
    if iteration % 2 == 0 then
      CountsOne(SimulateWrites(WriteBatch));
      CountsOne(CheckStatus);
      CountsAppend([SimulateWrites(WriteBatch)], [CheckStatus]);
      [SimulateWrites(WriteBatch)] + [CheckStatus]
    else
      CountsOne(CheckStatus);
      [CheckStatus]
  }

  /**
   The actions of a completed iteration: the write batch on even
   iterations, then the poll, then on even iterations the print of the
   snapshot that poll recorded.
   */
  function Step(iteration: nat, status: Snapshot): (acts: seq<Action>)
    ensures InOrder(acts)
    ensures SetupPrimary !in acts
    ensures CheckStatus in acts
    ensures forall a :: a in acts && a.PrintStatus? ==> a.status == status
    ensures CountChecks(acts) == 1
    ensures CountWrites(acts) == CountPrints(acts) == if iteration % 2 == 0 then 1 else 0
    ensures FullBatches(acts)
  {
    var before := BeforePoll(iteration);
    assert before[|before| - 1] in before;
    if iteration % 2 == 0 then
      CountsOne(PrintStatus(status));
      CountsAppend(before, [PrintStatus(status)]);
      before + [PrintStatus(status)]
    else
      before
  }

  /**
   Reference definition: the actions of the iterations numbered `done + 1`,
   `done + 2`, ..., in order, where iteration `done + 1 + i` recorded
   `snapshots[i]`; when `crashed`, followed by what the next iteration did
   up to its poll, which raised.
   */
  function Trace(done: nat, snapshots: seq<Snapshot>, crashed: bool): (t: seq<Action>)
    ensures SetupPrimary !in t
    decreases |snapshots|
  {
    if |snapshots| == 0 then (if crashed then BeforePoll(done + 1) else [])
    else Step(done + 1, snapshots[0]) + Trace(done + 1, snapshots[1..], crashed)
  }

  /**
   A trace that ends in a raising poll is the trace of the completed
   iterations followed by the raising iteration's actions up to its poll;
   `last` is that iteration's number.
   */
  lemma {:induction false} TraceSplit(done: nat, snapshots: seq<Snapshot>, last: nat)
    requires last == done + |snapshots| + 1
    ensures Trace(done, snapshots, true) == Trace(done, snapshots, false) + BeforePoll(last)
    decreases |snapshots|
  {
    if |snapshots| > 0 {
      var next, newer := done + 1, snapshots[1..];
      TraceSplit(next, newer, last);
      assert snapshots == [snapshots[0]] + newer;
      TraceCons(done, next, snapshots[0], newer, snapshots, true);
      TraceCons(done, next, snapshots[0], newer, snapshots, false);
      Regroup(Step(next, snapshots[0]), Trace(next, newer, false), Trace(next, newer, true),
              Trace(done, snapshots, false), BeforePoll(last));
    }
  }

  /**
   The loop after `done` iterations have run, given the inputs of the
   iterations still to run. It stops early at the first poll that raises.
   */
  function Iterate(m: Monitor, done: nat, inputs: seq<PollInput>): (out: Loop)
    requires WellShaped(inputs)
    ensures out.crashed <==> FirstCrash(inputs) < |inputs|
    ensures Recorded(m, inputs, out.monitor)
    ensures CountChecks(out.actions) == FirstCrash(inputs) + (if out.crashed then 1 else 0)
    ensures CountWrites(out.actions) == EvenIterations(done, CountChecks(out.actions))
    ensures CountPrints(out.actions) == EvenIterations(done, FirstCrash(inputs))
    ensures FullBatches(out.actions)
    decreases |inputs|
  {
    if |inputs| == 0 then Loop(m, [], false)
    else
      var iteration := done + 1;
      match Poll(m, inputs[0].primary, inputs[0].replicas)
      case Raised(m') =>
        IterateCrash(m, m', done, inputs);
        Loop(m', BeforePoll(iteration), true)
      case Polled(m', snapshot) =>
        var rest := Iterate(m', iteration, inputs[1..]);
        FirstCrashCons(inputs);
        RecordedCons(m, m', snapshot, inputs, rest.monitor);
        IterateStep(snapshot, done, inputs, rest);
        Loop(rest.monitor, Step(iteration, snapshot) + rest.actions, rest.crashed)
  }

  /**
   The actions of one completed iteration followed by those of the
   remaining ones, from what the loop promises about the latter.
   */
  lemma {:induction false} IterateStep(snapshot: Snapshot, done: nat, inputs: seq<PollInput>, rest: Loop)
    requires |inputs| > 0
    requires FirstCrash(inputs) == 1 + FirstCrash(inputs[1..])
    requires rest.crashed <==> FirstCrash(inputs[1..]) < |inputs[1..]|
    requires CountChecks(rest.actions) == FirstCrash(inputs[1..]) + (if rest.crashed then 1 else 0)
    requires CountWrites(rest.actions) == EvenIterations(done + 1, CountChecks(rest.actions))
    requires CountPrints(rest.actions) == EvenIterations(done + 1, FirstCrash(inputs[1..]))
    requires FullBatches(rest.actions)
    ensures var actions := Step(done + 1, snapshot) + rest.actions;
      && (rest.crashed <==> FirstCrash(inputs) < |inputs|)
      && CountChecks(actions) == FirstCrash(inputs) + (if rest.crashed then 1 else 0)
      && CountWrites(actions) == EvenIterations(done, CountChecks(actions))
      && CountPrints(actions) == EvenIterations(done, FirstCrash(inputs))
      && FullBatches(actions)
  {
    StepCounts(done, snapshot, rest.actions, FirstCrash(inputs[1..]), rest.crashed);
    FullBatchesAppend(Step(done + 1, snapshot), rest.actions);
  }

  /**
   The loop's actions are exactly those of its completed iterations, one
   `Step` per recorded snapshot in order, followed, when a poll raised, by
   what that last iteration did up to its poll.
   */
  lemma {:induction false} IterateTraced(m: Monitor, done: nat, inputs: seq<PollInput>)
    requires WellShaped(inputs)
    ensures var out := Iterate(m, done, inputs);
      out.actions == Trace(done, out.monitor.history[|m.history|..], out.crashed)
    decreases |inputs|
  {
    if |inputs| > 0 {
      match Poll(m, inputs[0].primary, inputs[0].replicas)
      case Raised(m') =>
        IterateCrash(m, m', done, inputs);
        assert m'.history[|m.history|..] == [];
      case Polled(m', snapshot) =>
        var next, later := done + 1, inputs[1..];
        var rest := Iterate(m', next, later);
        IterateTraced(m', next, later);
        IterateTrace(m, m', snapshot, done, next, later, rest);
    } else {
      assert m.history[|m.history|..] == [];
    }
  }

  /** `Trace` of a non-empty history: the first iteration, then the others. */
  lemma {:induction false} TraceCons(done: nat, next: nat, snapshot: Snapshot, newer: seq<Snapshot>,
                                     snapshots: seq<Snapshot>, crashed: bool)
    requires next == done + 1 && snapshots == [snapshot] + newer
    ensures Trace(done, snapshots, crashed) == Step(next, snapshot) + Trace(next, newer, crashed)
  {
    assert snapshots[0] == snapshot && snapshots[1..] == newer;
    assert Trace(done, snapshots, crashed) == Step(done + 1, snapshots[0]) + Trace(done + 1, snapshots[1..], crashed);
  }

  /** One completed iteration in front of the trace of the remaining ones. */
  lemma {:induction false} IterateTrace(m: Monitor, polled: Monitor, snapshot: Snapshot, done: nat, next: nat,
                                        later: seq<PollInput>, rest: Loop)
    requires WellShaped(later) && next == done + 1
    requires polled.history == m.history + [snapshot]
    requires Recorded(polled, later, rest.monitor)
    requires rest.actions == Trace(next, rest.monitor.history[|polled.history|..], rest.crashed)
    ensures Step(next, snapshot) + rest.actions == Trace(done, rest.monitor.history[|m.history|..], rest.crashed)
  {
    var newer := rest.monitor.history[|polled.history|..];
    HistoryCons(m.history, polled.history, snapshot, rest.monitor.history);
    TraceCons(done, next, snapshot, newer, rest.monitor.history[|m.history|..], rest.crashed);
  }

  /** A history extending `before + [snapshot]` continues, after `before`, with `snapshot`. */
  lemma HistoryCons(before: seq<Snapshot>, polled: seq<Snapshot>, snapshot: Snapshot, after: seq<Snapshot>)
    requires polled == before + [snapshot]
    requires |after| >= |polled| && after[..|polled|] == polled
    ensures after[|before|..] == [snapshot] + after[|polled|..]
  {
    assert after[|before|] == polled[|before|];
  }

  /** Prepending `head` to `rest == body + tail` gives `whole + tail` when `whole == head + body`. */
  lemma Regroup<T>(head: seq<T>, body: seq<T>, rest: seq<T>, whole: seq<T>, tail: seq<T>)
    requires whole == head + body && rest == body + tail
    ensures head + rest == whole + tail
  {
    assert head + (body + tail) == (head + body) + tail;
  }

  /** `Recorded` across one completed poll followed by the remaining iterations. */
  lemma {:induction false} RecordedCons(m: Monitor, polled: Monitor, snapshot: Snapshot,
                                        inputs: seq<PollInput>, final: Monitor)
    requires WellShaped(inputs) && |inputs| > 0
    requires Reachable(inputs[0].replicas)
    requires polled.history == m.history + [snapshot]
    requires polled.alerts == m.alerts + AlertsOf(snapshot.replicas)
    requires snapshot == Observe(inputs[0].primary, inputs[0].replicas)
    requires Recorded(polled, inputs[1..], final)
    ensures Recorded(m, inputs, final)
    ensures |m.history| <= |polled.history| <= |final.history|
    ensures final.history[|m.history|..] == [snapshot] + final.history[|polled.history|..]
  {
    FirstCrashCons(inputs);
    IterateHistory(m.history, snapshot, final.history, inputs);
    IterateAlerts(m.alerts, snapshot, final.history[|m.history| + 1..], CrashAlerts(inputs), final.alerts);
  }

  lemma {:induction false} FullBatchesAppend(a: seq<Action>, b: seq<Action>)
    requires FullBatches(a) && FullBatches(b)
    ensures FullBatches(a + b)
  {
    forall x | x in a + b
      ensures x in a || x in b
    {
    }
  }

  /** How many of the iterations numbered `done + 1` to `done + n` are even. */
  function EvenIterations(done: nat, n: nat): nat
    decreases n
  {
    if n == 0 then 0
    else (if (done + 1) % 2 == 0 then 1 else 0) + EvenIterations(done + 1, n - 1)
  }

  /** Iterations `done + 1` to `done + n` hold floor((done + n) / 2) - floor(done / 2) even ones. */
  lemma {:induction false} EvenIterationsHalf(done: nat, n: nat)
    ensures EvenIterations(done, n) == (done + n) / 2 - done / 2
    decreases n
  {
    if n > 0 {
      EvenIterationsHalf(done + 1, n - 1);
    }
  }

  /** The action counts after one completed iteration, from those of the iterations after it. */
  lemma {:induction false} StepCounts(done: nat, snapshot: Snapshot, rest: seq<Action>, polls: nat, crashed: bool)
    requires CountChecks(rest) == polls + (if crashed then 1 else 0)
    requires CountWrites(rest) == EvenIterations(done + 1, CountChecks(rest))
    requires CountPrints(rest) == EvenIterations(done + 1, polls)
    ensures CountChecks(Step(done + 1, snapshot) + rest) == polls + 1 + (if crashed then 1 else 0)
    ensures CountWrites(Step(done + 1, snapshot) + rest)
         == EvenIterations(done, CountChecks(Step(done + 1, snapshot) + rest))
    ensures CountPrints(Step(done + 1, snapshot) + rest) == EvenIterations(done, polls + 1)
  {
    CountsAppend(Step(done + 1, snapshot), rest);
  }

  /** An iteration whose poll raises ends the loop. */
  lemma {:induction false} IterateCrash(m: Monitor, raised: Monitor, done: nat, inputs: seq<PollInput>)
    requires WellShaped(inputs) && |inputs| > 0
    requires !Reachable(inputs[0].replicas)
    requires raised.history == m.history
    requires raised.alerts == m.alerts + AlertsOf(Answered(inputs[0].primary, inputs[0].replicas))
    ensures FirstCrash(inputs) == 0
    ensures Recorded(m, inputs, raised)
    ensures CountChecks(BeforePoll(done + 1)) == 1
    ensures CountWrites(BeforePoll(done + 1)) == EvenIterations(done, 1)
    ensures CountPrints(BeforePoll(done + 1)) == EvenIterations(done, 0)
  {
    assert raised.history[|m.history|..] == [];
  }

  lemma {:induction false} LoopAlertsCons(s: Snapshot, rest: seq<Snapshot>)
    ensures LoopAlerts([s] + rest) == AlertsOf(s.replicas) + LoopAlerts(rest)
  {
    assert ([s] + rest)[1..] == rest;
  }

  /** Skipping an iteration whose poll completes. */
  lemma {:induction false} FirstCrashCons(inputs: seq<PollInput>)
    requires WellShaped(inputs) && |inputs| > 0
    requires Reachable(inputs[0].replicas)
    ensures FirstCrash(inputs) == 1 + FirstCrash(inputs[1..])
    ensures CrashAlerts(inputs) == CrashAlerts(inputs[1..])
  {
    var k := FirstCrash(inputs[1..]);
    if k < |inputs| - 1 {
      assert inputs[1..][k] == inputs[k + 1];
    }
  }

  /**
   The history after one completed poll, which appended `snapshot`, and the
   remaining iterations, in terms of the history before them.
   */
  lemma {:induction false} IterateHistory(before: seq<Snapshot>, snapshot: Snapshot, after: seq<Snapshot>, inputs: seq<PollInput>)
    requires WellShaped(inputs) && |inputs| > 0
    requires FirstCrash(inputs) == 1 + FirstCrash(inputs[1..])
    requires snapshot == Observe(inputs[0].primary, inputs[0].replicas)
    requires |after| == |before| + 1 + FirstCrash(inputs[1..])
    requires after[..|before| + 1] == before + [snapshot]
    requires forall i :: 0 <= i < FirstCrash(inputs[1..]) ==>
               after[|before| + 1 + i] == Observe(inputs[1..][i].primary, inputs[1..][i].replicas)
    ensures after[..|before|] == before
    ensures after[|before|..] == [snapshot] + after[|before| + 1..]
    ensures forall i :: 0 <= i < FirstCrash(inputs) ==>
              after[|before| + i] == Observe(inputs[i].primary, inputs[i].replicas)
  {
    var n := |before|;
    assert after[..n] == (before + [snapshot])[..n];
    assert after[n] == (before + [snapshot])[n];
    forall i | 0 <= i < FirstCrash(inputs)
      ensures after[n + i] == Observe(inputs[i].primary, inputs[i].replicas)
    {
      if i > 0 {
        assert inputs[1..][i - 1] == inputs[i];
      }
    }
  }

  /**
   The alerts after one completed poll, which appended the alerts of
   `snapshot`, and the remaining iterations.
   */
  lemma {:induction false} IterateAlerts(before: seq<Alert>, snapshot: Snapshot, newer: seq<Snapshot>, crash: seq<Alert>, after: seq<Alert>)
    requires after == before + AlertsOf(snapshot.replicas) + LoopAlerts(newer) + crash
    ensures after == before + LoopAlerts([snapshot] + newer) + crash
  {
    LoopAlertsCons(snapshot, newer);
  }

  /** The action counts of a run that set up the primary and then ran its loop. */
  lemma {:induction false} RunCounts(loop: seq<Action>, polls: nat, crashed: bool)
    requires CountChecks(loop) == polls + (if crashed then 1 else 0)
    requires CountWrites(loop) == EvenIterations(0, CountChecks(loop))
    requires CountPrints(loop) == EvenIterations(0, polls)
    ensures CountChecks([SetupPrimary] + loop) == CountChecks(loop)
    ensures CountWrites([SetupPrimary] + loop) == CountChecks(loop) / 2
    ensures CountPrints([SetupPrimary] + loop) == polls / 2
  {
    EvenIterationsHalf(0, CountChecks(loop));
    EvenIterationsHalf(0, polls);
    CountsAppend([SetupPrimary], loop);
  }

  /** `Recorded` from a freshly constructed monitor. */
  lemma {:induction false} RecordedFresh(inputs: seq<PollInput>, after: Monitor)
    requires WellShaped(inputs)
    requires Recorded(Fresh, inputs, after)
    ensures |after.history| == FirstCrash(inputs)
    ensures forall i :: 0 <= i < FirstCrash(inputs) ==>
              after.history[i] == Observe(inputs[i].primary, inputs[i].replicas)
    ensures after.alerts == LoopAlerts(after.history) + CrashAlerts(inputs)
  {
    var h := after.history;
    assert Fresh.history == [] && Fresh.alerts == [];
    assert h[|Fresh.history|..] == h;
    assert Fresh.alerts + LoopAlerts(h) == LoopAlerts(h);
    forall i | 0 <= i < FirstCrash(inputs)
      ensures after.history[i] == Observe(inputs[i].primary, inputs[i].replicas)
    {
      assert after.history[|Fresh.history| + i] == Observe(inputs[i].primary, inputs[i].replicas);
    }
  }

  /** The run once every region connected: set up the primary, then the loop until a poll raises. */
  function Launch(inputs: seq<PollInput>): (r: Run)
    requires WellShaped(inputs)
    ensures !r.Aborted?
    ensures r.Crashed? <==> FirstCrash(inputs) < |inputs|
    ensures |r.actions| > 0 && r.actions[0] == SetupPrimary
    ensures |r.monitor.history| == FirstCrash(inputs)
    ensures forall i :: 0 <= i < FirstCrash(inputs) ==>
              r.monitor.history[i] == Observe(inputs[i].primary, inputs[i].replicas)
    ensures r.monitor.alerts == LoopAlerts(r.monitor.history) + CrashAlerts(inputs)
    ensures CountChecks(r.actions) == FirstCrash(inputs) + (if r.Crashed? then 1 else 0)
    ensures CountWrites(r.actions) == CountChecks(r.actions) / 2
    ensures CountPrints(r.actions) == FirstCrash(inputs) / 2
  {
    var loop := Iterate(Fresh, 0, inputs);
    RunCounts(loop.actions, FirstCrash(inputs), loop.crashed);
    RecordedFresh(inputs, loop.monitor);
    var actions := [SetupPrimary] + loop.actions;
    if loop.crashed then Crashed(loop.monitor, actions) else Finished(loop.monitor, actions)
  }

  /**
   A started run sets the primary up once, first, and then performs exactly
   the actions of its iterations: `Trace` of the recorded snapshots, and
   the unfinished iteration when a poll raised.
   */
  lemma {:induction false} LaunchTraced(inputs: seq<PollInput>)
    requires WellShaped(inputs)
    ensures var r := Launch(inputs);
      r.actions == [SetupPrimary] + Trace(0, r.monitor.history, r.Crashed?)
    ensures SetupPrimary !in Launch(inputs).actions[1..]
  {
    FreshTraced(inputs);
    var loop := Iterate(Fresh, 0, inputs);
    var r := Launch(inputs);
    assert r.actions == [SetupPrimary] + loop.actions && r.monitor == loop.monitor && r.Crashed? == loop.crashed;
    assert r.actions[1..] == loop.actions;
  }

  /** `IterateTraced` for the loop as `Launch` starts it. */
  lemma {:induction false} FreshTraced(inputs: seq<PollInput>)
    requires WellShaped(inputs)
    ensures var loop := Iterate(Fresh, 0, inputs);
      loop.actions == Trace(0, loop.monitor.history, loop.crashed)
  {
    // Named copies of the literal arguments, so that the solver matches
    // what `IterateTraced` states about them with the call `Launch` makes.
    var start: nat, empty := 0, Fresh;
    var loop := Iterate(empty, start, inputs);
    IterateTraced(empty, start, inputs);
    assert loop.monitor.history[|empty.history|..] == loop.monitor.history;
    assert Trace(start, loop.monitor.history, loop.crashed) == Trace(0, loop.monitor.history, loop.crashed);
  }

  /**
   A whole run: connect, and only if every region connected, set up the
   primary and run one iteration per poll input, until a poll raises.
   */
  function RunMonitoring(up: seq<bool>, inputs: seq<PollInput>): (r: Run)
    requires |up| == |Endpoints|
    requires WellShaped(inputs)
    ensures r.Aborted? <==> !(forall i :: 0 <= i < |up| ==> up[i])
    ensures r.Crashed? <==> (forall i :: 0 <= i < |up| ==> up[i]) && FirstCrash(inputs) < |inputs|
    ensures !r.Aborted? ==> |r.actions| > 0 && r.actions[0] == SetupPrimary
    ensures !r.Aborted? ==> |r.monitor.history| == FirstCrash(inputs)
    ensures !r.Aborted? ==> forall i :: 0 <= i < FirstCrash(inputs) ==>
              r.monitor.history[i] == Observe(inputs[i].primary, inputs[i].replicas)
    ensures !r.Aborted? ==> r.monitor.alerts == LoopAlerts(r.monitor.history) + CrashAlerts(inputs)
    ensures r.Finished? ==> CountChecks(r.actions) == |inputs|
    ensures r.Finished? ==> CountWrites(r.actions) == CountPrints(r.actions) == |inputs| / 2
    ensures r.Crashed? ==> CountChecks(r.actions) == FirstCrash(inputs) + 1
    ensures r.Crashed? ==> CountWrites(r.actions) == (FirstCrash(inputs) + 1) / 2
    ensures r.Crashed? ==> CountPrints(r.actions) == FirstCrash(inputs) / 2
  {
    if ConnectAll(up) then Launch(inputs) else Aborted
  }

  /**
   A run that got past connecting sets the primary up once, first, and
   then performs exactly the actions `Trace` gives for its history.
   */
  lemma {:induction false} RunMonitoringTraced(up: seq<bool>, inputs: seq<PollInput>)
    requires |up| == |Endpoints|
    requires WellShaped(inputs)
    ensures var r := RunMonitoring(up, inputs);
      !r.Aborted? ==> r.actions == [SetupPrimary] + Trace(0, r.monitor.history, r.Crashed?)
    ensures var r := RunMonitoring(up, inputs);
      !r.Aborted? ==> SetupPrimary !in r.actions[1..]
  {
    if ConnectAll(up) {
      LaunchTraced(inputs);
    }
  }
}
