/** restart_all: for each group, for each in-service instance in discovery
    order: drain (when a cluster is given), terminate, wait for the group to
    recover. */
module Controller {
  import opened Provider
  import opened Groups
  import opened Drain
  import opened Capacity

  /** Seconds slept between the terminate request and the termination wait. */
  const TERMINATE_GRACE: nat := 10

  /** How the terminate block ends: the waiter confirmed termination, the
      waiter (or the request) raised but the instance already reads
      `terminated`, or it raised and the instance is in some other state. */
  datatype TermResult = Confirmed | AlreadyTerminated | StillIn(state: string)

  /** The try/except block around terminate_instances, from clock time `t`. */
  function TerminateSpec(env: Provider, instanceId: string, t: int): Effect<TermResult>
  {
    var requested := t + env.latency;
    var accepted := env.terminateAccepted(instanceId, t);
    var woke := requested + TERMINATE_GRACE;
    var confirmed := accepted && env.terminationConfirmed(instanceId, woke);
    var tried := if accepted then [Terminate(instanceId), Sleep(TERMINATE_GRACE), WaitTerminated(instanceId)]
                 else [Terminate(instanceId)];
    var after := if accepted then woke + env.latency else requested;
    if confirmed then Effect(Confirmed, after, tried)
    else
      var state := env.stateAt(instanceId, after);
      Effect(if state == TERMINATED then AlreadyTerminated else StillIn(state),
             after + env.latency, tried + [DescribeInstance(instanceId)])
  }

  /** A call the terminate block may issue for the given instance. */
  predicate TerminateCall(a: Action, instanceId: string) {
    a == Terminate(instanceId) || a == Sleep(TERMINATE_GRACE) ||
    a == WaitTerminated(instanceId) || a == DescribeInstance(instanceId)
  }

  /** The terminate block requests termination first, only ever touches its
      own instance, and treats an instance that already reads `terminated` as
      done: it fails only in another state. It is confirmed exactly when the
      request was accepted and the termination waiter, called after the grace
      sleep, returned; a refused request goes straight to the except branch. */
  lemma TerminateShape(env: Provider, instanceId: string, t: int)
    ensures var e := TerminateSpec(env, instanceId, t);
      |e.actions| > 0 && e.actions[0] == Terminate(instanceId) &&
      (forall a :: a in e.actions ==> TerminateCall(a, instanceId)) &&
      (e.value.Confirmed? <==> env.terminateAccepted(instanceId, t) &&
                               env.terminationConfirmed(instanceId, t + env.latency + TERMINATE_GRACE)) &&
      (e.value.Confirmed? ==> e.actions == [Terminate(instanceId), Sleep(TERMINATE_GRACE), WaitTerminated(instanceId)] &&
                              e.clock == t + env.latency + TERMINATE_GRACE + env.latency) &&
      (!env.terminateAccepted(instanceId, t) ==> e.actions == [Terminate(instanceId), DescribeInstance(instanceId)]) &&
      (env.terminateAccepted(instanceId, t) && !e.value.Confirmed? ==>
         e.actions == [Terminate(instanceId), Sleep(TERMINATE_GRACE), WaitTerminated(instanceId), DescribeInstance(instanceId)]) &&
      (e.value.StillIn? ==> e.value.state != TERMINATED) &&
      (e.value.Confirmed? <==> e.actions[|e.actions| - 1] == WaitTerminated(instanceId)) &&
      (!e.value.Confirmed? ==> e.value == (if env.stateAt(instanceId, e.clock - env.latency) == TERMINATED
                                           then AlreadyTerminated else StillIn(env.stateAt(instanceId, e.clock - env.latency))))
  {
  }

  /** An instance that stays `terminated` whenever it is described never makes
      the terminate block fail. */
  lemma TerminateIdempotent(env: Provider, instanceId: string, t: int)
    requires forall s :: env.stateAt(instanceId, s) == TERMINATED
    ensures !TerminateSpec(env, instanceId, t).value.StillIn?
  {
  }

  /** The calls issued for one instance, split by phase, and how its
      processing ended. */
  datatype StepTrace = StepTrace(instanceId: string, drain: seq<Action>, term: seq<Action>,
                                 await: seq<Action>, outcome: Outcome)

  /** The result of processing one instance. */
  datatype StepResult = StepResult(clock: int, trace: StepTrace)

  /** The drain phase: drain_instance when the cluster argument is truthy,
      nothing otherwise. */
  function DrainPhase(env: Provider, cluster: Option<string>, region: string, instanceId: string, t: int): Effect<Outcome>
  {
    if Truthy(cluster) then DrainSpec(env, instanceId, cluster.value, region, t) else Effect(Ok, t, [])
  }

  /** The body of the inner loop of restart_all for one instance, from clock time `t`. */
  function Step(env: Provider, asgName: string, cluster: Option<string>, region: string, instanceId: string, t: int): StepResult
  {
    var d := DrainPhase(env, cluster, region, instanceId, t);
    var k := TerminateSpec(env, instanceId, d.clock);
    var w := WaitSpec(env, asgName, DEFAULT_TIMEOUT_MINUTES, k.clock);
    Combine(instanceId, d, k, w)
  }

  /** How the three phases make up one instance's processing: a drain error
      ends it, a terminate block that raised ends it, an instance already
      terminated ends it normally, and otherwise the recovery wait follows. */
  function Combine(instanceId: string, d: Effect<Outcome>, k: Effect<TermResult>, w: Effect<WaitResult>): StepResult
  {
    if d.value.Raised? then StepResult(d.clock, StepTrace(instanceId, d.actions, [], [], d.value))
    else
      match k.value
      case StillIn(state) =>
        StepResult(k.clock, StepTrace(instanceId, d.actions, k.actions, [], Raised(TerminationFailed(instanceId, state))))
      case AlreadyTerminated =>
        StepResult(k.clock, StepTrace(instanceId, d.actions, k.actions, [], Ok))
      case Confirmed =>
        StepResult(w.clock, StepTrace(instanceId, d.actions, k.actions, w.actions, WaitOutcome(w.value)))
  }

  /** The errors drain_instance raises. */
  predicate DrainError(e: Error) {
    e.HostNotFound? || e.DrainRejected?
  }

  /** A call drain_instance may issue for the given instance and cluster. */
  predicate DrainCall(a: Action, instanceId: string, cluster: string) {
    a == ListHosts(cluster) || a == DescribeHosts(cluster) || (a.SetDraining? && a.cluster == cluster) ||
    a.DescribeTasks? || a == Sleep(POLL_INTERVAL) || a == DrainTimedOut(instanceId)
  }

  /** A call wait_for_running may issue. */
  predicate WaitCall(a: Action, asgName: string) {
    a == DescribeGroups(asgName) || a == Sleep(GROUP_POLL) || a.WaitHealthy?
  }

  /** The per-instance order of restart_all: drain calls (exactly when the
      cluster is truthy), then the terminate block, which is skipped exactly
      when drain raised, then the recovery wait, which runs exactly when the
      termination wait returned normally. */
  predicate WellFormedStep(s: StepTrace, asgName: string, cluster: Option<string>) {
    && (s.drain == [] <==> !Truthy(cluster))
    && (Truthy(cluster) ==> forall a :: a in s.drain ==> DrainCall(a, s.instanceId, cluster.value))
    && (s.term == [] <==> s.outcome.Raised? && DrainError(s.outcome.error))
    && (s.term != [] ==> s.term[0] == Terminate(s.instanceId) &&
                         forall a :: a in s.term ==> TerminateCall(a, s.instanceId))
    && (s.await != [] <==> s.term != [] && s.term[|s.term| - 1] == WaitTerminated(s.instanceId))
    && (forall a :: a in s.await ==> WaitCall(a, asgName))
    && (s.outcome.Raised? && s.outcome.error.TerminationFailed? ==>
          s.outcome.error.instanceId == s.instanceId && s.outcome.error.state != TERMINATED && s.await == [])
  }

  /** The drain phase issues calls exactly when the cluster argument is
      truthy, only drain_instance's calls on that cluster, and raises only
      drain_instance's errors. */
  lemma DrainPhaseCalls(env: Provider, cluster: Option<string>, region: string, instanceId: string, t: int)
    ensures var d := DrainPhase(env, cluster, region, instanceId, t);
      (d.actions == [] <==> !Truthy(cluster)) &&
      (Truthy(cluster) ==> forall a :: a in d.actions ==> DrainCall(a, instanceId, cluster.value)) &&
      (d.value.Raised? ==> DrainError(d.value.error))
  {
    if Truthy(cluster) {
      var d := DrainSpec(env, instanceId, cluster.value, region, t);
      var hosts := env.hostsAt(cluster.value, t + env.latency);
      var k := FirstMatch(hosts, instanceId);
      if k.Some? && env.drainFailuresAt(cluster.value, hosts[k.value].containerInstanceArn, t + 2 * env.latency) == [] {
        var arn := hosts[k.value].containerInstanceArn;
        var ready := t + 4 * env.latency;
        var p := DrainPoll(env, cluster.value, arn, env.tasksAt(cluster.value, arn, t + 3 * env.latency), ready, ready + DRAIN_WAIT);
        DrainPollCalls(env, cluster.value, arn, env.tasksAt(cluster.value, arn, t + 3 * env.latency), ready, ready + DRAIN_WAIT);
        forall a | a in p.actions ensures DrainCall(a, instanceId, cluster.value) {
          assert a == Sleep(POLL_INTERVAL) || a == DescribeTasks(arn);
        }
      }
    }
  }

  /** Every processed instance follows the per-instance order. */
  lemma StepShape(env: Provider, asgName: string, cluster: Option<string>, region: string, instanceId: string, t: int)
    ensures var s := Step(env, asgName, cluster, region, instanceId, t);
      s.trace.instanceId == instanceId && WellFormedStep(s.trace, asgName, cluster)
  {
    var d := DrainPhase(env, cluster, region, instanceId, t);
    DrainPhaseCalls(env, cluster, region, instanceId, t);
    var k := TerminateSpec(env, instanceId, d.clock);
    TerminateShape(env, instanceId, d.clock);
    var deadline := k.clock + DEFAULT_TIMEOUT_MINUTES * 60;
    var w := WaitLoop(env, asgName, k.clock, deadline);
    assert w.actions[0] == DescribeGroups(asgName);
    WaitCalls(env, asgName, k.clock, deadline);
    CombineShape(instanceId, d, k, w, asgName, cluster);
  }

  /** Phases that each issue only their own calls combine into a
      well-formed step. */
  lemma CombineShape(instanceId: string, d: Effect<Outcome>, k: Effect<TermResult>, w: Effect<WaitResult>,
                     asgName: string, cluster: Option<string>)
    requires d.actions == [] <==> !Truthy(cluster)
    requires Truthy(cluster) ==> forall a :: a in d.actions ==> DrainCall(a, instanceId, cluster.value)
    requires d.value.Raised? ==> DrainError(d.value.error)
    requires |k.actions| > 0 && k.actions[0] == Terminate(instanceId)
    requires forall a :: a in k.actions ==> TerminateCall(a, instanceId)
    requires k.value.StillIn? ==> k.value.state != TERMINATED
    requires k.value.Confirmed? <==> k.actions[|k.actions| - 1] == WaitTerminated(instanceId)
    requires |w.actions| > 0 && forall a :: a in w.actions ==> WaitCall(a, asgName)
    ensures var s := Combine(instanceId, d, k, w);
      s.trace.instanceId == instanceId && WellFormedStep(s.trace, asgName, cluster)
  {
  }

  /** After a drain that returned normally, the state re-read in the except
      branch decides the instance: `terminated` moves on to the next instance
      without the recovery wait, any other state re-raises; only a
      termination wait that returned leads to the recovery wait, whose
      outcome and clock then end the instance's processing. */
  lemma StepAfterTerminate(env: Provider, asgName: string, cluster: Option<string>, region: string, instanceId: string, t: int)
    requires DrainPhase(env, cluster, region, instanceId, t).value == Ok
    ensures var d := DrainPhase(env, cluster, region, instanceId, t);
      var k := TerminateSpec(env, instanceId, d.clock);
      var s := Step(env, asgName, cluster, region, instanceId, t);
      (k.value == AlreadyTerminated ==> s.trace.outcome == Ok && s.trace.await == [] && s.clock == k.clock) &&
      (k.value.StillIn? ==> s.trace.outcome == Raised(TerminationFailed(instanceId, k.value.state)) && s.trace.await == []) &&
      (k.value == Confirmed ==>
        var w := WaitSpec(env, asgName, DEFAULT_TIMEOUT_MINUTES, k.clock);
        s.trace.await == w.actions && s.trace.outcome == WaitOutcome(w.value) && s.clock == w.clock)
  {
  }

  /** After a normal drain and a confirmed termination, the instance ends
      with the health waiter's error exactly when the recovery wait called the
      waiter and the provider's waiter did not return; otherwise it ends
      normally, including when the wait gave up. */
  lemma StepHealthOutcome(env: Provider, asgName: string, cluster: Option<string>, region: string, instanceId: string, t: int)
    requires DrainPhase(env, cluster, region, instanceId, t).value == Ok
    requires TerminateSpec(env, instanceId, DrainPhase(env, cluster, region, instanceId, t).clock).value == Confirmed
    ensures var k := TerminateSpec(env, instanceId, DrainPhase(env, cluster, region, instanceId, t).clock);
      var w := WaitSpec(env, asgName, DEFAULT_TIMEOUT_MINUTES, k.clock);
      Step(env, asgName, cluster, region, instanceId, t).trace.outcome ==
        (if !w.value.GaveUp? && !env.healthyAt(w.value.ids, w.clock - env.latency)
         then Raised(HealthWaitFailed(w.value.ids)) else Ok)
  {
    var k := TerminateSpec(env, instanceId, DrainPhase(env, cluster, region, instanceId, t).clock);
    WaitHealthyResult(env, asgName, k.clock, k.clock + DEFAULT_TIMEOUT_MINUTES * 60);
  }

  /** wait_for_running issues only its own calls. */
  lemma {:induction false} WaitCalls(env: Provider, asgName: string, t: int, deadline: int)
    ensures forall a :: a in WaitLoop(env, asgName, t, deadline).actions ==> WaitCall(a, asgName)
    decreases deadline - t
  {
    if t < deadline {
      var s := Round(env, asgName, t);
      assert forall a :: a in s.actions ==> WaitCall(a, asgName);
      if s.value.None? {
        WaitCalls(env, asgName, s.clock, deadline);
      }
    }
  }

  /** A run so far: how it ended, the clock, and the instances processed. */
  datatype Run = Run(outcome: Outcome, clock: int, steps: seq<StepTrace>)

  /** `done` followed by the rest of a run. */
  function Append(done: seq<StepTrace>, r: Run): Run {
    Run(r.outcome, r.clock, done + r.steps)
  }

  /** The inner loop of restart_all over one group's ids, from clock time `t`. */
  function RunIds(env: Provider, asgName: string, cluster: Option<string>, region: string,
                  ids: seq<string>, t: int): Run
    decreases |ids|
  {
    if ids == [] then Run(Ok, t, [])
    else
      var s := Step(env, asgName, cluster, region, ids[0], t);
      if s.trace.outcome.Raised? then Run(s.trace.outcome, s.clock, [s.trace])
      else Append([s.trace], RunIds(env, asgName, cluster, region, ids[1..], s.clock))
  }

  /** The outer loop of restart_all over the groups, from clock time `t`. */
  function RunGroups(env: Provider, asgName: string, cluster: Option<string>, region: string,
                     groups: seq<GroupInfo>, t: int): Run
    decreases |groups|, 0
  {
    if groups == [] then Run(Ok, t, [])
    else Continue(env, asgName, cluster, region, groups[0].ids, groups[1..], t)
  }

  /** The rest of the ids of the current group, then the remaining groups. */
  function Continue(env: Provider, asgName: string, cluster: Option<string>, region: string,
                    ids: seq<string>, groups: seq<GroupInfo>, t: int): Run
    decreases |groups|, 1
  {
    var r := RunIds(env, asgName, cluster, region, ids, t);
    if r.outcome.Raised? then r
    else Append(r.steps, RunGroups(env, asgName, cluster, region, groups, r.clock))
  }

  /** restart_all(asg_name, region, ecs_cluster), started at clock time `t`:
      one get_groups read, then the loops. */
  function RestartSpec(env: Provider, asgName: string, cluster: Option<string>, region: string, t: int): Run
  {
    RunGroups(env, asgName, cluster, region, GroupInfos(env.groupsAt(asgName, t)), t + env.latency)
  }

  /** The calls of a run, in order: instance after instance, each one's drain,
      terminate and wait phases. */
  function Flatten(steps: seq<StepTrace>): seq<Action>
  {
    if steps == [] then []
    else
      var last := steps[|steps| - 1];
      Flatten(steps[..|steps| - 1]) + last.drain + last.term + last.await
  }

  lemma FlattenSnoc(steps: seq<StepTrace>, s: StepTrace)
    ensures Flatten(steps + [s]) == Flatten(steps) + s.drain + s.term + s.await
  {
    assert (steps + [s])[..|steps|] == steps;
  }

  /** The ids of all groups, group after group, in discovery order. */
  function AllIds(groups: seq<GroupInfo>): seq<string>
  {
    if groups == [] then [] else groups[0].ids + AllIds(groups[1..])
  }

  /** The shape of a run over `ids`: instances are processed in discovery
      order, each in the per-instance order; every instance but the last
      finished normally, the last one's outcome is the run's, and a run that
      returns normally has processed every id. */
  predicate RunShape(r: Run, ids: seq<string>, asgName: string, cluster: Option<string>) {
    && |r.steps| <= |ids|
    && (forall i :: 0 <= i < |r.steps| ==> r.steps[i].instanceId == ids[i])
    && (forall s :: s in r.steps ==> WellFormedStep(s, asgName, cluster))
    && (forall i :: 0 <= i < |r.steps| - 1 ==> r.steps[i].outcome == Ok)
    && (r.outcome == Ok ==> |r.steps| == |ids| && forall i :: 0 <= i < |r.steps| ==> r.steps[i].outcome == Ok)
    && (r.outcome.Raised? ==> r.steps != [] && r.steps[|r.steps| - 1].outcome == r.outcome)
  }

  /** Processing the ids of one group keeps the run shape. */
  lemma {:induction false} RunIdsShape(env: Provider, asgName: string, cluster: Option<string>, region: string,
                                       ids: seq<string>, t: int)
    ensures RunShape(RunIds(env, asgName, cluster, region, ids, t), ids, asgName, cluster)
    decreases |ids|
  {
    if ids != [] {
      var s := Step(env, asgName, cluster, region, ids[0], t);
      StepShape(env, asgName, cluster, region, ids[0], t);
      if s.trace.outcome.Raised? {
        ShapeLast(s.trace, s.clock, ids, asgName, cluster);
      } else {
        var rest := RunIds(env, asgName, cluster, region, ids[1..], s.clock);
        RunIdsShape(env, asgName, cluster, region, ids[1..], s.clock);
        ShapeAppend(s.trace, rest, ids[1..], asgName, cluster);
        assert [ids[0]] + ids[1..] == ids;
      }
    }
  }

  /** A run that stops at its first instance because that one raised. */
  lemma ShapeLast(s: StepTrace, clock: int, ids: seq<string>, asgName: string, cluster: Option<string>)
    requires ids != [] && s.instanceId == ids[0]
    requires s.outcome.Raised? && WellFormedStep(s, asgName, cluster)
    ensures RunShape(Run(s.outcome, clock, [s]), ids, asgName, cluster)
  {
  }

  /** A normally finished instance in front of a run keeps the run shape. */
  lemma ShapeAppend(s: StepTrace, r: Run, ids: seq<string>, asgName: string, cluster: Option<string>)
    requires s.outcome == Ok && WellFormedStep(s, asgName, cluster)
    requires RunShape(r, ids, asgName, cluster)
    ensures RunShape(Append([s], r), [s.instanceId] + ids, asgName, cluster)
  {
    ShapeJoin(Run(Ok, 0, [s]), [s.instanceId], r, ids, asgName, cluster);
  }

  /** Two run pieces, the first finished normally, join into one. */
  lemma ShapeJoin(r1: Run, ids1: seq<string>, r2: Run, ids2: seq<string>, asgName: string, cluster: Option<string>)
    requires RunShape(r1, ids1, asgName, cluster) && r1.outcome == Ok
    requires RunShape(r2, ids2, asgName, cluster)
    ensures RunShape(Append(r1.steps, r2), ids1 + ids2, asgName, cluster)
  {
    var steps := r1.steps + r2.steps;
    var ids := ids1 + ids2;
    var n := |r1.steps|;
    forall i | 0 <= i < |steps|
      ensures steps[i].instanceId == ids[i]
    {
      if i < n {
        assert steps[i] == r1.steps[i];
      } else {
        assert steps[i] == r2.steps[i - n];
      }
    }
    forall i | 0 <= i < |steps| - 1
      ensures steps[i].outcome == Ok
    {
      if i < n {
        assert steps[i] == r1.steps[i];
      } else {
        assert steps[i] == r2.steps[i - n];
      }
    }
    if r2.outcome == Ok {
      forall i | 0 <= i < |steps|
        ensures steps[i].outcome == Ok
      {
        if i < n {
          assert steps[i] == r1.steps[i];
        } else {
          assert steps[i] == r2.steps[i - n];
        }
      }
    }
    if r2.outcome.Raised? {
      assert steps[|steps| - 1] == r2.steps[|r2.steps| - 1];
    }
  }

  /** restart_all processes the instances of all groups in discovery order,
      one after another, each in the per-instance order; it stops at the
      first instance whose processing raised and returns that error. */
  lemma {:induction false} RunGroupsShape(env: Provider, asgName: string, cluster: Option<string>, region: string,
                                          groups: seq<GroupInfo>, t: int)
    ensures RunShape(RunGroups(env, asgName, cluster, region, groups, t), AllIds(groups), asgName, cluster)
    decreases |groups|
  {
    if groups != [] {
      var r := RunIds(env, asgName, cluster, region, groups[0].ids, t);
      RunIdsShape(env, asgName, cluster, region, groups[0].ids, t);
      if r.outcome.Raised? {
        assert RunShape(r, groups[0].ids + AllIds(groups[1..]), asgName, cluster);
      } else {
        RunGroupsShape(env, asgName, cluster, region, groups[1..], r.clock);
        ShapeJoin(r, groups[0].ids, RunGroups(env, asgName, cluster, region, groups[1..], r.clock),
                  AllIds(groups[1..]), asgName, cluster);
      }
    }
  }

  /** A drain error aborts the run at that instance: it is never terminated,
      no later instance is touched, and the run raises that error. */
  lemma DrainErrorAborts(env: Provider, asgName: string, cluster: Option<string>, region: string, t: int, i: nat)
    requires var r := RestartSpec(env, asgName, cluster, region, t);
      i < |r.steps| && r.steps[i].outcome.Raised? && DrainError(r.steps[i].outcome.error)
    ensures var r := RestartSpec(env, asgName, cluster, region, t);
      r.steps[i].term == [] && i == |r.steps| - 1 && r.outcome == r.steps[i].outcome &&
      forall a :: a in r.steps[i].drain + r.steps[i].term + r.steps[i].await ==> !a.Terminate?
  {
    var groups := GroupInfos(env.groupsAt(asgName, t));
    RunGroupsShape(env, asgName, cluster, region, groups, t + env.latency);
    var r := RestartSpec(env, asgName, cluster, region, t);
    assert r.steps[i] in r.steps;
    forall a | a in r.steps[i].drain ensures !a.Terminate? {
      assert Truthy(cluster);
      assert DrainCall(a, r.steps[i].instanceId, cluster.value);
    }
  }
}
