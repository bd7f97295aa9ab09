/** The rolling restart as the source runs it: one object holding the clock
    and the log of provider calls, with one method per function of
    restart_asg.py. Each method is proved to do what the corresponding
    specification function of Groups, Drain, Capacity or Controller says. */
module RestartAsg {
  import opened Provider
  import opened Groups
  import opened Drain
  import opened Capacity
  import opened Controller

  class Rotation {
    /** The provider's answers. */
    const env: Provider
    /** The abstract clock, in seconds. */
    var clock: int
    /** Every provider call issued so far, in order. */
    var log: seq<Action>

    constructor (env: Provider, start: int)
      ensures this.env == env && clock == start && log == []
    {
      this.env := env;
      clock := start;
      log := [];
    }

    /** Issue one provider call: it is logged and takes one latency. */
    method Call(a: Action)
      modifies this
      ensures clock == old(clock) + env.latency && log == old(log) + [a]
    {
      log := log + [a];
      clock := clock + env.latency;
    }

    /** time.sleep(seconds). */
    method Sleep(seconds: nat)
      modifies this
      ensures clock == old(clock) + seconds && log == old(log) + [Action.Sleep(seconds)]
    {
      log := log + [Action.Sleep(seconds)];
      clock := clock + seconds;
    }

    /** get_groups: one describe-groups call, then the in-service filter. */
    method GetGroups(asgName: string) returns (groupInfo: seq<GroupInfo>)
      modifies this
      ensures groupInfo == GroupInfos(env.groupsAt(asgName, old(clock)))
      ensures clock == old(clock) + env.latency && log == old(log) + [DescribeGroups(asgName)]
    {
      var response := env.groupsAt(asgName, clock);
      Call(DescribeGroups(asgName));
      groupInfo := FilterGroups(response);
    }

    /** get_running_tasks: the running-task count of one container host. */
    method GetRunningTasks(cluster: string, arn: string) returns (n: nat)
      modifies this
      ensures n == env.tasksAt(cluster, arn, old(clock))
      ensures clock == old(clock) + env.latency && log == old(log) + [DescribeTasks(arn)]
    {
      n := env.tasksAt(cluster, arn, clock);
      Call(DescribeTasks(arn));
    }

    /** drain_instance(instance_id, ecs_cluster, region). */
    method DrainInstance(instanceId: string, cluster: string, region: string) returns (r: Outcome)
      modifies this
      ensures var e := DrainSpec(env, instanceId, cluster, region, old(clock));
        r == e.value && clock == e.clock && log == old(log) + e.actions
    {
      Call(ListHosts(cluster));
      var hosts := env.hostsAt(cluster, clock);
      Call(DescribeHosts(cluster));
      var k := FindHost(hosts, instanceId);
      if k.None? {
        return Raised(HostNotFound(instanceId, cluster, region));
      }
      var arn := hosts[k.value].containerInstanceArn;
      var failures := env.drainFailuresAt(cluster, arn, clock);
      Call(SetDraining(cluster, arn));
      if failures != [] {
        return Raised(DrainRejected(failures));
      }
      var running := GetRunningTasks(cluster, arn);
      var endTime := clock + DRAIN_WAIT;
      running := PollTasks(cluster, arn, running, endTime);
      if clock > endTime {
        log := log + [DrainTimedOut(instanceId)];
      }
      return Ok;
    }

    /** The poll loop of drain_instance: sleep, then re-read the count, until
        it is zero or the deadline has come. */
    method PollTasks(cluster: string, arn: string, first: nat, endTime: int) returns (running: nat)
      modifies this
      ensures var p := DrainPoll(env, cluster, arn, first, old(clock), endTime);
        running == p.running && clock == p.clock && log == old(log) + p.actions
    {
      running := first;
      ghost var whole := DrainPoll(env, cluster, arn, running, clock, endTime);
      ghost var before := log;
      ghost var polled: seq<Action> := [];
      while running != 0 && clock < endTime
        invariant log == before + polled
        invariant whole == Poll(DrainPoll(env, cluster, arn, running, clock, endTime).running,
                                DrainPoll(env, cluster, arn, running, clock, endTime).clock,
                                polled + DrainPoll(env, cluster, arn, running, clock, endTime).actions)
        decreases endTime - clock
      {
        Sleep(POLL_INTERVAL);
        running := GetRunningTasks(cluster, arn);
        polled := polled + [Action.Sleep(POLL_INTERVAL), DescribeTasks(arn)];
      }
    }

    /** The try/except block of restart_all around terminate_instances. */
    method TerminateInstance(instanceId: string) returns (r: TermResult)
      modifies this
      ensures var e := TerminateSpec(env, instanceId, old(clock));
        r == e.value && clock == e.clock && log == old(log) + e.actions
    {
      var accepted := env.terminateAccepted(instanceId, clock);
      Call(Terminate(instanceId));
      var confirmed := false;
      if accepted {
        Sleep(TERMINATE_GRACE);
        confirmed := env.terminationConfirmed(instanceId, clock);
        Call(WaitTerminated(instanceId));
      }
      if confirmed {
        return Confirmed;
      }
      var state := env.stateAt(instanceId, clock);
      Call(DescribeInstance(instanceId));
      if state == TERMINATED {
        return AlreadyTerminated;
      }
      return StillIn(state);
    }

    /** wait_for_running(asg_name, region, timeout). */
    method WaitForRunning(asgName: string, timeoutMinutes: int) returns (r: Outcome)
      modifies this
      ensures var e := WaitSpec(env, asgName, timeoutMinutes, old(clock));
        r == WaitOutcome(e.value) && clock == e.clock && log == old(log) + e.actions
    {
      var endTime := clock + timeoutMinutes * 60;
      ghost var whole := WaitLoop(env, asgName, clock, endTime);
      ghost var before := log;
      ghost var waited: seq<Action> := [];
      while clock < endTime
        invariant log == before + waited
        invariant Resumes(whole, waited, WaitLoop(env, asgName, clock, endTime))
        decreases endTime - clock
      {
        ghost var t := clock;
        var found := WaitRound(asgName);
        WaitAdvance(env, asgName, t, endTime, waited, whole);
        Assoc(before, waited, Round(env, asgName, t).actions);
        waited := waited + Round(env, asgName, t).actions;
        if found.Some? {
          WaitDone(whole, found.value, clock, waited);
          return WaitOutcome(found.value);
        }
      }
      WaitStops(env, asgName, clock, endTime, waited, whole);
      return Ok;
    }

    /** One pass of the outer loop of wait_for_running: get_groups, then the
        scan of its result. */
    method WaitRound(asgName: string) returns (found: Option<WaitResult>)
      modifies this
      ensures var s := Round(env, asgName, old(clock));
        found == s.value && clock == s.clock && log == old(log) + s.actions
    {
      var groupInfo := GetGroups(asgName);
      found := ScanGroups(groupInfo);
    }

    /** The inner loop of wait_for_running over one get_groups result: sleep
        before each group, and run the health waiter on the first group whose
        in-service count equals its capacity. */
    method ScanGroups(groupInfo: seq<GroupInfo>) returns (found: Option<WaitResult>)
      modifies this
      ensures var s := Scan(env, groupInfo, old(clock));
        found == s.value && clock == s.clock && log == old(log) + s.actions
    {
      for j := 0 to |groupInfo|
        invariant clock == old(clock) + GROUP_POLL * j
        invariant log == old(log) + Sleeps(j)
        invariant forall i :: 0 <= i < j ==> !AtCapacity(groupInfo[i])
      {
        Sleep(GROUP_POLL);
        assert Sleeps(j) + [Action.Sleep(GROUP_POLL)] == Sleeps(j + 1);
        if |groupInfo[j].ids| == groupInfo[j].capacity {
          var ids := groupInfo[j].ids;
          var healthy := env.healthyAt(ids, clock);
          Call(WaitHealthy(ids));
          FirstAtCapacityIsFirst(groupInfo);
          return Some(if healthy then Healthy(ids) else Unhealthy(ids));
        }
      }
      FirstAtCapacityIsFirst(groupInfo);
      return None;
    }

    /** One pass of the inner loop of restart_all for one instance. */
    method RotateInstance(asgName: string, cluster: Option<string>, region: string, instanceId: string)
      returns (r: Outcome, ghost trace: StepTrace)
      modifies this
      ensures var s := Step(env, asgName, cluster, region, instanceId, old(clock));
        trace == s.trace && r == s.trace.outcome && clock == s.clock &&
        log == old(log) + trace.drain + trace.term + trace.await
    {
      ghost var l0 := log;
      if Truthy(cluster) {
        r := DrainInstance(instanceId, cluster.value, region);
        if r.Raised? {
          trace := StepTrace(instanceId, log[|l0|..], [], [], r);
          return;
        }
      }
      ghost var drained := log[|l0|..];
      ghost var l1 := log;
      var term := TerminateInstance(instanceId);
      ghost var terminated := log[|l1|..];
      if term.StillIn? {
        r := Raised(TerminationFailed(instanceId, term.state));
        trace := StepTrace(instanceId, drained, terminated, [], r);
        return;
      }
      if term.AlreadyTerminated? {
        r := Ok;
        trace := StepTrace(instanceId, drained, terminated, [], r);
        return;
      }
      ghost var l2 := log;
      r := WaitForRunning(asgName, DEFAULT_TIMEOUT_MINUTES);
      trace := StepTrace(instanceId, drained, terminated, log[|l2|..], r);
    }

    /** restart_all(asg_name, region, ecs_cluster). */
    method RestartAll(asgName: string, cluster: Option<string>, region: string) returns (r: Outcome)
      modifies this
      ensures var run := RestartSpec(env, asgName, cluster, region, old(clock));
        r == run.outcome && clock == run.clock &&
        log == old(log) + [DescribeGroups(asgName)] + Flatten(run.steps)
    {
      var groupInfo := GetGroups(asgName);
      ghost var whole := RunGroups(env, asgName, cluster, region, groupInfo, clock);
      assert whole == RestartSpec(env, asgName, cluster, region, old(clock));
      ghost var base := log;
      ghost var done: seq<StepTrace> := [];
      for g := 0 to |groupInfo|
        invariant log == base + Flatten(done)
        invariant whole == Append(done, RunGroups(env, asgName, cluster, region, groupInfo[g..], clock))
      {
        var instanceIds := groupInfo[g].ids;
        GroupEnter(env, asgName, cluster, region, groupInfo, g, clock);
        for i := 0 to |instanceIds|
          invariant log == base + Flatten(done)
          invariant whole == Append(done, Continue(env, asgName, cluster, region, instanceIds[i..], groupInfo[g + 1..], clock))
        {
          ghost var t := clock;
          var outcome, trace := RotateInstance(asgName, cluster, region, instanceIds[i]);
          LogSnoc(base, done, trace);
          RunAdvance(env, asgName, cluster, region, instanceIds, i, groupInfo[g + 1..], t, done, whole);
          done := done + [trace];
          if outcome.Raised? {
            return outcome;
          }
        }
        GroupLeave(env, asgName, cluster, region, instanceIds, groupInfo[g + 1..], clock);
      }
      RunFinished(env, asgName, cluster, region, groupInfo, clock, done, whole);
      return Ok;
    }
  }

  /** Once the groups are exhausted the run has returned normally with
      the instances processed so far. */
  lemma RunFinished(env: Provider, asgName: string, cluster: Option<string>, region: string,
                    groups: seq<GroupInfo>, t: int, done: seq<StepTrace>, whole: Run)
    requires whole == Append(done, RunGroups(env, asgName, cluster, region, groups[|groups|..], t))
    ensures whole == Run(Ok, t, done)
  {
    assert groups[|groups|..] == [];
    assert done + [] == done;
  }

  /** Proof aid: concatenation of logs is associative, stated once so the
      loops of the class regroup their logs without searching for it. */
  lemma Assoc(a: seq<Action>, b: seq<Action>, c: seq<Action>)
    ensures (a + b) + c == a + (b + c)
  {
  }

  /** The log after one more instance: its three phases follow the calls
      of the instances before it. */
  lemma LogSnoc(base: seq<Action>, done: seq<StepTrace>, s: StepTrace)
    ensures base + Flatten(done + [s]) == base + Flatten(done) + s.drain + s.term + s.await
  {
    FlattenSnoc(done, s);
  }

  /** `whole` is what has been done followed by the effect of the rest. */
  ghost predicate Resumes<T>(whole: Effect<T>, done: seq<Action>, rest: Effect<T>) {
    whole == Effect(rest.value, rest.clock, done + rest.actions)
  }

  /** One pass of the outer loop of wait_for_running taken off the front. */
  lemma WaitAdvance(env: Provider, asgName: string, t: int, deadline: int, waited: seq<Action>, whole: Effect<WaitResult>)
    requires t < deadline
    requires Resumes(whole, waited, WaitLoop(env, asgName, t, deadline))
    ensures var s := Round(env, asgName, t);
      (s.value.Some? ==> whole == Effect(s.value.value, s.clock, waited + s.actions)) &&
      (s.value.None? ==> Resumes(whole, waited + s.actions, WaitLoop(env, asgName, s.clock, deadline)))
  {
    var s := Round(env, asgName, t);
    if s.value.None? {
      var rest := WaitLoop(env, asgName, s.clock, deadline);
      assert waited + (s.actions + rest.actions) == (waited + s.actions) + rest.actions;
    }
  }

  /** Proof aid: a pass that ends the wait fixes the result, outcome, clock
      and log, split out of WaitForRunning to keep its proof small. */
  lemma WaitDone(whole: Effect<WaitResult>, w: WaitResult, t: int, waited: seq<Action>)
    requires whole == Effect(w, t, waited)
    ensures WaitOutcome(w) == WaitOutcome(whole.value) && t == whole.clock && waited == whole.actions
  {
  }

  /** At the deadline the outer loop of wait_for_running gives up: what has
      been done is the whole wait. */
  lemma WaitStops(env: Provider, asgName: string, t: int, deadline: int, waited: seq<Action>, whole: Effect<WaitResult>)
    requires t >= deadline
    requires Resumes(whole, waited, WaitLoop(env, asgName, t, deadline))
    ensures whole == Effect(GaveUp, t, waited)
  {
    assert waited + [] == waited;
  }

  /** Entering a group: its ids first, then the groups after it. */
  lemma GroupEnter(env: Provider, asgName: string, cluster: Option<string>, region: string,
                   groups: seq<GroupInfo>, g: nat, t: int)
    requires g < |groups|
    ensures RunGroups(env, asgName, cluster, region, groups[g..], t) ==
      Continue(env, asgName, cluster, region, groups[g].ids[0..], groups[g + 1..], t)
  {
    assert groups[g..][1..] == groups[g + 1..];
    assert groups[g].ids[0..] == groups[g].ids;
  }

  /** Leaving a group once its ids are exhausted. */
  lemma GroupLeave(env: Provider, asgName: string, cluster: Option<string>, region: string,
                   ids: seq<string>, groups: seq<GroupInfo>, t: int)
    ensures Continue(env, asgName, cluster, region, ids[|ids|..], groups, t) ==
      RunGroups(env, asgName, cluster, region, groups, t)
  {
    assert ids[|ids|..] == [];
  }

  /** One instance of the inner loop of restart_all taken off the front. */
  lemma RunAdvance(env: Provider, asgName: string, cluster: Option<string>, region: string,
                   ids: seq<string>, i: nat, groups: seq<GroupInfo>, t: int, done: seq<StepTrace>, whole: Run)
    requires i < |ids|
    requires whole == Append(done, Continue(env, asgName, cluster, region, ids[i..], groups, t))
    ensures var s := Step(env, asgName, cluster, region, ids[i], t);
      (s.trace.outcome.Raised? ==> whole == Run(s.trace.outcome, s.clock, done + [s.trace])) &&
      (!s.trace.outcome.Raised? ==>
        whole == Append(done + [s.trace], Continue(env, asgName, cluster, region, ids[i + 1..], groups, s.clock)))
  {
    assert ids[i..][0] == ids[i];
    assert ids[i..][1..] == ids[i + 1..];
  }
}
