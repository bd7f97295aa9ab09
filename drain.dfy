/** drain_instance: resolve the EC2 instance to its container host, set the
    host DRAINING, then poll its running-task count against a deadline. */
module Drain {
  import opened Provider

  /** Seconds drain_instance waits for the tasks to leave (DRAIN_WAIT). */
  const DRAIN_WAIT: int := 600

  /** Seconds slept between two task-count polls. */
  const POLL_INTERVAL: nat := 30

  /** The first container host, in describe order, that runs the given EC2 instance. */
  function FirstMatch(hosts: seq<ContainerHost>, instanceId: string): (r: Option<nat>)
    ensures r.Some? ==> r.value < |hosts| && hosts[r.value].ec2InstanceId == instanceId
    decreases |hosts|
  {
    if hosts == [] then None
    else if hosts[0].ec2InstanceId == instanceId then Some(0)
    else match FirstMatch(hosts[1..], instanceId)
      case None => None
      case Some(k) => Some(k + 1)
  }

  /** FirstMatch finds the first matching host: no host before it runs the
      instance, and it finds none exactly when no host does. */
  lemma {:induction false} FirstMatchIsFirst(hosts: seq<ContainerHost>, instanceId: string)
    ensures var r := FirstMatch(hosts, instanceId);
      (r.Some? ==> forall j :: 0 <= j < r.value ==> hosts[j].ec2InstanceId != instanceId) &&
      (r.None? <==> forall j :: 0 <= j < |hosts| ==> hosts[j].ec2InstanceId != instanceId)
    decreases |hosts|
  {
    if hosts != [] && hosts[0].ec2InstanceId != instanceId {
      FirstMatchIsFirst(hosts[1..], instanceId);
      assert forall j :: 1 <= j < |hosts| ==> hosts[j] == hosts[1..][j - 1];
    }
  }

  /** The search loop of drain_instance over the described container hosts. */
  method FindHost(hosts: seq<ContainerHost>, instanceId: string) returns (r: Option<nat>)
    ensures r == FirstMatch(hosts, instanceId)
  {
    for i := 0 to |hosts|
      invariant forall j :: 0 <= j < i ==> hosts[j].ec2InstanceId != instanceId
    {
      if hosts[i].ec2InstanceId == instanceId {
        FirstMatchIsFirst(hosts, instanceId);
        return Some(i);
      }
    }
    FirstMatchIsFirst(hosts, instanceId);
    return None;
  }

  /** Where the poll loop stops: the last count seen, the clock, and the
      calls issued on the way. */
  datatype Poll = Poll(running: nat, clock: int, actions: seq<Action>)

  /** Only sleeps of POLL_INTERVAL and task-count lookups of the drained host. */
  predicate PollCalls(actions: seq<Action>, arn: string) {
    forall a :: a in actions ==> a == Sleep(POLL_INTERVAL) || a == DescribeTasks(arn)
  }

  /** The poll loop of drain_instance, from a given count and clock time. */
  function DrainPoll(env: Provider, cluster: string, arn: string, running: nat, t: int, deadline: int): (r: Poll)
    ensures r.running == 0 || r.clock >= deadline
    ensures r.clock >= t
    ensures t < deadline ==> r.clock < deadline + POLL_INTERVAL + env.latency
    decreases deadline - t
  {
    if running != 0 && t < deadline then
      var woke := t + POLL_INTERVAL;
      var rest := DrainPoll(env, cluster, arn, env.tasksAt(cluster, arn, woke), woke + env.latency, deadline);
      Poll(rest.running, rest.clock, [Sleep(POLL_INTERVAL), DescribeTasks(arn)] + rest.actions)
    else
      Poll(running, t, [])
  }

  /** The poll loop only sleeps and looks up the drained host's task count. */
  lemma {:induction false} DrainPollCalls(env: Provider, cluster: string, arn: string, running: nat, t: int, deadline: int)
    ensures PollCalls(DrainPoll(env, cluster, arn, running, t, deadline).actions, arn)
    decreases deadline - t
  {
    if running != 0 && t < deadline {
      var woke := t + POLL_INTERVAL;
      DrainPollCalls(env, cluster, arn, env.tasksAt(cluster, arn, woke), woke + env.latency, deadline);
    }
  }

  /** Clock time at which the drain deadline is computed, `t` being the
      start of drain_instance: after listing, describing, the DRAINING update
      and the first task-count lookup. */
  function ReadyTime(env: Provider, t: int): int {
    t + 4 * env.latency
  }

  /** drain_instance as a whole, started at clock time `t`. */
  function DrainSpec(env: Provider, instanceId: string, cluster: string, region: string, t: int): Effect<Outcome>
  {
    var described := t + env.latency;
    var hosts := env.hostsAt(cluster, described);
    var resolved := described + env.latency;
    var listing := [ListHosts(cluster), DescribeHosts(cluster)];
    match FirstMatch(hosts, instanceId)
    case None => Effect(Raised(HostNotFound(instanceId, cluster, region)), resolved, listing)
    case Some(k) =>
      var arn := hosts[k].containerInstanceArn;
      var failures := env.drainFailuresAt(cluster, arn, resolved);
      var updated := resolved + env.latency;
      if failures != [] then
        Effect(Raised(DrainRejected(failures)), updated, listing + [SetDraining(cluster, arn)])
      else
        var first := env.tasksAt(cluster, arn, updated);
        var ready := updated + env.latency;
        var deadline := ready + DRAIN_WAIT;
        var p := DrainPoll(env, cluster, arn, first, ready, deadline);
        Effect(Ok, p.clock,
          listing + [SetDraining(cluster, arn), DescribeTasks(arn)] + p.actions
          + (if p.clock > deadline then [DrainTimedOut(instanceId)] else []))
  }

  /** The not-found error is raised exactly when no described host runs the
      instance, and then no host is set DRAINING. */
  lemma DrainNotFound(env: Provider, instanceId: string, cluster: string, region: string, t: int)
    ensures var e := DrainSpec(env, instanceId, cluster, region, t);
      var hosts := env.hostsAt(cluster, t + env.latency);
      (e.value == Raised(HostNotFound(instanceId, cluster, region)) <==>
        forall j :: 0 <= j < |hosts| ==> hosts[j].ec2InstanceId != instanceId) &&
      (e.value == Raised(HostNotFound(instanceId, cluster, region)) ==>
        forall a :: a in e.actions ==> !a.SetDraining?)
  {
    FirstMatchIsFirst(env.hostsAt(cluster, t + env.latency), instanceId);
  }

  /** A DRAINING update reporting failures raises those very failures before
      any task-count polling: the update is the last call issued. */
  lemma DrainRejectedBeforePolling(env: Provider, instanceId: string, cluster: string, region: string, t: int)
    ensures var e := DrainSpec(env, instanceId, cluster, region, t);
      var hosts := env.hostsAt(cluster, t + env.latency);
      var k := FirstMatch(hosts, instanceId);
      e.value.Raised? && e.value.error.DrainRejected? ==>
        k.Some? &&
        e.value.error.failures == env.drainFailuresAt(cluster, hosts[k.value].containerInstanceArn, t + 2 * env.latency) &&
        e.value.error.failures != [] &&
        |e.actions| == 3 && e.actions[2].SetDraining? &&
        forall a :: a in e.actions ==> !a.DescribeTasks? && !a.Sleep?
  {
  }

  /** drain_instance returns normally exactly when some host matches and its
      DRAINING update reports no failures; only that first matching host is
      updated, every task-count lookup is of that host, and the timeout is
      reported, not raised. */
  lemma DrainReturnsNormally(env: Provider, instanceId: string, cluster: string, region: string, t: int)
    ensures var e := DrainSpec(env, instanceId, cluster, region, t);
      var hosts := env.hostsAt(cluster, t + env.latency);
      var k := FirstMatch(hosts, instanceId);
      (e.value == Ok <==>
        k.Some? && env.drainFailuresAt(cluster, hosts[k.value].containerInstanceArn, t + 2 * env.latency) == []) &&
      (e.value == Ok ==>
        e.actions[2] == SetDraining(cluster, hosts[k.value].containerInstanceArn) &&
        (forall i :: 0 <= i < |e.actions| && e.actions[i].SetDraining? ==> i == 2) &&
        (forall i :: 0 <= i < |e.actions| && e.actions[i].DescribeTasks? ==>
           e.actions[i] == DescribeTasks(hosts[k.value].containerInstanceArn))) &&
      (DrainTimedOut(instanceId) in e.actions ==> e.value == Ok)
  {
    var e := DrainSpec(env, instanceId, cluster, region, t);
    var hosts := env.hostsAt(cluster, t + env.latency);
    var k := FirstMatch(hosts, instanceId);
    if e.value == Ok {
      var arn := hosts[k.value].containerInstanceArn;
      var ready := t + 4 * env.latency;
      var p := DrainPoll(env, cluster, arn, env.tasksAt(cluster, arn, t + 3 * env.latency), ready, ready + DRAIN_WAIT);
      DrainPollCalls(env, cluster, arn, env.tasksAt(cluster, arn, t + 3 * env.latency), ready, ready + DRAIN_WAIT);
      var tail := if p.clock > ready + DRAIN_WAIT then [DrainTimedOut(instanceId)] else [];
      assert e.actions == [ListHosts(cluster), DescribeHosts(cluster), SetDraining(cluster, arn), DescribeTasks(arn)] + p.actions + tail;
      forall i | 0 <= i < |e.actions|
        ensures e.actions[i].SetDraining? ==> i == 2
        ensures e.actions[i].DescribeTasks? ==> e.actions[i] == DescribeTasks(arn)
      {
        if 4 <= i < 4 + |p.actions| {
          assert e.actions[i] == p.actions[i - 4];
          assert p.actions[i - 4] in p.actions;
        }
      }
    }
  }

  /** A normal return happens within one poll interval (and one call) after
      the deadline; the timeout is reported exactly when the clock is past the
      deadline; without that report the last count seen was zero or the
      clock sits exactly on the deadline. */
  lemma DrainDeadline(env: Provider, instanceId: string, cluster: string, region: string, t: int)
    ensures var e := DrainSpec(env, instanceId, cluster, region, t);
      var deadline := ReadyTime(env, t) + DRAIN_WAIT;
      e.value == Ok ==>
        ReadyTime(env, t) <= e.clock < deadline + POLL_INTERVAL + env.latency &&
        (DrainTimedOut(instanceId) in e.actions <==> e.clock > deadline)
  {
    var e := DrainSpec(env, instanceId, cluster, region, t);
    if e.value == Ok {
      var hosts := env.hostsAt(cluster, t + env.latency);
      var arn := hosts[FirstMatch(hosts, instanceId).value].containerInstanceArn;
      var ready := ReadyTime(env, t);
      var p := DrainPoll(env, cluster, arn, env.tasksAt(cluster, arn, t + 3 * env.latency), ready, ready + DRAIN_WAIT);
      DrainPollCalls(env, cluster, arn, env.tasksAt(cluster, arn, t + 3 * env.latency), ready, ready + DRAIN_WAIT);
      var head := [ListHosts(cluster), DescribeHosts(cluster), SetDraining(cluster, arn), DescribeTasks(arn)];
      if p.clock <= ready + DRAIN_WAIT {
        assert e.actions == head + p.actions;
        assert DrainTimedOut(instanceId) !in p.actions;
        assert DrainTimedOut(instanceId) !in head;
      } else {
        assert e.actions[|e.actions| - 1] == DrainTimedOut(instanceId);
      }
    }
  }

  /** When every poll still sees running tasks and the deadline lies a whole
      number `n` of poll periods (sleep plus lookup) ahead, the loop stops
      exactly on the deadline: with the source's strict `>` test the timeout
      then goes unreported although tasks remain. */
  lemma {:induction false} DrainPollEndsOnDeadline(env: Provider, cluster: string, arn: string, running: nat, t: int, n: nat)
    requires running != 0
    requires forall s :: env.tasksAt(cluster, arn, s) != 0
    ensures var deadline := t + n * (POLL_INTERVAL + env.latency);
      var p := DrainPoll(env, cluster, arn, running, t, deadline);
      p.clock == deadline && p.running != 0
    decreases n
  {
    if n > 0 {
      var period := POLL_INTERVAL + env.latency;
      assert t + n * period == (t + period) + (n - 1) * period;
      DrainPollEndsOnDeadline(env, cluster, arn, env.tasksAt(cluster, arn, t + POLL_INTERVAL), t + period, n - 1);
    }
  }

  /** When the drain deadline lies a whole number `n` of poll periods after
      the first count, and the host never runs out of tasks, drain_instance
      returns normally with tasks still running and reports no timeout: the
      loop's `<` test and the report's `>` test disagree on a clock that sits
      exactly on the deadline. The abstract clock does not advance between
      the two reads of the time in the source, which is what makes this
      case reachable in the model. */
  lemma DrainTimeoutUnreported(env: Provider, instanceId: string, cluster: string, region: string, t: int, n: nat)
    requires n * PollPeriod(env) == DRAIN_WAIT
    requires var hosts := env.hostsAt(cluster, t + env.latency);
      var k := FirstMatch(hosts, instanceId);
      k.Some? &&
      env.drainFailuresAt(cluster, hosts[k.value].containerInstanceArn, t + 2 * env.latency) == []
    requires forall c, a, s :: env.tasksAt(c, a, s) != 0
    ensures var e := DrainSpec(env, instanceId, cluster, region, t);
      var hosts := env.hostsAt(cluster, t + env.latency);
      var arn := hosts[FirstMatch(hosts, instanceId).value].containerInstanceArn;
      var ready := ReadyTime(env, t);
      e.value == Ok && DrainTimedOut(instanceId) !in e.actions && e.clock == ready + DRAIN_WAIT &&
      DrainPoll(env, cluster, arn, env.tasksAt(cluster, arn, t + 3 * env.latency), ready, ready + DRAIN_WAIT).running != 0
  {
    var hosts := env.hostsAt(cluster, t + env.latency);
    var arn := hosts[FirstMatch(hosts, instanceId).value].containerInstanceArn;
    var ready := ReadyTime(env, t);
    DrainPollEndsOnDeadline(env, cluster, arn, env.tasksAt(cluster, arn, t + 3 * env.latency), ready, n);
    DrainDeadline(env, instanceId, cluster, region, t);
  }

  /** Seconds from the start of one poll-loop pass to the start of the next:
      the sleep and one task-count lookup. */
  function PollPeriod(env: Provider): int {
    POLL_INTERVAL + env.latency
  }

  /** Clock time of the task-count lookup in the pass numbered `k` (from 0)
      of a poll loop entered at clock time `t`. */
  function ReadAt(env: Provider, t: int, k: nat): int {
    t + k * PollPeriod(env) + POLL_INTERVAL
  }

  /** `n` passes of the poll loop: a sleep, then a lookup of the host. */
  function PollRounds(arn: string, n: nat): seq<Action>
  {
    if n == 0 then [] else [Sleep(POLL_INTERVAL), DescribeTasks(arn)] + PollRounds(arn, n - 1)
  }

  /** The loop stops at the first zero count it reads: when the lookups of
      the first `n - 1` passes still see tasks and the one of pass `n`, which
      starts before the deadline, sees none, the loop ends right after that
      lookup, having made exactly `n` passes. */
  lemma {:induction false} DrainPollStopsAtZero(env: Provider, cluster: string, arn: string, running: nat,
                                                t: int, deadline: int, n: nat)
    requires running != 0 && n >= 1
    requires t + (n - 1) * PollPeriod(env) < deadline
    requires forall k :: 0 <= k < n - 1 ==> env.tasksAt(cluster, arn, ReadAt(env, t, k)) != 0
    requires env.tasksAt(cluster, arn, ReadAt(env, t, n - 1)) == 0
    ensures DrainPoll(env, cluster, arn, running, t, deadline) ==
      Poll(0, t + n * PollPeriod(env), PollRounds(arn, n))
    decreases n
  {
    var period := PollPeriod(env);
    var next := t + period;
    assert ReadAt(env, t, 0) == t + POLL_INTERVAL;
    assert t < deadline by {
      assert 0 <= (n - 1) * period;
    }
    if n > 1 {
      assert env.tasksAt(cluster, arn, ReadAt(env, t, 0)) != 0;
      forall k | 0 <= k < n - 2
        ensures env.tasksAt(cluster, arn, ReadAt(env, next, k)) != 0
      {
        assert ReadAt(env, next, k) == ReadAt(env, t, k + 1) by {
          assert (k + 1) * period == k * period + period;
        }
      }
      assert ReadAt(env, next, n - 2) == ReadAt(env, t, n - 1) by {
        assert (n - 1) * period == (n - 2) * period + period;
      }
      assert next + (n - 2) * period == t + (n - 1) * period by {
        assert (n - 1) * period == (n - 2) * period + period;
      }
      DrainPollStopsAtZero(env, cluster, arn, env.tasksAt(cluster, arn, ReadAt(env, t, 0)), next, deadline, n - 1);
      assert next + (n - 1) * period == t + n * period by {
        assert n * period == (n - 1) * period + period;
      }
    }
  }

  /** A host that already has no running task is not polled at all. */
  lemma DrainWithoutTasks(env: Provider, instanceId: string, cluster: string, region: string, t: int)
    requires var hosts := env.hostsAt(cluster, t + env.latency);
      var k := FirstMatch(hosts, instanceId);
      k.Some? &&
      var arn := hosts[k.value].containerInstanceArn;
      env.drainFailuresAt(cluster, arn, t + 2 * env.latency) == [] &&
      env.tasksAt(cluster, arn, t + 3 * env.latency) == 0
    ensures var e := DrainSpec(env, instanceId, cluster, region, t);
      e.value == Ok && e.clock == ReadyTime(env, t) && |e.actions| == 4 &&
      forall a :: a in e.actions ==> !a.Sleep?
  {
  }
}
