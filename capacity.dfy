/** wait_for_running: re-read the group until some group is at its desired
    capacity, then run the health waiter on its members once. */
module Capacity {
  import opened Provider
  import opened Groups

  /** Seconds slept before each group is examined. */
  const GROUP_POLL: nat := 30

  /** Default `timeout` of wait_for_running, in minutes. */
  const DEFAULT_TIMEOUT_MINUTES: int := 10

  /** How a wait ended: the health waiter returned or raised for the given
      ids, or the deadline passed first. */
  datatype WaitResult = Healthy(ids: seq<string>) | Unhealthy(ids: seq<string>) | GaveUp

  /** What the caller of wait_for_running sees: only the health waiter's
      exception; a deadline that passes is indistinguishable from success. */
  function WaitOutcome(w: WaitResult): Outcome {
    if w.Unhealthy? then Raised(HealthWaitFailed(w.ids)) else Ok
  }

  /** The capacity gate: the in-service count equals the desired capacity. */
  predicate AtCapacity(g: GroupInfo) {
    |g.ids| == g.capacity
  }

  /** The first group of a get_groups result that passes the gate. */
  function FirstAtCapacity(groups: seq<GroupInfo>): (r: Option<nat>)
    ensures r.Some? ==> r.value < |groups| && AtCapacity(groups[r.value])
    decreases |groups|
  {
    if groups == [] then None
    else if AtCapacity(groups[0]) then Some(0)
    else match FirstAtCapacity(groups[1..])
      case None => None
      case Some(k) => Some(k + 1)
  }

  /** FirstAtCapacity finds the first group at capacity: every group before
      it fails the gate, and it finds none exactly when every group fails. */
  lemma {:induction false} FirstAtCapacityIsFirst(groups: seq<GroupInfo>)
    ensures var r := FirstAtCapacity(groups);
      (r.Some? ==> forall j :: 0 <= j < r.value ==> !AtCapacity(groups[j])) &&
      (r.None? <==> forall j :: 0 <= j < |groups| ==> !AtCapacity(groups[j]))
    decreases |groups|
  {
    if groups != [] && !AtCapacity(groups[0]) {
      FirstAtCapacityIsFirst(groups[1..]);
      assert forall j :: 1 <= j < |groups| ==> groups[j] == groups[1..][j - 1];
    }
  }

  /** `n` sleeps of GROUP_POLL seconds. */
  function Sleeps(n: nat): seq<Action> {
    seq(n, _ => Sleep(GROUP_POLL))
  }

  /** One pass of the inner loop over a fresh get_groups result, from clock
      time `t`: sleep before each group, stop at the first group at capacity
      and run the health waiter on it. */
  function Scan(env: Provider, groups: seq<GroupInfo>, t: int): Effect<Option<WaitResult>>
  {
    match FirstAtCapacity(groups)
    case None => Effect(None, t + GROUP_POLL * |groups|, Sleeps(|groups|))
    case Some(j) =>
      var woke := t + GROUP_POLL * (j + 1);
      var ids := groups[j].ids;
      var w := if env.healthyAt(ids, woke) then Healthy(ids) else Unhealthy(ids);
      Effect(Some(w), woke + env.latency, Sleeps(j + 1) + [WaitHealthy(ids)])
  }

  /** One pass of the outer loop of wait_for_running from clock time `t`:
      get_groups, then the scan of its result. */
  function Round(env: Provider, asgName: string, t: int): (r: Effect<Option<WaitResult>>)
    ensures r.clock > t
    ensures |r.actions| > 0 && r.actions[0] == DescribeGroups(asgName)
  {
    var s := Scan(env, GroupInfos(env.groupsAt(asgName, t)), t + env.latency);
    Effect(s.value, s.clock, [DescribeGroups(asgName)] + s.actions)
  }

  /** Some group of the response read at clock time `s` is at capacity and
      has exactly the given ids. */
  predicate GateOpenAt(env: Provider, asgName: string, s: int, ids: seq<string>) {
    var groups := GroupInfos(env.groupsAt(asgName, s));
    exists j :: 0 <= j < |groups| && groups[j].ids == ids && AtCapacity(groups[j])
  }

  /** The outer loop of wait_for_running, from clock time `t`; giving up
      happens only once the deadline has come. */
  function WaitLoop(env: Provider, asgName: string, t: int, deadline: int): (r: Effect<WaitResult>)
    ensures r.clock >= t
    ensures r.value.GaveUp? ==> r.clock >= deadline
    decreases deadline - t
  {
    if t < deadline then
      var s := Round(env, asgName, t);
      if s.value.Some? then
        Effect(s.value.value, s.clock, s.actions)
      else
        var rest := WaitLoop(env, asgName, s.clock, deadline);
        Effect(rest.value, rest.clock, s.actions + rest.actions)
    else
      Effect(GaveUp, t, [])
  }

  /** None of the calls is the health waiter. */
  predicate NoHealthWait(actions: seq<Action>) {
    forall a :: a in actions ==> !a.WaitHealthy?
  }

  /** The health waiter is called at most once, and when it is called it is
      the last call and decides the result: wait_for_running returns right
      after it. Without it the wait has given up. */
  lemma {:induction false} WaitHealthyLast(env: Provider, asgName: string, t: int, deadline: int)
    ensures var r := WaitLoop(env, asgName, t, deadline);
      (r.value.GaveUp? ==> NoHealthWait(r.actions)) &&
      (!r.value.GaveUp? ==>
        |r.actions| > 0 && r.actions[|r.actions| - 1] == WaitHealthy(r.value.ids) &&
        NoHealthWait(r.actions[..|r.actions| - 1]))
    decreases deadline - t
  {
    if t < deadline {
      var groups := GroupInfos(env.groupsAt(asgName, t));
      var s := Round(env, asgName, t);
      if s.value.Some? {
        var j := FirstAtCapacity(groups).value;
        assert NoHealthWait(Sleeps(j + 1));
        assert s.actions[..|s.actions| - 1] == [DescribeGroups(asgName)] + Sleeps(j + 1);
      } else {
        assert NoHealthWait(s.actions);
        WaitHealthyLast(env, asgName, s.clock, deadline);
        var rest := WaitLoop(env, asgName, s.clock, deadline);
        var acts := s.actions + rest.actions;
        if !rest.value.GaveUp? {
          assert acts[..|acts| - 1] == s.actions + rest.actions[..|rest.actions| - 1];
        }
      }
    }
  }

  /** The health waiter's answer decides the result: when the wait did not
      give up, it reports Healthy exactly when the provider's waiter returned
      for those ids at the moment it was called, one latency before the end. */
  lemma {:induction false} WaitHealthyResult(env: Provider, asgName: string, t: int, deadline: int)
    ensures var r := WaitLoop(env, asgName, t, deadline);
      !r.value.GaveUp? ==> (r.value.Healthy? <==> env.healthyAt(r.value.ids, r.clock - env.latency))
    decreases deadline - t
  {
    if t < deadline {
      var s := Round(env, asgName, t);
      if s.value.None? {
        WaitHealthyResult(env, asgName, s.clock, deadline);
      }
    }
  }

  /** wait_for_running(asg_name, region, timeout), started at clock time `t`. */
  function WaitSpec(env: Provider, asgName: string, timeoutMinutes: int, t: int): Effect<WaitResult>
  {
    WaitLoop(env, asgName, t, t + timeoutMinutes * 60)
  }

  /** The clock times at which the outer loop of wait_for_running reads the
      groups, in order; every one of them lies before the deadline. */
  function WaitReads(env: Provider, asgName: string, t: int, deadline: int): (r: seq<int>)
    ensures forall i :: 0 <= i < |r| ==> t <= r[i] < deadline
    decreases deadline - t
  {
    if t < deadline then
      var s := Round(env, asgName, t);
      if s.value.Some? then [t] else [t] + WaitReads(env, asgName, s.clock, deadline)
    else []
  }

  /** The health waiter runs only on a group that one of the loop's reads
      found at capacity, with exactly that group's ids. */
  lemma {:induction false} WaitGate(env: Provider, asgName: string, t: int, deadline: int)
    ensures !WaitLoop(env, asgName, t, deadline).value.GaveUp? ==>
      exists i :: 0 <= i < |WaitReads(env, asgName, t, deadline)| &&
        GateOpenAt(env, asgName, WaitReads(env, asgName, t, deadline)[i], WaitLoop(env, asgName, t, deadline).value.ids)
    decreases deadline - t
  {
    var r := WaitLoop(env, asgName, t, deadline);
    var seen := WaitReads(env, asgName, t, deadline);
    if t < deadline && !r.value.GaveUp? {
      var groups := GroupInfos(env.groupsAt(asgName, t));
      var s := Round(env, asgName, t);
      if s.value.Some? {
        var j := FirstAtCapacity(groups).value;
        assert groups[j].ids == r.value.ids;
        assert seen[0] == t;
        assert GateOpenAt(env, asgName, seen[0], r.value.ids);
      } else {
        WaitGate(env, asgName, s.clock, deadline);
        var rest := WaitReads(env, asgName, s.clock, deadline);
        var i :| 0 <= i < |rest| && GateOpenAt(env, asgName, rest[i], r.value.ids);
        assert seen[i + 1] == rest[i];
      }
    }
  }

  /** No group in the response read at clock time `s` is at capacity. */
  predicate NoneAtCapacityAt(env: Provider, asgName: string, s: int) {
    var groups := GroupInfos(env.groupsAt(asgName, s));
    forall j :: 0 <= j < |groups| ==> !AtCapacity(groups[j])
  }

  /** None of the responses read at the given clock times has a group at
      capacity. */
  predicate NoneAtCapacity(env: Provider, asgName: string, seen: seq<int>) {
    forall i :: 0 <= i < |seen| ==> NoneAtCapacityAt(env, asgName, seen[i])
  }

  /** The capacity gate decides the wait: it gives up exactly when none of
      the loop's reads finds a group at capacity, and otherwise the last read
      found one and the health waiter ran on the first such group's ids. */
  lemma {:induction false} WaitGaveUpIff(env: Provider, asgName: string, t: int, deadline: int)
    ensures WaitLoop(env, asgName, t, deadline).value.GaveUp? <==>
      NoneAtCapacity(env, asgName, WaitReads(env, asgName, t, deadline))
    ensures !WaitLoop(env, asgName, t, deadline).value.GaveUp? ==>
      |WaitReads(env, asgName, t, deadline)| > 0 &&
      var last := GroupInfos(env.groupsAt(asgName, WaitReads(env, asgName, t, deadline)[|WaitReads(env, asgName, t, deadline)| - 1]));
      FirstAtCapacity(last).Some? && WaitLoop(env, asgName, t, deadline).value.ids == last[FirstAtCapacity(last).value].ids
    decreases deadline - t
  {
    if t < deadline {
      var groups := GroupInfos(env.groupsAt(asgName, t));
      var seen := WaitReads(env, asgName, t, deadline);
      var s := Round(env, asgName, t);
      FirstAtCapacityIsFirst(groups);
      if s.value.None? {
        WaitGaveUpIff(env, asgName, s.clock, deadline);
        var rest := WaitReads(env, asgName, s.clock, deadline);
        assert seen == [t] + rest;
        assert NoneAtCapacity(env, asgName, seen) <==> NoneAtCapacity(env, asgName, rest) by {
          assert NoneAtCapacityAt(env, asgName, t);
          assert forall i :: 0 <= i < |rest| ==> seen[i + 1] == rest[i];
          assert forall i :: 1 <= i < |seen| ==> seen[i] == rest[i - 1];
        }
      } else {
        assert seen == [t];
        assert !NoneAtCapacityAt(env, asgName, seen[0]);
      }
    }
  }

  /** If none of the loop's reads finds a group at capacity, the wait gives
      up without calling the health waiter and without error. */
  lemma WaitNeverAtCapacity(env: Provider, asgName: string, t: int, deadline: int)
    requires forall i, j ::
      (0 <= i < |WaitReads(env, asgName, t, deadline)| &&
       0 <= j < |GroupInfos(env.groupsAt(asgName, WaitReads(env, asgName, t, deadline)[i]))|) ==>
        !AtCapacity(GroupInfos(env.groupsAt(asgName, WaitReads(env, asgName, t, deadline)[i]))[j])
    ensures var r := WaitLoop(env, asgName, t, deadline);
      r.value == GaveUp && WaitOutcome(r.value) == Ok && r.clock >= deadline
  {
    WaitGate(env, asgName, t, deadline);
  }
}
