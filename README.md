# restart_asg — a verified model of the rolling restart

`restart_asg.py` restarts the members of an EC2 auto-scaling group one at a
time. For each in-service instance it can drain the instance's ECS
container host first. It then terminates the instance and waits until the
group is back at its desired capacity and the new members pass the health
waiter.

This project models that decision logic against an abstract cloud
provider.

- **`Provider`** (`provider.dfy`) holds the provider's observable answers.
  Each answer is a total function of the call's arguments and of the clock
  time at which the call is issued. Examples are the describe-groups
  response, the container hosts of a cluster, the failures of a DRAINING
  update, the running-task count of a host, whether terminate or a waiter
  returns, and the EC2 state an instance reads. Every provider call is
  recorded as an `Action` and costs a fixed positive `latency`. A sleep
  advances the clock by its argument.
- **Specification functions** (`groups.dfy`, `drain.dfy`, `capacity.dfy`,
  `controller.dfy`) describe each function of the script as a value. They
  return the result, the clock afterwards and the calls issued, in order:
  - `GroupInfos` is `get_groups`;
  - `DrainSpec` with `DrainPoll` is `drain_instance`;
  - `WaitSpec`, `WaitLoop`, `Round` and `Scan` are `wait_for_running`;
  - `TerminateSpec` is the try/except block of `restart_all`;
  - `Step`, `RunIds`, `RunGroups` and `RestartSpec` are the loops of
    `restart_all`.

  The lemmas beside these functions state what the script promises.
- **The class `RestartAsg.Rotation`** (`rotation.dfy`) is the script as it
  runs. It holds the clock and the call log, and has one method per
  function of the script, written with the script's own loops. Each method
  is proved to produce exactly its specification function's result, its
  clock and its calls.

A run of `restart_all` is recorded as one `StepTrace` per processed
instance. Each `StepTrace` holds that instance's drain, terminate and wait
calls. `Flatten` joins these in order, and the result is the log the class
builds.

## Model

| member | source | states |
|---|---|---|
| RestartAsg.Rotation.GetGroups | restart_asg.py:21-36 | get_groups issues one describe-groups call and returns the filtered response read at that moment |
| Groups.FilterGroups | restart_asg.py:28-36 | one (DesiredCapacity, ids) entry per group, in response order; each ids is exactly the InService members' ids of that group, in member order |
| Groups.InServiceIdsMembership | restart_asg.py:31-33 | an id is kept if and only if some member of the group carries it and is InService |
| Groups.InServiceIdsConcat | restart_asg.py:31-33 | the filter keeps member order: filtering a concatenation is the concatenation of the filtered parts |
| Groups.InServiceIdsSingle | restart_asg.py:32-33 | a single member contributes its id exactly when its lifecycle state is InService |
| Groups.InServiceIdsLength | restart_asg.py:31-33 | never more ids than members |
| Drain.FirstMatch | restart_asg.py:50-53 | the host found runs the instance and lies within the described hosts |
| Drain.FirstMatchIsFirst | restart_asg.py:50-53 | no earlier host runs the instance, and no host is found exactly when none runs it |
| Drain.FindHost | restart_asg.py:50-53 | the search loop stops at the first host whose ec2InstanceId matches, or finds none |
| Drain.DrainPoll | restart_asg.py:63-68 | the poll loop stops only with a zero count or once the clock has reached the deadline, and overshoots it by less than one sleep and one lookup |
| Drain.DrainPollStopsAtZero | restart_asg.py:65-68 | conversely, the first zero count read in a pass begun before the deadline ends the loop right after that lookup, after exactly that many sleep-and-lookup passes |
| Drain.DrainPollCalls | restart_asg.py:65-68 | the poll loop issues only 30-second sleeps and task-count lookups of the drained host |
| Drain.DrainNotFound | restart_asg.py:50-72 | the "Could not find" error is raised exactly when no described host runs the instance, and then no host is set DRAINING |
| Drain.DrainRejectedBeforePolling | restart_asg.py:55-62 | a DRAINING update with failures raises exactly the failures that update returned for the first matching host, right after the update, before any sleep or task-count lookup |
| Drain.DrainReturnsNormally | restart_asg.py:50-71 | drain_instance returns normally exactly when a host matches and its update has no failures; only that first match is set DRAINING and every task-count lookup is of that host; a timeout is reported, never raised |
| Drain.DrainDeadline | restart_asg.py:19-71 | a normal return comes between the deadline start and the end of 600 s plus one poll period, and the timeout is reported exactly when the clock is past the deadline |
| Drain.DrainPollEndsOnDeadline | restart_asg.py:65-68 | with tasks that never leave and a deadline a whole number of poll periods away, the poll loop stops exactly on the deadline with a non-zero count |
| Drain.DrainTimeoutUnreported | restart_asg.py:63-71 | when DRAIN_WAIT is a whole number of poll periods and tasks never leave, drain_instance returns normally on the deadline with tasks still running and, because of the strict `>` test, reports no timeout |
| Drain.DrainWithoutTasks | restart_asg.py:63-65 | a host with no running task is not polled at all: four calls and no sleep |
| Capacity.FirstAtCapacity | restart_asg.py:120-126 | the group picked passes the gate: its in-service count equals its desired capacity |
| Capacity.FirstAtCapacityIsFirst | restart_asg.py:120-126 | every group before the one picked fails the gate, and none is picked exactly when all fail |
| Capacity.Round | restart_asg.py:119-131 | one pass of the outer loop starts with get_groups and always advances the clock |
| Capacity.WaitLoop | restart_asg.py:118-131 | the wait gives up only once the clock has reached the deadline |
| Capacity.WaitHealthyLast | restart_asg.py:126-131 | the health waiter runs at most once; when it runs it is the last call, so wait_for_running returns right after it; a wait that gave up never called it |
| Capacity.WaitHealthyResult | restart_asg.py:129-131 | when the wait did not give up, its result is Healthy exactly when the provider's health waiter returned for those ids at the moment it was called, and Unhealthy (the waiter raising) otherwise |
| Capacity.WaitReads | restart_asg.py:118-119 | the clock times at which the outer loop calls get_groups all lie between the start and the deadline |
| Capacity.WaitGate | restart_asg.py:118-129 | the health waiter runs only on the ids of a group that one of those get_groups reads found at capacity |
| Capacity.WaitNeverAtCapacity | restart_asg.py:113-131 | if none of the loop's get_groups reads shows a group at capacity, the wait gives up without error at or past the deadline |
| Capacity.WaitGaveUpIff | restart_asg.py:118-131 | the wait gives up exactly when none of the loop's get_groups reads finds a group at capacity; otherwise the last read found one and the health waiter ran on the ids of the first group at capacity in it |
| Controller.TerminateShape | restart_asg.py:95-108 | the terminate block starts with the terminate request and touches only its own instance; it is confirmed exactly when the request was accepted and the termination waiter returned after the 10-second grace sleep, and then its calls are request, sleep, waiter; a refused request goes straight to describe_instances with no sleep or waiter; otherwise the result comes from the state read afterwards |
| Controller.TerminateIdempotent | restart_asg.py:101-106 | an instance that always reads `terminated` never makes the terminate block fail |
| Controller.DrainPhaseCalls | restart_asg.py:91-94 | drain calls happen exactly when the cluster argument is truthy, are drain_instance's own calls on that cluster, and raise only drain_instance's errors |
| Controller.StepShape | restart_asg.py:89-110 | each instance follows drain, then terminate, then recovery wait; terminate is skipped exactly on a drain error; the wait runs exactly when the termination wait returned |
| Controller.CombineShape | restart_asg.py:91-109 | phases that each issue only their own calls combine into a well-formed step |
| Controller.StepAfterTerminate | restart_asg.py:101-109 | after a normal drain, `terminated` moves on without the recovery wait; any other state ends the instance with an error (the model's TerminationFailed, naming that state) and no recovery wait; a confirmed termination is followed by wait_for_running, whose calls, outcome and clock are the instance's |
| Controller.StepHealthOutcome | restart_asg.py:99-131 | after a normal drain and a confirmed termination, the instance raises the health waiter's error exactly when the recovery wait called the waiter and the provider's waiter did not return, and ends normally otherwise, a wait that gave up included |
| Controller.WaitCalls | restart_asg.py:118-131 | wait_for_running issues only describe-groups calls, 30-second sleeps and the health waiter |
| Controller.RunIdsShape | restart_asg.py:89-110 | the inner loop processes ids in discovery order, one after the other, and stops at the first instance that raised |
| Controller.RunGroupsShape | restart_asg.py:87-110 | restart_all processes all groups' ids in discovery order; every instance but the last returned normally; a normal return has processed every id; a raised error is the last instance's |
| Controller.DrainErrorAborts | restart_asg.py:91-97 | a drain error ends the run at that instance, before it is terminated and before any later instance is touched |
| Controller.FlattenSnoc | restart_asg.py:89-110 | the log of a run grows by one instance's drain, terminate and wait calls, in that order |
| Groups.InServiceIds | restart_asg.py:30-33 | specification function of the inner loop of get_groups, without a contract of its own; its properties are stated by InServiceIdsMembership, InServiceIdsConcat, InServiceIdsSingle and InServiceIdsLength |
| Groups.GroupInfos | restart_asg.py:28-36 | specification function of get_groups' result, without a contract of its own; FilterGroups is proved equal to it, entry by entry |
| Drain.DrainSpec | restart_asg.py:39-72 | specification function of drain_instance, without a contract of its own; its properties are stated by DrainNotFound, DrainRejectedBeforePolling, DrainReturnsNormally, DrainDeadline, DrainWithoutTasks and DrainTimeoutUnreported |
| Capacity.Scan | restart_asg.py:120-131 | specification function of the inner loop of wait_for_running, without a contract of its own; ScanGroups is proved equal to it, and WaitHealthyLast and WaitGate state its effect through WaitLoop |
| Capacity.WaitSpec | restart_asg.py:113-131 | specification function of wait_for_running with its deadline of timeout times 60 seconds, without a contract of its own; its properties are those of WaitLoop: WaitHealthyLast, WaitHealthyResult, WaitGate, WaitNeverAtCapacity, WaitGaveUpIff and WaitCalls |
| Controller.TerminateSpec | restart_asg.py:95-108 | specification function of the try/except block, without a contract of its own; its properties are stated by TerminateShape and TerminateIdempotent |
| Controller.DrainPhase | restart_asg.py:91-94 | specification function of the drain step, without a contract of its own; its properties are stated by DrainPhaseCalls |
| Controller.Step | restart_asg.py:89-110 | specification function of one pass of the inner loop of restart_all, without a contract of its own; its properties are stated by StepShape, StepAfterTerminate and StepHealthOutcome |
| Controller.Combine | restart_asg.py:91-109 | how the drain, terminate and wait phases make up one pass, without a contract of its own; its properties are stated by CombineShape |
| Controller.RunIds | restart_asg.py:89-110 | specification function of the inner loop of restart_all, without a contract of its own; its properties are stated by RunIdsShape |
| Controller.RunGroups | restart_asg.py:87-110 | specification function of the outer loop of restart_all, without a contract of its own; its properties are stated by RunGroupsShape |
| Controller.Continue | restart_asg.py:87-110 | the rest of one group's ids followed by the remaining groups, without a contract of its own; RestartAll's loop invariants are stated with it |
| Controller.RestartSpec | restart_asg.py:82-110 | specification function of restart_all, without a contract of its own; its properties are stated by RunGroupsShape and DrainErrorAborts |
| Controller.Flatten | restart_asg.py:87-110 | the calls of a run in order, without a contract of its own; its property is stated by FlattenSnoc |
| RestartAsg.Rotation.GetRunningTasks | restart_asg.py:75-79 | one lookup returning the host's running-task count at that moment |
| RestartAsg.Rotation.DrainInstance | restart_asg.py:39-72 | the method's result, clock and calls are exactly those of DrainSpec |
| RestartAsg.Rotation.PollTasks | restart_asg.py:63-68 | the while loop's last count, clock and calls are exactly those of DrainPoll |
| RestartAsg.Rotation.TerminateInstance | restart_asg.py:95-108 | the try/except block's result, clock and calls are exactly those of TerminateSpec |
| RestartAsg.Rotation.WaitForRunning | restart_asg.py:113-131 | the method's result, clock and calls are exactly those of WaitSpec at the default timeout it is given |
| RestartAsg.Rotation.WaitRound | restart_asg.py:119-131 | one pass of the outer loop matches Round |
| RestartAsg.Rotation.ScanGroups | restart_asg.py:120-131 | the inner loop sleeps before each group, stops at the first group at capacity and calls the health waiter on it, as Scan says |
| RestartAsg.Rotation.RotateInstance | restart_asg.py:89-110 | one instance's calls, clock and outcome are exactly those of Step |
| RestartAsg.Rotation.RestartAll | restart_asg.py:82-110 | the log is one describe-groups call followed by the flattened run of RestartSpec, whose outcome and clock the method returns |

## Left out

- boto3 clients and the real AWS calls are not modelled. The provider's answers are the functions of `Provider`.
- The real clock and `time.sleep` are replaced by an abstract clock. Every provider call takes the same positive `latency`, so there are no real-time guarantees.
- The internals of the `instance_terminated` and `instance_status_ok` waiters (MaxAttempts 100, Delay 15) are foreign library code. Each waiter is modelled as returning or raising at the moment it is called, and costs one latency.
- The pagination loop of `drain_instance` (restart_asg.py:43-45) is not modelled. It calls `list_container_instances` again without passing `nextToken`, so it never gathers later pages and can loop forever. Only the single-page case is modelled.
- Drain.DrainSpec: the hosts are answered by `hostsAt(cluster, time)` rather than from the listed ARNs. This is the same under the single-page assumption.
- Exceptions raised by the provider calls themselves are not modelled: network errors and missing keys in `get_groups`, `drain_instance` and `get_running_tasks`, and, in the except branch of `restart_all` (restart_asg.py:102-104), a `describe_instances` call that raises or returns no reservation. Only the script's own `raise` statements and the failures of the terminate request and the two waiters become errors.
- Controller.TerminateSpec: the bare `raise` at restart_asg.py:108 re-raises the exception caught from `terminate_instances` or the termination waiter (restart_asg.py:97-99); the state read in the except branch is only printed. The model has no such exception value, so it raises its own `TerminationFailed` carrying the instance and that state.
- Drain.DrainTimeoutUnreported: the source reads `time.time()` twice, once for the loop test (restart_asg.py:65) and once for the timeout report (restart_asg.py:69). The abstract clock does not move between the two reads, so a clock exactly on the deadline makes the loop stop and the report stay silent. On a real clock that coincidence is unlikely.
- `terminate_instances` raising and the termination waiter raising both lead to the same except branch. They are modelled as one boolean each (`terminateAccepted`, `terminationConfirmed`).
- `print`, `pprint`, `print_sep`, `main`, `argparse` and the timing summary are omitted. They are output and presentation with no decisions. The timeout message of `drain_instance` is kept as the `DrainTimedOut` action, because it is the script's one observable report.
- The system-level claim that at most one member is unhealthy at a time is not stated. It depends on provider behaviour outside the script. The `continue` at restart_asg.py:106 also skips the recovery wait, so the script does not uphold it. Controller.StepAfterTerminate states that skip.
- `int(capacity)` is modelled as an integer already. A non-numeric capacity raising ValueError is not modelled.
- RestartAsg.Rotation.WaitForRunning: the default `timeout=10` is passed explicitly by RotateInstance as `DEFAULT_TIMEOUT_MINUTES`.
