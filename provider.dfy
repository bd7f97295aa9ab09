/** The abstract cloud provider seen by the rolling restart: the responses it
    gives, the calls the controller issues, and the errors that end a run. */
module Provider {

  /** Lifecycle state of an autoscaling-group member that makes it a rotation target. */
  const IN_SERVICE: string := "InService"

  /** EC2 state name that the controller accepts after a failed termination wait. */
  const TERMINATED: string := "terminated"

  /** One member of an autoscaling group as describe-groups reports it. */
  datatype Member = Member(instanceId: string, lifecycleState: string)

  /** One autoscaling group as describe-groups reports it. */
  datatype AsgGroup = AsgGroup(desiredCapacity: int, instances: seq<Member>)

  /** A container record as the container service describes it. */
  datatype ContainerHost = ContainerHost(containerInstanceArn: string, ec2InstanceId: string)

  /** Every provider call the controller issues, and the one console report
      that carries a decision (the drain timeout). */
  datatype Action =
    | DescribeGroups(asgName: string)
    | ListHosts(cluster: string)
    | DescribeHosts(cluster: string)
    | SetDraining(cluster: string, arn: string)
    | DescribeTasks(arn: string)
    | Sleep(seconds: nat)
    | DrainTimedOut(instanceId: string)
    | Terminate(instanceId: string)
    | WaitTerminated(instanceId: string)
    | DescribeInstance(instanceId: string)
    | WaitHealthy(instanceIds: seq<string>)

  /** The exceptions that leave the controller. */
  datatype Error =
    | HostNotFound(instanceId: string, cluster: string, region: string)
    | DrainRejected(failures: seq<string>)
    | TerminationFailed(instanceId: string, state: string)
    | HealthWaitFailed(instanceIds: seq<string>)

  /** Normal return, or an exception raised to the caller. */
  datatype Outcome = Ok | Raised(error: Error)

  /** What a piece of the controller returns, the clock when it returns, and
      the actions it issued, in order. */
  datatype Effect<T> = Effect(value: T, clock: int, actions: seq<Action>)

  /** Seconds one provider round trip takes; positive, as real time passes. */
  type Latency = n: int | n >= 1 witness 1

  /** The provider's answers. Each function gives the answer to a call issued
      at the given clock time. */
  datatype Provider = Provider(
    latency: Latency,
    groupsAt: (string, int) -> seq<AsgGroup>,
    hostsAt: (string, int) -> seq<ContainerHost>,
    drainFailuresAt: (string, string, int) -> seq<string>,
    tasksAt: (string, string, int) -> nat,
    terminateAccepted: (string, int) -> bool,
    terminationConfirmed: (string, int) -> bool,
    stateAt: (string, int) -> string,
    healthyAt: (seq<string>, int) -> bool
  )

  /** Python truthiness of the optional cluster argument: absent or empty is false. */
  predicate Truthy(cluster: Option<string>) {
    cluster.Some? && cluster.value != ""
  }

  datatype Option<+T> = None | Some(value: T)
}
