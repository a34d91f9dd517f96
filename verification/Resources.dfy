/** The KryptonDeployment resource as the home API server stores it, and the durations the operator uses. */
module Resources {
  import opened Wrappers

  const FINALIZER := "mesh.openkcm.io/kryptondeployment-finalizer"
  const READY := "Ready"

  /** Durations are nanoseconds, as in Go's time package. */
  const SECOND: int := 1_000_000_000

  datatype SecretRef = SecretRef(name: string, namespace: string)

  datatype Region = Region(name: string, kubeconfig: Option<SecretRef>, kubeconfigSecretName: string)

  datatype Spec = Spec(account: string, region: Region)

  datatype Phase = PhaseUnset | PhasePending | PhaseReady | PhaseError

  datatype ConditionStatus = ConditionTrue | ConditionFalse | ConditionUnknown

  /** A Deployment on the edge, as far as the health check reads it. */
  datatype Workload = Workload(name: string, replicas: Option<int>, available: int)

  /** The error a failed reconcile reports; text is what the failing call said. */
  datatype Cause =
    | HelmInit(text: string)
    | HelmGet(text: string)
    | ChartUnusable(text: string)
    | HelmInstall(text: string)
    | HelmUpgrade(text: string)
    | RepairInstall(cause: Cause)
    | RepairUpgrade(cause: Cause)

  /** What a status says; Text gives the words. */
  datatype Message =
    | NoMessage
    | AccountNameMissing
    | EdgeNotAvailable(region: string)
    | HealthCheckFailing(cause: Cause)
    | HelmDeploymentFailing(cause: Cause)
    | Repaired(missing: seq<string>)
    | WorkloadsUnlisted(text: string)
    | WorkloadsNotReady(items: seq<Workload>)
    | SuccessfullyDeployed(region: string)
    | OthersMessage(text: string)

  datatype Reason =
    | AccountMissing | EdgeUnavailable | HealthCheckFailed | HelmFailed | RepairTriggered | NotReady | Deployed
    | OthersReason(text: string)

  datatype Condition = Condition(
    kind: string,
    status: ConditionStatus,
    reason: Reason,
    message: Message,
    observedGeneration: int,
    lastTransition: int)

  datatype Status = Status(
    phase: Phase,
    lastMessage: Message,
    conditions: seq<Condition>,
    lastAppliedChart: string)

  const EMPTY_STATUS := Status(PhaseUnset, NoMessage, [], "")

  /** uid names the incarnation; version is the resourceVersion; deleting says a deletion timestamp is set. */
  datatype Deployment = Deployment(
    uid: nat,
    version: nat,
    generation: int,
    deleting: bool,
    finalizers: seq<string>,
    spec: Spec,
    status: Status)

  /** The chart the process flags name. */
  datatype Chart = Chart(repo: string, name: string, version: string)

  function ChartRef(c: Chart): string {
    c.repo + "/" + c.name + ":" + c.version
  }

  function Join(parts: seq<string>, sep: string): string {
    if parts == [] then ""
    else if |parts| == 1 then parts[0]
    else parts[0] + sep + Join(parts[1..], sep)
  }

  function Digits(n: nat): string {
    if n < 10 then ["0123456789"[n]] else Digits(n / 10) + ["0123456789"[n % 10]]
  }

  function Itoa(n: int): string {
    if n < 0 then "-" + Digits(-n) else Digits(n)
  }

  function Desired(w: Workload): int {
    if w.replicas.Some? then w.replicas.value else 1
  }

  function DescribeWorkload(w: Workload): string {
    "Deployment/" + w.name + " (" + Itoa(w.available) + "/" + Itoa(Desired(w)) + " available)"
  }

  function DescribeWorkloads(ws: seq<Workload>): seq<string> {
    if ws == [] then [] else [DescribeWorkload(ws[0])] + DescribeWorkloads(ws[1..])
  }

  function CauseText(c: Cause): string {
    match c
    case HelmInit(text) => "helm init failed: " + text
    case HelmGet(text) => "helm get failed: " + text
    case ChartUnusable(text) => text
    case HelmInstall(text) => "helm install failed: " + text
    case HelmUpgrade(text) => "helm upgrade failed: " + text
    case RepairInstall(cause) => "repair install failed: " + CauseText(cause)
    case RepairUpgrade(cause) => "repair upgrade failed: " + CauseText(cause)
  }

  function Text(m: Message): string {
    match m
    case NoMessage => ""
    case AccountNameMissing => "Spec.account.name must be set"
    case EdgeNotAvailable(region) => "Edge cluster " + region + " not available"
    case HealthCheckFailing(cause) => "Health check failed: " + CauseText(cause)
    case HelmDeploymentFailing(cause) => "Helm deployment failed: " + CauseText(cause)
    case Repaired(missing) => "Detected missing resources, triggered repair: " + Join(missing, ", ")
    case WorkloadsUnlisted(text) => "Workloads not yet ready: list-error:" + text
    case WorkloadsNotReady(items) => "Workloads not yet ready: " + Join(DescribeWorkloads(items), ", ")
    case SuccessfullyDeployed(region) => "Successfully deployed to region " + region
    case OthersMessage(text) => text
  }
}
