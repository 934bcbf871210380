/** The values the framework stores, sends and receives. */
module Types {

  datatype Option<+T> = None | Some(value: T)

  /** The three kinds of task; a task's name is the framework name followed by one of these. */
  datatype Kind = Datastore | Server | Agent

  datatype PerKind<+T> = PerKind(datastore: T, server: T, agent: T) {
    function Of(k: Kind): T {
      match k
      case Datastore => datastore
      case Server => server
      case Agent => agent
    }
  }

  function With<T>(p: PerKind<T>, k: Kind, v: T): PerKind<T> {
    match k
    case Datastore => p.(datastore := v)
    case Server => p.(server := v)
    case Agent => p.(agent := v)
  }

  datatype TaskStatus =
    | Staging | Starting | Running | Killing | Finished | Failed | Killed | Error | Lost
    | Dropped | Unreachable | Gone | GoneByOperator | Unknown

  /** The State string of a command: "", "__NEW" or the name of the last status Mesos reported. */
  datatype State = Fresh | New | Reported(status: TaskStatus)

  /** A command, stored under the key made of its name and its task ID.  `name` is None for the empty
      name, `since` for the zero time.  Port lists hold host port numbers, `networks` counts network infos. */
  datatype Command = Command(
    name: Option<Kind>,
    id: string,
    state: State,
    since: Option<int>,
    instances: int,
    mappings: seq<nat>,
    discovery: seq<nat>,
    cpu: real,
    memory: real,
    disk: real,
    agent: string,
    mesosAgent: string,
    networks: nat)

  /** What decoding a missing key gives. */
  const EMPTY := Command(None, "", Fresh, None, 0, [], [], 0.0, 0.0, 0.0, "", "", 0)

  /** The Ready condition of a Kubernetes node, if it has one. */
  datatype Ready = NoCondition | ReadyTrue | ReadyFalse | ReadyUnknown

  /** A Kubernetes node with the task ID its label and its annotation carry ("" when they carry none). */
  datatype Node = Node(name: string, labelId: string, annotationId: string, ready: Ready)

  const NO_NODE := Node("", "", "", NoCondition)

  datatype Range = Range(begin: nat, end: nat)

  /** A Mesos resource; an absent scalar reads as 0, absent ranges as none. */
  datatype Resource = Resource(name: string, scalar: real, ranges: seq<Range>)

  datatype Offer = Offer(id: string, hostname: string, resources: seq<Resource>)

  datatype Update = Update(task: string, agent: string, status: TaskStatus, uuid: Option<string>)

  /** Which part of the framework makes a call; Mesos does not see it. */
  datatype Actor =
    | HeartbeatStep | CheckStateStep | ScaleStep | UpdateStep
    | HealthCheck | AgentSweep | NodeCleanup | ClusterStop

  datatype Call =
    | Accept(offer: string, task: string, claims: seq<Resource>)
    | Decline(offers: seq<string>)
    | Kill(actor: Actor, task: string, agent: string)
    | Revive(actor: Actor)
    | Suppress(actor: Actor)
    | Acknowledge(task: string, uuid: string)

  /** The part of the configuration that changes: wanted counts, counts to restore, the API server's port. */
  datatype Config = Config(max: PerKind<int>, restore: PerKind<int>, serverPort: int)

  /** The part of the configuration that does not change. */
  datatype Settings = Settings(
    portFrom: int,
    portTo: int,
    agentTcpPort: int,
    nodeTimeout: int,
    cleanupTime: int,
    hosts: PerKind<string>,
    cpu: PerKind<real>,
    memory: PerKind<real>,
    disk: PerKind<real>)

  /** The whole state: the Redis store, the process memory, the Kubernetes API and what was sent to Mesos.
      `tasks` and `cache` are in the store's iteration order; `anonymous` is the entry under the key ":".
      The last four fields are history: calls made, IDs sent on the channel, IDs lost with it in a crash,
      and whether a port search ever came back empty. */
  datatype Sys = Sys(
    tasks: seq<Command>,
    anonymous: Option<Command>,
    cache: seq<Node>,
    saved: Config,
    cfg: Config,
    queue: seq<Command>,
    reviveLock: bool,
    suppressLock: bool,
    cluster: seq<Node>,
    kubeUp: bool,
    log: seq<Call>,
    sent: seq<string>,
    lost: seq<string>,
    exhausted: bool)

  function Emit(s: Sys, c: Call): Sys { s.(log := s.log + [c]) }

  /** Everything but the nodes and the log is the same. */
  ghost predicate OnlyNodes(s: Sys, r: Sys) { r == s.(log := r.log, cluster := r.cluster, cache := r.cache) }

  /** Everything but the store, the nodes and the log is the same. */
  ghost predicate OnlyStoreAndNodes(s: Sys, r: Sys) {
    r == s.(tasks := r.tasks, log := r.log, cluster := r.cluster, cache := r.cache)
  }

  function SaveConfig(s: Sys): Sys { s.(saved := s.cfg) }

  const TWO_TO_THE_32 := 0x1_0000_0000

  /** Conversion to an unsigned 32-bit integer. */
  function U32(i: int): nat { i % TWO_TO_THE_32 }
}
