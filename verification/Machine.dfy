/** The reconcile of one KryptonDeployment as a step system: the home store, the edge clusters, the operator, and
    everything that may happen between two calls. */
module Machine {
  import opened Wrappers
  import opened Resources
  import opened Conditions
  import opened Finalizers
  import opened Manifest
  import opened Drift
  import opened Routing
  import SecretProvider
  import opened Edge

  datatype Key = Key(namespace: string, name: string)

  /** What never changes: the object reconciled, the discovery namespace, and the manifest decoder. */
  datatype Config = Config(key: Key, discovery: string, decode: Decoder)

  /** Process memory that a restart may replace: the chart of the flags, and the latched check interval. */
  datatype Memory = Memory(chart: Chart, interval: int)

  /** Where a reconcile stands: resting, or at a call it is about to make with the working copy it holds. */
  datatype PC =
    | Idle
    | Returned(requeue: int)
    | GetObject
    | AddFinalizer(dep: Deployment, finalizers: seq<string>)
    | Lookup(dep: Deployment)
    | AtEdge(dep: Deployment, cluster: string, call: EdgeCall)
    | LookupForDelete(dep: Deployment)
    | RemoveFinalizer(dep: Deployment, finalizers: seq<string>)
    | WriteStatus(dep: Deployment, requeue: int)

  /** One call of the current reconcile, its reply, and when that came. */
  datatype Exchange = Exchange(at: PC, reply: Reply, now: int)

  /** What the history of a run keeps. An effect names the stored version it was based on. */
  datatype Record =
    | Effect(uid: nat, base: nat, cluster: string)
    | Removed(uid: nat)
    | StoredReady(uid: nat, chart: string, trace: seq<Exchange>)

  /** The part of the state that belongs to one key. versions lists every state the home API server has stored for
      it, the last being current; seen is how far the operator's cached reads have got. */
  datatype Cell = Cell(
    versions: seq<Option<Deployment>>,
    seen: nat,
    nextUid: nat,
    memory: Memory,
    pc: PC,
    trace: seq<Exchange>,
    log: seq<Record>)

  datatype SlotId = SlotId(cluster: string, namespace: string)

  /** The part all keys share: edge namespaces, kubeconfig Secrets (None if unusable), and the provider's cache. */
  datatype Shared = Shared(
    slots: map<SlotId, Slot>,
    secrets: map<SecretId, Option<string>>,
    cache: SecretProvider.Cache)

  datatype State = State(cell: Cell, shared: Shared)

  // ---------------------------------------------------------------- the operator's program

  predicate Resting(pc: PC) {
    pc.Idle? || pc.Returned?
  }

  /** The two updates of the finalizer list: the copy they are based on, and the list written. */
  function Addition(dep: Deployment): PC {
    AddFinalizer(dep, dep.finalizers + [FINALIZER])
  }

  function Removal(dep: Deployment): PC {
    RemoveFinalizer(dep, Without(dep.finalizers, FINALIZER))
  }

  /** The branches taken right after the object has been read. */
  function Dispatch(dep: Deployment, now: int): PC {
    if dep.spec.account == "" then
      WriteStatus(Unready(dep, PhaseError, AccountMissing, AccountNameMissing, now), 30 * SECOND)
    else if dep.deleting then LookupForDelete(dep)
    else if FINALIZER !in dep.finalizers then Addition(dep)
    else Lookup(dep)
  }

  function Unhealthy(dep: Deployment, cause: Cause, now: int): PC {
    WriteStatus(Unready(dep, PhaseError, HealthCheckFailed, HealthCheckFailing(cause), now), 30 * SECOND)
  }

  /** After one more object has been looked for. */
  function AfterScan(dep: Deployment, cluster: string, todo: seq<KObject>, missing: seq<string>): PC {
    AtEdge(dep, cluster,
      if todo != [] then CheckObject(todo, missing)
      else FetchChart(if missing == [] then Converge else Heal(missing)))
  }

  function DeployFailed(dep: Deployment, goal: Goal, cause: Cause, now: int): PC {
    match goal
    case Converge =>
      WriteStatus(Unready(dep, PhaseError, HelmFailed, HelmDeploymentFailing(cause), now), 60 * SECOND)
    case Reinstall => Unhealthy(dep, RepairInstall(cause), now)
    case Heal(_) => Unhealthy(dep, RepairUpgrade(cause), now)
  }

  function ReleaseName(cfg: Config): string {
    "ced-" + cfg.key.name
  }

  /** What a repair reports as missing. */
  function MissingList(cfg: Config, goal: Goal): seq<string> {
    if goal.Heal? then goal.missing else ["release:" + ReleaseName(cfg)]
  }

  function DeployDone(cfg: Config, dep: Deployment, cluster: string, goal: Goal, now: int): PC {
    if goal.Converge? then AtEdge(dep, cluster, ListWorkloads)
    else WriteStatus(Unready(dep, PhasePending, RepairTriggered, Repaired(MissingList(cfg, goal)), now), 20 * SECOND)
  }

  function WorkloadsPending(dep: Deployment, message: Message, now: int): PC {
    WriteStatus(Unready(dep, PhasePending, NotReady, message, now), 15 * SECOND)
  }

  function ErrorText(r: Reply): string {
    if r.Failed? then r.text else ""
  }

  /** What the program does with the reply of an edge call. */
  function ReactAtEdge(cfg: Config, mem: Memory, dep: Deployment, c: string, call: EdgeCall, r: Reply, now: int): PC {
    match call
    case GetNamespace =>
      if r.Ok? then AtEdge(dep, c, CheckHistory)
      else if r.NotFound? then AtEdge(dep, c, CreateNamespace)
      else Returned(30 * SECOND)
    case CreateNamespace =>
      if r.Ok? then AtEdge(dep, c, CheckHistory) else Returned(30 * SECOND)
    case CheckHistory =>
      if r.Ok? then AtEdge(dep, c, CheckRelease)
      else if r.NotFound? then AtEdge(dep, c, FetchChart(Reinstall))
      else Unhealthy(dep, HelmInit(ErrorText(r)), now)
    case CheckRelease =>
      if !r.GotRelease? then Unhealthy(dep, HelmGet(ErrorText(r)), now)
      else if r.release.status.Uninstalled? then AtEdge(dep, c, FetchChart(Reinstall))
      else AfterScan(dep, c, Scope(Parse(cfg.decode, r.release.manifest), cfg.key.name), [])
    case CheckObject(todo, missing) =>
      if todo == [] then AfterScan(dep, c, [], missing)
      else AfterScan(dep, c, todo[1..],
                     if r.NotFound? then missing + [Describe(todo[0], cfg.key.name)] else missing)
    case FetchChart(goal) =>
      if r.Rendered? then AtEdge(dep, c, DeployHistory(goal, r.manifest))
      else DeployFailed(dep, goal, ChartUnusable(ErrorText(r)), now)
    case DeployHistory(goal, manifest) =>
      AtEdge(dep, c, if r.Ok? then Upgrade(goal, manifest) else Install(goal, manifest))
    case Install(goal, _) =>
      if r.Ok? then DeployDone(cfg, dep, c, goal, now)
      else DeployFailed(dep, goal, HelmInstall(ErrorText(r)), now)
    case Upgrade(goal, _) =>
      if r.Ok? then DeployDone(cfg, dep, c, goal, now)
      else DeployFailed(dep, goal, HelmUpgrade(ErrorText(r)), now)
    case ListWorkloads =>
      if !r.Workloads? then WorkloadsPending(dep, WorkloadsUnlisted(ErrorText(r)), now)
      else if Unavailable(r.items) != [] then WorkloadsPending(dep, WorkloadsNotReady(Unavailable(r.items)), now)
      else WriteStatus(NowReady(dep, mem.chart, now), mem.interval)
    case DeleteHistory =>
      AtEdge(dep, c, if r.Ok? then Uninstall else DeleteNamespace)
    case Uninstall =>
      AtEdge(dep, c, DeleteNamespace)
    case DeleteNamespace =>
      Removal(dep)
  }

  /** The whole reconcile as a program: the next call, or the result, given the reply to the last one. */
  function React(cfg: Config, mem: Memory, pc: PC, r: Reply, now: int): PC {
    match pc
    case Idle => pc
    case Returned(_) => pc
    case GetObject =>
      if r.Got? then Dispatch(r.dep, now)
      else if r.NotFound? then Returned(0)
      else Returned(10 * SECOND)
    case AddFinalizer(_, _) =>
      if r.Got? then Lookup(r.dep) else Returned(5 * SECOND)
    case Lookup(dep) =>
      if r.Cluster? then AtEdge(dep, r.id, GetNamespace)
      else
        WriteStatus(Unready(dep, PhaseError, EdgeUnavailable, EdgeNotAvailable(dep.spec.region.name), now), 30 * SECOND)
    case AtEdge(dep, c, call) => ReactAtEdge(cfg, mem, dep, c, call, r, now)
    case LookupForDelete(dep) =>
      if r.Cluster? then AtEdge(dep, r.id, DeleteHistory) else Removal(dep)
    case RemoveFinalizer(_, _) =>
      if r.Ok? then Returned(0) else Returned(5 * SECOND)
    case WriteStatus(_, requeue) => Returned(requeue)
  }

  // ---------------------------------------------------------------- the home API server

  function Home(c: Cell): Option<Deployment>
    requires c.versions != []
  {
    c.versions[|c.versions| - 1]
  }

  /** Storing an object: an identical one is not stored again, and one being deleted goes with its last finalizer. */
  function Put(versions: seq<Option<Deployment>>, o: Deployment): seq<Option<Deployment>>
    requires versions != []
  {
    if versions[|versions| - 1] == Some(o) then versions
    else if o.deleting && o.finalizers == [] then versions + [None]
    else versions + [Some(o.(version := |versions|))]
  }

  /** Optimistic concurrency: a write is taken only if it is based on the current version. */
  predicate Accepts(c: Cell, dep: Deployment)
    requires c.versions != []
  {
    Home(c).Some? && Home(c).value.version == dep.version
  }

  /** What an accepted Update of the main resource stores: spec and metadata of the copy, the stored status. */
  function Updated(home: Deployment, dep: Deployment, finalizers: seq<string>): Deployment {
    home.(spec := dep.spec,
          generation := if dep.spec == home.spec then home.generation else home.generation + 1,
          finalizers := finalizers)
  }

  /** The version a cached read sees: never older than one seen before. */
  function Pick(c: Cell, at: nat): nat
    requires c.versions != []
  {
    if at >= |c.versions| || c.seen >= |c.versions| then |c.versions| - 1
    else if at < c.seen then c.seen
    else at
  }

  datatype HomeServed = HomeServed(reply: Reply, cell: Cell)

  function ServeHome(c: Cell, ch: Choice): HomeServed
    requires c.versions != []
  {
    var fails := HomeServed(Failed(ch.text), c);
    var takes := ch.fault.NoFault? || ch.fault.Lost?;
    match c.pc
    case GetObject =>
      if !ch.fault.NoFault? then fails
      else
        var i := Pick(c, ch.at);
        HomeServed(if c.versions[i].Some? then Got(c.versions[i].value) else NotFound, c.(seen := i))
    case AddFinalizer(dep, fs) =>
      if !takes || !Accepts(c, dep) then fails
      else
        var c' := c.(versions := Put(c.versions, Updated(Home(c).value, dep, fs)));
        HomeServed(if ch.fault.NoFault? && Home(c').Some? then Got(Home(c').value) else Failed(ch.text), c')
    case RemoveFinalizer(dep, fs) =>
      if !takes || !Accepts(c, dep) then fails
      else
        var c' := c.(versions := Put(c.versions, Updated(Home(c).value, dep, fs)),
                     log := c.log + [Removed(dep.uid)]);
        HomeServed(if ch.fault.NoFault? then Ok else Failed(ch.text), c')
    case WriteStatus(dep, _) =>
      if !takes || !Accepts(c, dep) then fails
      else
        var c' := c.(versions := Put(c.versions, Home(c).value.(status := dep.status)),
                     log := c.log + (if dep.status.phase.PhaseReady?
                                     then [StoredReady(dep.uid, ChartRef(c.memory.chart), c.trace)] else []));
        HomeServed(if ch.fault.NoFault? then Ok else Failed(ch.text), c')
    case _ => fails
  }

  // ---------------------------------------------------------------- one step of the operator

  function SlotAt(sh: Shared, id: SlotId): Slot {
    if id in sh.slots then sh.slots[id] else EMPTY_SLOT
  }

  /** What building a cluster from the Secret behind a key would give now. */
  function Reach(cfg: Config, sh: Shared, key: string): Option<string> {
    var id := ParseKey(cfg.discovery, key);
    if id in sh.secrets then sh.secrets[id] else None
  }

  function KeyOf(cfg: Config, dep: Deployment): string {
    TargetKey(cfg.discovery, dep.spec.region)
  }

  function Uncached(cfg: Config, sh: Shared, dep: Deployment, ch: Choice): Option<string> {
    if ch.fault.NoFault? then Reach(cfg, sh, KeyOf(cfg, dep)) else None
  }

  /** The reply is noted and the program moves on. */
  function Advance(cfg: Config, c: Cell, from: Cell, r: Reply, now: int): Cell {
    c.(pc := React(cfg, from.memory, from.pc, r, now), trace := from.trace + [Exchange(from.pc, r, now)])
  }

  function LookupStep(cfg: Config, s: State, dep: Deployment, ch: Choice): State {
    var key, uncached := KeyOf(cfg, dep), Uncached(cfg, s.shared, dep, ch);
    var a := SecretProvider.Answer(s.shared.cache, key, uncached);
    var r := if a.Some? then Cluster(a.value) else Failed(ch.text);
    State(Advance(cfg, s.cell, s.cell, r, ch.now),
          s.shared.(cache := SecretProvider.After(s.shared.cache, key, uncached)))
  }

  function EdgeStep(cfg: Config, s: State, dep: Deployment, cluster: string, call: EdgeCall, ch: Choice): State {
    var id := SlotId(cluster, cfg.key.name);
    var served := Serve(cfg.key.name, cfg.decode, SlotAt(s.shared, id), call, ch);
    var noted := if Creates(call) then s.cell.(log := s.cell.log + [Effect(dep.uid, dep.version, cluster)]) else s.cell;
    State(Advance(cfg, noted, s.cell, served.reply, ch.now),
          s.shared.(slots := s.shared.slots[id := served.slot]))
  }

  function HomeStep(cfg: Config, s: State, ch: Choice): State
    requires s.cell.versions != []
  {
    var served := ServeHome(s.cell, ch);
    State(Advance(cfg, served.cell, s.cell, served.reply, ch.now), s.shared)
  }

  /** One call of the operator, answered by the outside as ch decides. */
  function OpStep(cfg: Config, s: State, ch: Choice): State
    requires s.cell.versions != []
  {
    match s.cell.pc
    case Idle => s
    case Returned(_) => s
    case Lookup(dep) => LookupStep(cfg, s, dep, ch)
    case LookupForDelete(dep) => LookupStep(cfg, s, dep, ch)
    case AtEdge(dep, cluster, call) => EdgeStep(cfg, s, dep, cluster, call, ch)
    case _ => HomeStep(cfg, s, ch)
  }

  // ---------------------------------------------------------------- everything else that happens

  datatype Action =
    | Begin                                        // the work queue hands the key to a worker
    | Op(ch: Choice)                               // the operator makes its next call
    | Create(spec: Spec, finalizers: seq<string>)  // a user creates the object
    | Edit(spec: Spec)                             // a user edits the spec
    | Delete                                       // a user deletes the object
    | SetFinalizers(finalizers: seq<string>)       // others edit the finalizer list
    | OtherCondition(c: Condition, now: int)       // others report a condition of another type
    | Interfere(slots: map<SlotId, Slot>, secrets: map<SecretId, Option<string>>, cache: SecretProvider.Cache)
    | Crash(memory: Memory)                        // the process restarts, perhaps with other flags

  predicate ByOperator(a: Action) {
    a.Begin? || a.Op? || a.Crash?
  }

  /** Others may change the finalizer list, but not take the operator's entry away, nor add to a deleted object. */
  predicate MaySetFinalizers(o: Deployment, fs: seq<string>) {
    && (FINALIZER in o.finalizers ==> FINALIZER in fs)
    && (o.deleting ==> forall f :: f in fs ==> f in o.finalizers)
  }

  function OutsideHome(c: Cell, a: Action): Cell
    requires c.versions != []
  {
    var h := Home(c);
    match a
    case Create(spec, fs) =>
      if h.Some? then c
      else c.(versions := c.versions + [Some(Deployment(c.nextUid, |c.versions|, 1, false, fs, spec, EMPTY_STATUS))],
              nextUid := c.nextUid + 1)
    case Edit(spec) =>
      if h.None? || h.value.spec == spec then c
      else c.(versions := Put(c.versions, h.value.(spec := spec, generation := h.value.generation + 1)))
    case Delete =>
      if h.None? || h.value.deleting then c
      else c.(versions := Put(c.versions, h.value.(deleting := true, generation := h.value.generation + 1)))
    case SetFinalizers(fs) =>
      if h.None? || !MaySetFinalizers(h.value, fs) then c
      else c.(versions := Put(c.versions, h.value.(finalizers := fs)))
    case OtherCondition(n, now) =>
      if h.None? || n.kind == READY then c
      else c.(versions := Put(c.versions,
                h.value.(status := h.value.status.(conditions := SetCondition(h.value.status.conditions, n, now)))))
    case _ => c
  }

  function Step(cfg: Config, s: State, a: Action): State
    requires s.cell.versions != []
  {
    match a
    case Begin => if Resting(s.cell.pc) then s.(cell := s.cell.(pc := GetObject, trace := [])) else s
    case Op(ch) => OpStep(cfg, s, ch)
    case Interfere(slots, secrets, cache) => s.(shared := Shared(slots, secrets, cache))
    case Crash(memory) => State(s.cell.(pc := Idle, trace := [], memory := memory), s.shared.(cache := map[]))
    case _ => s.(cell := OutsideHome(s.cell, a))
  }

  lemma StepKeepsStore(cfg: Config, s: State, a: Action)
    requires s.cell.versions != []
    ensures s.cell.versions <= Step(cfg, s, a).cell.versions
    ensures |Step(cfg, s, a).cell.versions| <= |s.cell.versions| + 1
    ensures s.cell.log <= Step(cfg, s, a).cell.log
    ensures |Step(cfg, s, a).cell.log| <= |s.cell.log| + 1
  {
  }

  /** A step of the operator appends exactly one exchange: its call, and the reply React has acted on. */
  lemma ReplyIsNoted(cfg: Config, s: State, ch: Choice)
    requires s.cell.versions != [] && !Resting(s.cell.pc)
    ensures var c' := Step(cfg, s, Op(ch)).cell;
      && c'.trace != [] && c'.memory == s.cell.memory
      && var r := c'.trace[|c'.trace| - 1].reply;
         c'.trace == s.cell.trace + [Exchange(s.cell.pc, r, ch.now)] && c'.pc == React(cfg, s.cell.memory, s.cell.pc, r, ch.now)
  {
  }

  function Run(cfg: Config, s: State, actions: seq<Action>): (r: State)
    requires s.cell.versions != []
    ensures r.cell.versions != []
    decreases |actions|
  {
    if actions == [] then s
    else
      StepKeepsStore(cfg, s, actions[0]);
      Run(cfg, Step(cfg, s, actions[0]), actions[1..])
  }

  /** Before anything has happened: no object of this key, no reconcile. The edge clusters may be in any state. */
  predicate Init(s: State) {
    && s.cell.versions == [None]
    && s.cell.seen == 0
    && s.cell.nextUid == 0
    && s.cell.pc == Idle
    && s.cell.trace == []
    && s.cell.log == []
  }

  lemma {:induction false} RunAppend(cfg: Config, s: State, a: seq<Action>, b: seq<Action>)
    requires s.cell.versions != []
    ensures Run(cfg, s, a + b) == Run(cfg, Run(cfg, s, a), b)
    decreases |a|
  {
    if a == [] {
      assert a + b == b;
    } else {
      StepKeepsStore(cfg, s, a[0]);
      assert (a + b)[1..] == a[1..] + b;
      RunAppend(cfg, Step(cfg, s, a[0]), a[1..], b);
    }
  }

  lemma RunOne(cfg: Config, s: State, a: Action)
    requires s.cell.versions != []
    ensures Run(cfg, s, [a]) == Step(cfg, s, a)
  {
    StepKeepsStore(cfg, s, a);
    assert [a][1..] == [];
  }
}
