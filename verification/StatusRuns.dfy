/** What the operator's writes do to the stored object: status coherence and the finalizer list. */
module StatusRuns {
  import opened Wrappers
  import opened Resources
  import opened Conditions
  import opened Finalizers
  import opened Edge
  import opened Machine
  import opened Safety

  ghost predicate StoredCoherent(c: Cell) {
    forall i :: 0 <= i < |c.versions| && c.versions[i].Some? ==> Coherent(c.versions[i].value.status)
  }

  /** The time of the last reply. */
  function Noted(t: seq<Exchange>): int
    requires t != []
  {
    t[|t| - 1].now
  }

  /** A status about to be written follows, at the time of the reply that decided it, from the one in the version it is
      based on. */
  ghost predicate PendingOk(c: Cell) {
    c.pc.WriteStatus? && HoldsSpec(c, c.pc.dep) ==>
      var base := c.versions[c.pc.dep.version].value;
      && c.trace != []
      && Follows(base.status, c.pc.dep.status, base.generation, Noted(c.trace))
      && (c.pc.dep.status.phase.PhaseReady? ==> c.pc.dep.status.lastAppliedChart == ChartRef(c.memory.chart))
  }

  /** The chart of the latest Ready status stored for an incarnation; empty if there is none. */
  function LatestReady(log: seq<Record>, uid: nat): string {
    if log == [] then ""
    else
      var r := log[|log| - 1];
      if r.StoredReady? && r.uid == uid then r.chart else LatestReady(log[..|log| - 1], uid)
  }

  lemma LatestReadyAppend(log: seq<Record>, r: Record, uid: nat)
    ensures LatestReady(log + [r], uid) == if r.StoredReady? && r.uid == uid then r.chart else LatestReady(log, uid)
  {
    assert (log + [r])[..|log|] == log;
  }

  lemma {:induction false} NeverReady(log: seq<Record>, uid: nat)
    requires forall i :: 0 <= i < |log| && log[i].StoredReady? ==> log[i].uid != uid
    ensures LatestReady(log, uid) == ""
  {
    if log != [] {
      NeverReady(log[..|log| - 1], uid);
    }
  }

  ghost predicate ChartOk(c: Cell)
    requires c.versions != []
  {
    && (Home(c).Some? ==> Home(c).value.status.lastAppliedChart == LatestReady(c.log, Home(c).value.uid))
    && (forall i :: 0 <= i < |c.log| && c.log[i].StoredReady? ==> c.log[i].uid < c.nextUid)
  }

  ghost predicate StatusInv(c: Cell) {
    Inv(c) && StoredCoherent(c) && PendingOk(c) && ChartOk(c)
  }

  /** The pc the program moves to writes only statuses that follow from its copy's. */
  predicate WritesFollow(mem: Memory, pc: PC, dep: Deployment, now: int) {
    pc.WriteStatus? ==>
      && Follows(dep.status, pc.dep.status, dep.generation, now)
      && pc.dep == dep.(status := pc.dep.status)
      && (pc.dep.status.phase.PhaseReady? ==> pc.dep.status.lastAppliedChart == ChartRef(mem.chart))
  }

  lemma UnreadyFollows(mem: Memory, dep: Deployment, phase: Phase, reason: Reason, message: Message, now: int, requeue: int)
    requires Coherent(dep.status) && phase != PhaseReady
    ensures WritesFollow(mem, WriteStatus(Unready(dep, phase, reason, message, now), requeue), dep, now)
  {
    ReportFollows(dep, phase, reason, message, now);
  }

  lemma UnhealthyFollows(mem: Memory, dep: Deployment, cause: Cause, now: int)
    requires Coherent(dep.status)
    ensures WritesFollow(mem, Unhealthy(dep, cause, now), dep, now)
  {
    UnreadyFollows(mem, dep, PhaseError, HealthCheckFailed, HealthCheckFailing(cause), now, 30 * SECOND);
  }

  lemma DeployExitsFollow(cfg: Config, mem: Memory, dep: Deployment, c: string, goal: Goal, cause: Cause, now: int)
    requires Coherent(dep.status)
    ensures WritesFollow(mem, DeployFailed(dep, goal, cause, now), dep, now)
    ensures WritesFollow(mem, DeployDone(cfg, dep, c, goal, now), dep, now)
  {
    match goal {
      case Converge =>
        UnreadyFollows(mem, dep, PhaseError, HelmFailed, HelmDeploymentFailing(cause), now, 60 * SECOND);
      case Reinstall =>
        UnhealthyFollows(mem, dep, RepairInstall(cause), now);
        UnreadyFollows(mem, dep, PhasePending, RepairTriggered, Repaired(MissingList(cfg, goal)), now, 20 * SECOND);
      case Heal(_) =>
        UnhealthyFollows(mem, dep, RepairUpgrade(cause), now);
        UnreadyFollows(mem, dep, PhasePending, RepairTriggered, Repaired(MissingList(cfg, goal)), now, 20 * SECOND);
    }
  }

  lemma WorkloadExitsFollow(mem: Memory, dep: Deployment, message: Message, now: int)
    requires Coherent(dep.status)
    ensures WritesFollow(mem, WorkloadsPending(dep, message, now), dep, now)
    ensures WritesFollow(mem, WriteStatus(NowReady(dep, mem.chart, now), mem.interval), dep, now)
  {
    UnreadyFollows(mem, dep, PhasePending, NotReady, message, now, 15 * SECOND);
    ReadyFollows(dep, mem.chart, now);
  }

  /** Every status-writing exit at the edge leaves a coherent status that follows from the copy's. */
  lemma EdgeExitsFollow(cfg: Config, mem: Memory, dep: Deployment, c: string, call: EdgeCall, r: Reply, now: int)
    requires Coherent(dep.status)
    ensures WritesFollow(mem, ReactAtEdge(cfg, mem, dep, c, call, r, now), dep, now)
  {
    match call {
      case CheckHistory => UnhealthyFollows(mem, dep, HelmInit(ErrorText(r)), now);
      case CheckRelease => UnhealthyFollows(mem, dep, HelmGet(ErrorText(r)), now);
      case FetchChart(goal) => DeployExitsFollow(cfg, mem, dep, c, goal, ChartUnusable(ErrorText(r)), now);
      case Install(goal, _) => DeployExitsFollow(cfg, mem, dep, c, goal, HelmInstall(ErrorText(r)), now);
      case Upgrade(goal, _) => DeployExitsFollow(cfg, mem, dep, c, goal, HelmUpgrade(ErrorText(r)), now);
      case ListWorkloads =>
        WorkloadExitsFollow(mem, dep, WorkloadsUnlisted(ErrorText(r)), now);
        if r.Workloads? {
          WorkloadExitsFollow(mem, dep, WorkloadsNotReady(Unavailable(r.items)), now);
        }
      case _ =>
    }
  }

  lemma OtherExitsFollow(mem: Memory, dep: Deployment, now: int)
    requires Coherent(dep.status)
    ensures WritesFollow(mem, Dispatch(dep, now), dep, now)
    ensures WritesFollow(mem, WriteStatus(Unready(dep, PhaseError, EdgeUnavailable,
              EdgeNotAvailable(dep.spec.region.name), now), 30 * SECOND), dep, now)
  {
    UnreadyFollows(mem, dep, PhaseError, AccountMissing, AccountNameMissing, now, 30 * SECOND);
    UnreadyFollows(mem, dep, PhaseError, EdgeUnavailable, EdgeNotAvailable(dep.spec.region.name), now, 30 * SECOND);
  }

  // ---------------------------------------------------------------- preservation

  lemma OthersConditionKeepsReady(s: Status, n: Condition, now: int)
    requires Coherent(s) && n.kind != READY
    ensures Coherent(s.(conditions := SetCondition(s.conditions, n, now)))
  {
    SetConditionEffect(s.conditions, n, now);
  }

  lemma OutsideKeepsStored(c: Cell, a: Action)
    requires Inv(c) && StoredCoherent(c) && ChartOk(c)
    ensures var c' := OutsideHome(c, a); StoredCoherent(c') && ChartOk(c')
  {
    if a.Create? {
      NeverReady(c.log, c.nextUid);
    }
    if a.OtherCondition? && Home(c).Some? && a.c.kind != READY {
      OthersConditionKeepsReady(Home(c).value.status, a.c, a.now);
    }
  }

  lemma OutsideKeepsStatus(c: Cell, a: Action)
    requires StatusInv(c)
    ensures StatusInv(OutsideHome(c, a))
  {
    OutsideKeeps(c, a);
    OutsideKeepsStored(c, a);
    var c' := OutsideHome(c, a);
    assert c.versions <= c'.versions;
    if c.pc.WriteStatus? {
      assert HoldsSpec(c, c.pc.dep);
      assert c'.versions[c.pc.dep.version] == c.versions[c.pc.dep.version];
    }
  }

  /** The copy at every call but a status write is a stored version, so its status is coherent. */
  lemma CopyCoherent(c: Cell)
    requires Inv(c) && StoredCoherent(c)
    ensures c.pc.AddFinalizer? || c.pc.Lookup? || c.pc.AtEdge? || c.pc.LookupForDelete? || c.pc.RemoveFinalizer? ==>
      Holds(c, c.pc.dep) && Coherent(c.pc.dep.status)
  {
  }

  lemma PendingAfter(c: Cell, dep: Deployment, now: int)
    requires c.trace != [] && Noted(c.trace) == now
    requires Holds(c, dep) && (c.pc.WriteStatus? ==> WritesFollow(c.memory, c.pc, dep, now))
    ensures PendingOk(c)
  {
  }

  /** A write that keeps incarnation, chart and coherence keeps the invariant's store part. */
  lemma PutKeepsStatus(c: Cell, o: Deployment)
    requires c.versions != [] && Home(c).Some? && StoredCoherent(c) && ChartOk(c)
    requires Coherent(o.status) && o.uid == Home(c).value.uid
    requires o.status.lastAppliedChart == Home(c).value.status.lastAppliedChart
    ensures var c' := c.(versions := Put(c.versions, o)); StoredCoherent(c') && ChartOk(c')
  {
  }

  lemma UnrelatedRecord(c: Cell, r: Record)
    requires c.versions != [] && ChartOk(c) && !r.StoredReady?
    ensures ChartOk(c.(log := c.log + [r]))
  {
    if Home(c).Some? {
      LatestReadyAppend(c.log, r, Home(c).value.uid);
    }
  }

  lemma AcceptedIsCurrent(c: Cell)
    requires Inv(c)
    requires c.pc.AddFinalizer? || c.pc.RemoveFinalizer? || c.pc.WriteStatus?
    requires Accepts(c, c.pc.dep)
    ensures Home(c).value.(status := c.pc.dep.status) == c.pc.dep
  {
  }

  /** Storing a status that follows from the current one keeps store and chart in order. */
  lemma FollowingWrite(c: Cell, status: Status, now: int)
    requires c.versions != [] && Home(c).Some? && StoredCoherent(c) && ChartOk(c)
    requires Follows(Home(c).value.status, status, Home(c).value.generation, now)
    ensures StoredCoherent(c.(versions := Put(c.versions, Home(c).value.(status := status))))
    ensures !status.phase.PhaseReady? ==> ChartOk(c.(versions := Put(c.versions, Home(c).value.(status := status))))
  {
  }

  lemma ReadyWrite(c: Cell, versions: seq<Option<Deployment>>, uid: nat, chart: string, trace: seq<Exchange>)
    requires c.versions != [] && ChartOk(c) && uid < c.nextUid && versions != []
    requires versions[|versions| - 1].Some? ==>
      versions[|versions| - 1].value.uid == uid && versions[|versions| - 1].value.status.lastAppliedChart == chart
    ensures ChartOk(c.(versions := versions, log := c.log + [StoredReady(uid, chart, trace)]))
  {
    LatestReadyAppend(c.log, StoredReady(uid, chart, trace), uid);
  }

  /** What a status write that is taken stores and records. */
  lemma WriteServes(c: Cell, ch: Choice)
    requires c.versions != [] && c.pc.WriteStatus?
    ensures var c', dep := ServeHome(c, ch).cell, c.pc.dep;
      c' != c ==>
        && Accepts(c, dep)
        && c' == c.(versions := Put(c.versions, Home(c).value.(status := dep.status)),
                    log := c.log + (if dep.status.phase.PhaseReady?
                                    then [StoredReady(dep.uid, ChartRef(c.memory.chart), c.trace)] else []))
  {
  }

  /** A status write that is accepted follows from the status it replaces. */
  lemma AcceptedFollows(c: Cell)
    requires StatusInv(c) && c.pc.WriteStatus? && Accepts(c, c.pc.dep)
    ensures c.trace != [] && Follows(Home(c).value.status, c.pc.dep.status, Home(c).value.generation, Noted(c.trace))
    ensures c.pc.dep.uid == Home(c).value.uid < c.nextUid
    ensures c.pc.dep.status.phase.PhaseReady? ==> c.pc.dep.status.lastAppliedChart == ChartRef(c.memory.chart)
  {
    hide Follows, Coherent, LatestReady;
    AcceptedIsCurrent(c);
    assert HoldsSpec(c, c.pc.dep);
  }

  lemma WriteKeepsStatus(c: Cell, ch: Choice)
    requires StatusInv(c) && c.pc.WriteStatus?
    ensures var c' := ServeHome(c, ch).cell; StoredCoherent(c') && ChartOk(c')
  {
    hide ServeHome, LatestReady, Coherent, ChartRef, Follows, CopyOk;
    var c' := ServeHome(c, ch).cell;
    var dep := c.pc.dep;
    WriteServes(c, ch);
    if c' != c {
      AcceptedFollows(c);
      FollowingWrite(c, dep.status, Noted(c.trace));
      if dep.status.phase.PhaseReady? {
        ReadyWrite(c, c'.versions, dep.uid, ChartRef(c.memory.chart), c.trace);
      } else {
        assert c.log + [] == c.log;
        assert c' == c.(versions := c'.versions);
      }
    }
  }

  lemma RemovalKeepsStatus(c: Cell, ch: Choice)
    requires StatusInv(c) && c.pc.RemoveFinalizer?
    ensures var c' := ServeHome(c, ch).cell; StoredCoherent(c') && ChartOk(c')
  {
    var c' := ServeHome(c, ch).cell;
    var dep := c.pc.dep;
    if c' != c {
      PutKeepsStatus(c, Updated(Home(c).value, dep, Without(dep.finalizers, FINALIZER)));
      UnrelatedRecord(c.(versions := c'.versions), Removed(dep.uid));
      assert c' == c.(versions := c'.versions).(log := c.log + [Removed(dep.uid)]);
    }
  }

  lemma AdditionKeepsStatus(c: Cell, ch: Choice)
    requires StatusInv(c) && c.pc.AddFinalizer?
    ensures var c' := ServeHome(c, ch).cell; StoredCoherent(c') && ChartOk(c')
  {
    var c' := ServeHome(c, ch).cell;
    if c' != c {
      PutKeepsStatus(c, Updated(Home(c).value, c.pc.dep, c.pc.dep.finalizers + [FINALIZER]));
    }
  }

  lemma HomeKeepsStored(c: Cell, ch: Choice)
    requires StatusInv(c)
    ensures var c' := ServeHome(c, ch).cell; StoredCoherent(c') && ChartOk(c')
  {
    match c.pc {
      case AddFinalizer(_, _) => AdditionKeepsStatus(c, ch);
      case RemoveFinalizer(_, _) => RemovalKeepsStatus(c, ch);
      case WriteStatus(_, _) => WriteKeepsStatus(c, ch);
      case _ =>
    }
  }

  lemma HomeKeepsStatus(cfg: Config, s: State, ch: Choice)
    requires StatusInv(s.cell)
    requires s.cell.pc.GetObject? || s.cell.pc.AddFinalizer? || s.cell.pc.RemoveFinalizer? || s.cell.pc.WriteStatus?
    requires Inv(HomeStep(cfg, s, ch).cell)
    ensures StatusInv(HomeStep(cfg, s, ch).cell)
  {
    hide Coherent, Follows, LatestReady, Put, Updated;
    var c := s.cell;
    var served := ServeHome(c, ch);
    var c' := HomeStep(cfg, s, ch).cell;
    HomeKeepsStored(c, ch);
    if c.pc.GetObject? && served.reply.Got? {
      OtherExitsFollow(c.memory, served.reply.dep, ch.now);
      PendingAfter(c', served.reply.dep, ch.now);
    }
  }

  lemma EdgeKeepsStatus(cfg: Config, s: State, ch: Choice)
    requires StatusInv(s.cell) && s.cell.pc.AtEdge?
    ensures var c' := Step(cfg, s, Op(ch)).cell; StoredCoherent(c') && PendingOk(c') && ChartOk(c')
  {
    var c := s.cell;
    CopyCoherent(c);
    var c' := EdgeStep(cfg, s, c.pc.dep, c.pc.cluster, c.pc.call, ch).cell;
    var served := Serve(cfg.key.name, cfg.decode, SlotAt(s.shared, SlotId(c.pc.cluster, cfg.key.name)), c.pc.call, ch);
    EdgeExitsFollow(cfg, c.memory, c.pc.dep, c.pc.cluster, c.pc.call, served.reply, ch.now);
    PendingAfter(c', c.pc.dep, ch.now);
    UnrelatedRecord(c, Effect(c.pc.dep.uid, c.pc.dep.version, c.pc.cluster));
  }

  lemma LookupKeepsStatus(cfg: Config, s: State, ch: Choice)
    requires StatusInv(s.cell) && (s.cell.pc.Lookup? || s.cell.pc.LookupForDelete?)
    ensures var c' := Step(cfg, s, Op(ch)).cell; StoredCoherent(c') && PendingOk(c') && ChartOk(c')
  {
    var c := s.cell;
    CopyCoherent(c);
    OtherExitsFollow(c.memory, c.pc.dep, ch.now);
    PendingAfter(LookupStep(cfg, s, c.pc.dep, ch).cell, c.pc.dep, ch.now);
  }

  lemma StepKeepsStatus(cfg: Config, s: State, a: Action)
    requires StatusInv(s.cell)
    ensures StatusInv(Step(cfg, s, a).cell)
  {
    StepKeeps(cfg, s, a);
    var c := s.cell;
    match a {
      case Begin =>
      case Crash(_) =>
      case Interfere(_, _, _) =>
      case Op(ch) =>
        if c.pc.AtEdge? {
          EdgeKeepsStatus(cfg, s, ch);
        } else if c.pc.Lookup? || c.pc.LookupForDelete? {
          LookupKeepsStatus(cfg, s, ch);
        } else if !Resting(c.pc) {
          HomeKeepsStatus(cfg, s, ch);
        }
      case _ =>
        OutsideKeepsStatus(c, a);
    }
  }

  lemma {:induction false} RunKeepsStatus(cfg: Config, s: State, actions: seq<Action>)
    requires StatusInv(s.cell)
    ensures StatusInv(Run(cfg, s, actions).cell)
    decreases |actions|
  {
    if actions != [] {
      StepKeepsStatus(cfg, s, actions[0]);
      RunKeepsStatus(cfg, Step(cfg, s, actions[0]), actions[1..]);
    }
  }

  // ---------------------------------------------------------------- theorems

  /** Status coherence over all runs: every stored status is coherent, and the recorded chart is that of the latest
      Ready status stored for the incarnation, across restarts that change the chart. */
  lemma StatusIsCoherent(cfg: Config, s0: State, actions: seq<Action>)
    requires Init(s0)
    ensures var c := Run(cfg, s0, actions).cell;
      && (forall i :: 0 <= i < |c.versions| && c.versions[i].Some? ==> Coherent(c.versions[i].value.status))
      && (Home(c).Some? ==> Home(c).value.status.lastAppliedChart == LatestReady(c.log, Home(c).value.uid))
  {
    RunKeepsStatus(cfg, s0, actions);
  }

  /** A status write in any run changes the status alone, and that as Follows says: one Ready condition, stamped with
      the generation of the object it is stored in, other conditions untouched, transition time moved iff it flips, to
      the time of the reply that decided the status. */
  lemma StatusWritesFollow(cfg: Config, s0: State, actions: seq<Action>, ch: Choice)
    requires Init(s0)
    requires var s := Run(cfg, s0, actions); s.cell.pc.WriteStatus? && OpStep(cfg, s, ch).cell.versions != s.cell.versions
    ensures var s := Run(cfg, s0, actions); var c' := OpStep(cfg, s, ch).cell;
      && Home(s.cell).Some? && Home(c').Some?
      && var o, o' := Home(s.cell).value, Home(c').value;
         && o' == o.(status := o'.status, version := o'.version)
         && o'.status == s.cell.pc.dep.status
         && s.cell.trace != []
         && Follows(o.status, o'.status, o.generation, Noted(s.cell.trace))
  {
    RunKeepsStatus(cfg, s0, actions);
    DeletingKeepsEntries(cfg, s0, actions);
    TakenWrite(cfg, Run(cfg, s0, actions), ch);
  }

  lemma TakenWrite(cfg: Config, s: State, ch: Choice)
    requires StatusInv(s.cell) && NoneLeftOver(s.cell) && s.cell.pc.WriteStatus?
    requires OpStep(cfg, s, ch).cell.versions != s.cell.versions
    ensures var c' := OpStep(cfg, s, ch).cell;
      && Home(s.cell).Some? && Home(c').Some?
      && var o, o' := Home(s.cell).value, Home(c').value;
         && o' == o.(status := o'.status, version := o'.version)
         && o'.status == s.cell.pc.dep.status
         && s.cell.trace != []
         && Follows(o.status, o'.status, o.generation, Noted(s.cell.trace))
  {
    hide ServeHome, LatestReady, Coherent, Follows;
    WriteServes(s.cell, ch);
    AcceptedIsCurrent(s.cell);
  }

  /** An object being deleted that is still stored has finalizers left. */
  ghost predicate NoneLeftOver(c: Cell) {
    forall i :: 0 <= i < |c.versions| && c.versions[i].Some? && c.versions[i].value.deleting ==>
      c.versions[i].value.finalizers != []
  }

  lemma {:induction false} DeletingKeepsEntriesFrom(cfg: Config, s: State, actions: seq<Action>)
    requires s.cell.versions != [] && NoneLeftOver(s.cell)
    ensures NoneLeftOver(Run(cfg, s, actions).cell)
    decreases |actions|
  {
    if actions != [] {
      StepKeepsStore(cfg, s, actions[0]);
      DeletingKeepsEntriesFrom(cfg, Step(cfg, s, actions[0]), actions[1..]);
    }
  }

  lemma DeletingKeepsEntries(cfg: Config, s0: State, actions: seq<Action>)
    requires Init(s0)
    ensures NoneLeftOver(Run(cfg, s0, actions).cell)
  {
    DeletingKeepsEntriesFrom(cfg, s0, actions);
  }

  /** What an operator write may do to a finalizer list: nothing to others' entries, and at most one of its own. */
  predicate KeepsForeign(was: seq<string>, is': seq<string>) {
    && Foreign(is') == Foreign(was)
    && (Copies(is', FINALIZER) == Copies(was, FINALIZER)
        || Copies(is', FINALIZER) == 0
        || (Copies(was, FINALIZER) == 0 && Copies(is', FINALIZER) == 1))
  }

  lemma WithoutTwice(fs: seq<string>, f: string)
    ensures Without(Without(fs, f), f) == Without(fs, f)
  {
  }

  lemma StoredFinalizers(versions: seq<Option<Deployment>>, o: Deployment, o': Deployment)
    requires versions != [] && versions[|versions| - 1] == Some(o)
    requires o'.uid == o.uid && o'.spec == o.spec && o'.deleting == o.deleting && KeepsForeign(o.finalizers, o'.finalizers)
    ensures WriteConserves(o, Put(versions, o'))
  {
  }

  /** The store after an operator write keeps the incarnation, its spec and the others' finalizers; the object goes
      only when it is being deleted and nothing of the others' is left. */
  predicate WriteConserves(o: Deployment, versions: seq<Option<Deployment>>)
    requires versions != []
  {
    match versions[|versions| - 1]
    case None => Foreign(o.finalizers) == [] && o.deleting
    case Some(o') =>
      o'.uid == o.uid && o'.spec == o.spec && o'.deleting == o.deleting && KeepsForeign(o.finalizers, o'.finalizers)
  }

  lemma AdditionConserves(c: Cell, ch: Choice)
    requires Inv(c) && Home(c).Some? && c.pc.AddFinalizer?
    ensures WriteConserves(Home(c).value, ServeHome(c, ch).cell.versions)
  {
    var o := Home(c).value;
    StoredFinalizers(c.versions, o, o);
    if Accepts(c, c.pc.dep) {
      AcceptedIsCurrent(c);
      AddThenRemove(o.finalizers);
      StoredFinalizers(c.versions, o, Updated(o, c.pc.dep, o.finalizers + [FINALIZER]));
    }
  }

  lemma RemovalConserves(c: Cell, ch: Choice)
    requires Inv(c) && Home(c).Some? && c.pc.RemoveFinalizer?
    ensures WriteConserves(Home(c).value, ServeHome(c, ch).cell.versions)
  {
    var o := Home(c).value;
    StoredFinalizers(c.versions, o, o);
    if Accepts(c, c.pc.dep) {
      AcceptedIsCurrent(c);
      WithoutTwice(o.finalizers, FINALIZER);
      StoredFinalizers(c.versions, o, Updated(o, c.pc.dep, Without(o.finalizers, FINALIZER)));
    }
  }

  lemma StatusConserves(c: Cell, ch: Choice)
    requires Inv(c) && Home(c).Some? && c.pc.WriteStatus?
    ensures WriteConserves(Home(c).value, ServeHome(c, ch).cell.versions)
  {
    var o := Home(c).value;
    StoredFinalizers(c.versions, o, o);
    StoredFinalizers(c.versions, o, o.(status := c.pc.dep.status));
  }

  /** Foreign finalizers are conserved: no step of the operator, in any reachable state, changes the others' entries,
      their order or multiplicity, or adds a second entry of its own. */
  lemma OperatorKeepsForeign(cfg: Config, s: State, a: Action)
    requires Inv(s.cell) && ByOperator(a) && Home(s.cell).Some?
    ensures Step(cfg, s, a).cell.versions != [] && WriteConserves(Home(s.cell).value, Step(cfg, s, a).cell.versions)
  {
    var c := s.cell;
    if a.Op? && c.pc.AddFinalizer? {
      AdditionConserves(c, a.ch);
    } else if a.Op? && c.pc.RemoveFinalizer? {
      RemovalConserves(c, a.ch);
    } else if a.Op? && c.pc.WriteStatus? {
      StatusConserves(c, a.ch);
    } else {
      assert Step(cfg, s, a).cell.versions == c.versions;
      StoredFinalizers(c.versions, Home(c).value, Home(c).value);
    }
  }
}
