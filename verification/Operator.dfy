/** The reconcile as the operator's methods write it, each call going out to a world that may do anything in between.
    Every method follows the step system: its calls are the ones React makes, and its results are React's. */
module Operator {
  import opened Wrappers
  import opened Resources
  import opened Conditions
  import opened Finalizers
  import opened Manifest
  import opened Drift
  import opened Edge
  import opened Machine
  import opened Progress
  import opened Warrants
  import opened DeepCopy

  /** What others do before a call, and how the call is answered. */
  datatype Turn = Turn(before: seq<Action>, choice: Choice)

  /** The actions of a list that are not the operator's own. */
  function ByOthers(actions: seq<Action>): seq<Action> {
    if actions == [] then []
    else (if ByOperator(actions[0]) then [] else [actions[0]]) + ByOthers(actions[1..])
  }

  lemma {:induction false} OthersKeepProgram(cfg: Config, s: State, actions: seq<Action>)
    requires s.cell.versions != []
    ensures var c := Run(cfg, s, ByOthers(actions)).cell;
      c.pc == s.cell.pc && c.memory == s.cell.memory && c.trace == s.cell.trace
    decreases |actions|
  {
    if actions != [] {
      if ByOperator(actions[0]) {
        assert ByOthers(actions) == ByOthers(actions[1..]);
        OthersKeepProgram(cfg, s, actions[1..]);
      } else {
        StepKeepsStore(cfg, s, actions[0]);
        var s' := Step(cfg, s, actions[0]);
        OthersKeepProgram(cfg, s', actions[1..]);
        assert ByOthers(actions)[1..] == ByOthers(actions[1..]);
      }
    }
  }

  /** The list rcedHandleDelete builds: a loop that keeps every other entry. */
  method WithoutFinalizer(fs: seq<string>) returns (kept: seq<string>)
    ensures kept == Without(fs, FINALIZER)
  {
    kept := [];
    for i := 0 to |fs|
      invariant kept == Without(fs[..i], FINALIZER)
    {
      assert fs[..i + 1] == fs[..i] + [fs[i]];
      WithoutAppend(fs[..i], [fs[i]], FINALIZER);
      if fs[i] != FINALIZER {
        kept := kept + [fs[i]];
      }
    }
    assert fs[..|fs|] == fs;
  }

  /** The loop of rcedNamespaceWorkloadHealthy over the Deployments listed. */
  method NotAvailable(items: seq<Workload>) returns (notReady: seq<Workload>)
    ensures notReady == Unavailable(items)
  {
    notReady := [];
    for i := 0 to |items|
      invariant notReady == Unavailable(items[..i])
    {
      assert items[..i + 1] == items[..i] + [items[i]];
      UnavailableAppend(items[..i], [items[i]]);
      var desired := 1;
      if items[i].replicas.Some? {
        desired := items[i].replicas.value;
      }
      if items[i].available < desired {
        notReady := notReady + [items[i]];
      }
    }
    assert items[..|items|] == items;
  }

  class Reconciler {
    const cfg: Config
    const oracle: nat -> Turn
    var world: State
    var clock: nat  // calls made so far
    var now: int    // the time at the last reply
    ghost var origin: State
    ghost var history: seq<Action>

    /** The world is in a state that some run of the step system from the start has reached. */
    ghost predicate Valid()
      reads this
    {
      Init(origin) && world == Run(cfg, origin, history)
    }

    function PcNow(): PC
      reads this
    {
      world.cell.pc
    }

    function Mem(): Memory
      reads this
    {
      world.cell.memory
    }

    /** The run goes on: its history and the exchanges of the reconcile are only added to. */
    twostate predicate Continues()
      reads this
    {
      && Valid() && Mem() == old(Mem())
      && origin == old(origin) && old(history) <= history
      && old(world.cell.trace) <= world.cell.trace
    }

    /** The exchanges of the reconcile so far. */
    function Trace(): seq<Exchange>
      reads this
    {
      world.cell.trace
    }

    constructor (cfg: Config, oracle: nat -> Turn, start: State)
      requires Init(start)
      ensures Valid() && this.cfg == cfg && world == start && PcNow() == Idle
    {
      this.cfg := cfg;
      this.oracle := oracle;
      world := start;
      clock, now := 0, 0;
      origin := start;
      history := [];
    }

    /** The work queue hands the key to this worker. */
    method TakeFromQueue()
      requires Valid() && Resting(PcNow())
      modifies this
      ensures Valid() && PcNow() == GetObject && Mem() == old(Mem())
      ensures origin == old(origin) && history == old(history) + [Begin] && Trace() == []
    {
      RunAppend(cfg, origin, history, [Begin]);
      RunOne(cfg, world, Begin);
      StepKeepsStore(cfg, world, Begin);
      world := Step(cfg, world, Begin);
      history := history + [Begin];
    }

    /** One call: others act first, then the world answers, and the program point moves on as React says. */
    method Call(at: PC) returns (r: Reply)
      requires Valid() && PcNow() == at && !Resting(at)
      modifies this
      ensures PcNow() == React(cfg, Mem(), at, r, now)
      ensures Trace() == old(Trace()) + [Exchange(at, r, now)]
      ensures Continues()
    {
      var turn := oracle(clock);
      var others := ByOthers(turn.before);
      OthersKeepProgram(cfg, world, turn.before);
      RunAppend(cfg, origin, history, others);
      var s := Run(cfg, world, others);
      var op := Op(turn.choice);
      StepKeepsStore(cfg, s, op);
      RunAppend(cfg, origin, history + others, [op]);
      RunOne(cfg, s, op);
      world := Step(cfg, s, op);
      history := history + others + [op];
      clock, now := clock + 1, turn.choice.now;
      ReplyIsNoted(cfg, s, turn.choice);
      r := world.cell.trace[|world.cell.trace| - 1].reply;
    }

    /** reconcileCED, with the object of the informer cache it has read, if any. */
    method ReconcileCED() returns (requeue: int, failed: bool, cached: KryptonDeployment?)
      requires Valid() && Resting(PcNow())
      modifies this
      ensures Valid() && !failed
      ensures PcNow() == Returned(requeue) && Mem() == old(Mem())
      ensures origin == old(origin) && old(history) + [Begin] <= history
      ensures Shielded(cached)
      ensures var e := Trace()[|Trace()| - 1];
        requeue > 0 <==> !Final(e) && (WroteReady(e) ==> Mem().interval > 0)
      ensures Chained(cfg, Mem(), Trace()) && Warranted(cfg, Mem(), Trace()[|Trace()| - 1], Returned(requeue))
    {
      hide Warranted, Chained;
      requeue, cached := ReconcileObject();
      failed := false;
      RunKeepsRequeue(cfg, origin, history);
      StartIsTracked(cfg, origin);
      RunKeepsTracked(cfg, origin, history);
    }

    /** The cached object is what the first call of the reconcile showed; there is one iff that call showed an object. */
    predicate Shielded(cached: KryptonDeployment?)
      reads this, cached, if cached == null then {} else {cached.finalizers, cached.region.kubeconfig, cached.conditions}
    {
      && Trace() != []
      && Trace()[0].at == GetObject
      && (cached != null <==> Trace()[0].reply.Got?)
      && (cached != null ==> Trace()[0].reply.dep == cached.View())
    }

    /** A read through the manager's client: the informer holds the object, and the reader gets a deep copy of it. */
    method Read() returns (r: Reply, cached: KryptonDeployment?, dep: KryptonDeployment)
      requires Valid() && PcNow() == GetObject && Trace() == []
      modifies this
      ensures PcNow() == React(cfg, Mem(), GetObject, r, now)
      ensures Trace() == [Exchange(GetObject, r, now)]
      ensures Continues() && Shielded(cached)
      ensures fresh(dep) && (dep.conditions != null ==> fresh(dep.conditions)) && dep != cached
      ensures cached != null ==>
        fresh(cached) && dep.View() == cached.View()
        && (dep.conditions != null ==> dep.conditions != cached.conditions)
    {
      hide Run, React;
      r := Call(GetObject);
      dep := new KryptonDeployment();
      cached := null;
      if r.Got? {
        cached := new KryptonDeployment();
        cached.Load(r.dep);
        dep := cached.DeepCopyObject();
      }
    }

    method ReconcileObject() returns (requeue: int, cached: KryptonDeployment?)
      requires Valid() && Resting(PcNow())
      modifies this
      ensures Valid() && PcNow() == Returned(requeue) && Mem() == old(Mem())
      ensures origin == old(origin) && old(history) + [Begin] <= history
      ensures Shielded(cached)
    {
      hide Run, ReactAtEdge, Unready;
      TakeFromQueue();
      var got, informed, dep := Read();
      cached := informed;
      if got.NotFound? {
        return 0, cached;
      } else if !got.Got? {
        return 10 * SECOND, cached;
      }
      requeue := Proceed(dep);
    }

    /** What follows the read. */
    method Proceed(dep: KryptonDeployment) returns (requeue: int)
      requires Valid() && PcNow() == Dispatch(dep.View(), now)
      modifies this, dep, dep.conditions
      ensures PcNow() == Returned(requeue)
      ensures Continues()
    {
      hide Run, ReactAtEdge, Unready;
      if dep.account == "" {
        requeue := ReportUnready(dep, PhaseError, AccountMissing, AccountNameMissing, 30 * SECOND);
        return;
      }
      if dep.deleting {
        ghost var first, edge, last;
        requeue, first, edge, last := HandleDelete(dep);
        return;
      }
      requeue := Apply(dep);
    }

    /** What is left of reconcileCED for an object that is not being deleted. */
    method Apply(dep: KryptonDeployment) returns (requeue: int)
      requires Valid()
      requires PcNow() ==
        if FINALIZER !in Elements(dep.finalizers) then Addition(dep.View()) else Lookup(dep.View())
      modifies this, dep, dep.conditions
      ensures PcNow() == Returned(requeue)
      ensures Continues()
    {
      hide Run, ReactAtEdge, Unready;
      if FINALIZER !in Elements(dep.finalizers) {
        requeue := Protect(dep);
        if requeue > 0 {
          return;
        }
      }
      var edge := Call(Lookup(dep.View()));
      if !edge.Cluster? {
        requeue := ReportUnready(dep, PhaseError, EdgeUnavailable, EdgeNotAvailable(dep.region.name), 30 * SECOND);
        return;
      }
      requeue := EnsureNamespace(dep, edge.id);
      if requeue > 0 {
        return;
      }
      requeue := DeployAndStatus(dep, edge.id);
    }

    /** The finalizer is appended and stored; zero means go on, with the object as the server returned it. */
    method Protect(dep: KryptonDeployment) returns (requeue: int)
      requires Valid() && PcNow() == Addition(dep.View())
      modifies this, dep
      ensures requeue >= 0
      ensures PcNow() == if requeue > 0 then Returned(requeue) else Lookup(dep.View())
      ensures requeue == 0 && dep.conditions != null ==> fresh(dep.conditions)
      ensures Continues()
    {
      hide Run, ReactAtEdge;
      var read := dep.View();
      dep.SetFinalizers(Elements(dep.finalizers) + [FINALIZER]);
      var updated := Call(AddFinalizer(read, Elements(dep.finalizers)));
      if !updated.Got? {
        return 5 * SECOND;
      }
      dep.Load(updated.dep);
      return 0;
    }

    /** Status fields and Ready condition are set in place, and the status is written, errors ignored. */
    method ReportUnready(dep: KryptonDeployment, phase: Phase, reason: Reason, message: Message, delay: int)
      returns (requeue: int)
      requires phase != PhaseReady
      requires Valid() && PcNow() == WriteStatus(Unready(dep.View(), phase, reason, message, now), delay)
      modifies this, dep, dep.conditions
      ensures requeue == delay && PcNow() == Returned(requeue)
      ensures Continues()
    {
      hide Run, ReactAtEdge;
      dep.phase := phase;
      dep.lastMessage := message;
      dep.SetReadyCondition(ConditionFalse, reason, message, now);
      var ignored := Call(WriteStatus(dep.View(), delay));
      return delay;
    }

    /** rcedHandleDelete: the lookup; the clean-up if it finds the cluster, and nothing at an edge if not; then, whatever
        came of it, the removal of the finalizer, which alone decides the result. */
    method HandleDelete(dep: KryptonDeployment)
      returns (requeue: int, ghost first: Exchange, ghost edge: seq<Exchange>, ghost last: Exchange)
      requires Valid() && PcNow() == LookupForDelete(dep.View())
      modifies this, dep`finalizers
      ensures PcNow() == Returned(requeue)
      ensures Continues() && Trace() == old(Trace()) + [first] + edge + [last]
      ensures first.at == LookupForDelete(old(dep.View())) && last.at == Removal(old(dep.View()))
      ensures if first.reply.Cluster? then CleanUpCalls(old(dep.View()), first.reply.id, edge) else edge == []
      ensures requeue == if last.reply.Ok? then 0 else 5 * SECOND
    {
      hide Run, ReactAtEdge;
      var found := Call(LookupForDelete(dep.View()));
      first, edge := Trace()[|Trace()| - 1], [];
      if found.Cluster? {
        edge := CleanUp(dep, found.id);
      }
      requeue, last := Release(dep);
    }

    /** The clean-up at the edge: the namespace deletion comes last, and is made whatever the calls before it answer. */
    predicate CleanUpCalls(dep: Deployment, c: string, t: seq<Exchange>) {
      && t != []
      && UninstallCalls(dep, c, t[..|t| - 1])
      && t[|t| - 1].at == AtEdge(dep, c, DeleteNamespace)
    }

    /** An uninstall is made iff the history answers. */
    predicate UninstallCalls(dep: Deployment, c: string, t: seq<Exchange>) {
      && t != []
      && t[0].at == AtEdge(dep, c, DeleteHistory)
      && if t[0].reply.Ok? then |t| == 2 && t[1].at == AtEdge(dep, c, Uninstall) else |t| == 1
    }

    method CleanUp(dep: KryptonDeployment, c: string) returns (ghost t: seq<Exchange>)
      requires Valid() && PcNow() == AtEdge(dep.View(), c, DeleteHistory)
      modifies this
      ensures PcNow() == Removal(dep.View())
      ensures Continues() && Trace() == old(Trace()) + t
      ensures CleanUpCalls(dep.View(), c, t)
    {
      hide Run, UninstallCalls, React, ReactAtEdge;
      ghost var uninstall := UninstallHelmChart(dep, c);
      var ignored := Call(AtEdge(dep.View(), c, DeleteNamespace));
      AfterDeleteNamespace(cfg, Mem(), dep.View(), c, ignored, now);
      t := uninstall + [Trace()[|Trace()| - 1]];
      assert t[..|t| - 1] == uninstall;
    }

    /** uninstallHelmChart: nothing to do if the history errors; its own error is only logged. */
    method UninstallHelmChart(dep: KryptonDeployment, c: string) returns (ghost t: seq<Exchange>)
      requires Valid() && PcNow() == AtEdge(dep.View(), c, DeleteHistory)
      modifies this
      ensures PcNow() == AtEdge(dep.View(), c, DeleteNamespace)
      ensures Continues() && Trace() == old(Trace()) + t
      ensures UninstallCalls(dep.View(), c, t)
    {
      hide Run;
      var hist := Call(AtEdge(dep.View(), c, DeleteHistory));
      t := [Trace()[|Trace()| - 1]];
      if hist.Ok? {
        var ignored := Call(AtEdge(dep.View(), c, Uninstall));
        t := t + [Trace()[|Trace()| - 1]];
      }
    }

    /** The end of rcedHandleDelete: the list written back lacks the finalizer. */
    method Release(dep: KryptonDeployment) returns (requeue: int, ghost e: Exchange)
      requires Valid() && PcNow() == Removal(dep.View())
      modifies this, dep`finalizers
      ensures PcNow() == Returned(requeue)
      ensures Continues() && Trace() == old(Trace()) + [e]
      ensures e.at == Removal(old(dep.View())) && requeue == if e.reply.Ok? then 0 else 5 * SECOND
    {
      hide Run, ReactAtEdge;
      var read := dep.View();
      var kept := WithoutFinalizer(Elements(dep.finalizers));
      dep.SetFinalizers(kept);
      var updated := Call(RemoveFinalizer(read, Elements(dep.finalizers)));
      e := Trace()[|Trace()| - 1];
      if !updated.Ok? {
        return 5 * SECOND, e;
      }
      return 0, e;
    }

    /** rcedEnsureNamespace: zero means go on. */
    method EnsureNamespace(dep: KryptonDeployment, c: string) returns (requeue: int)
      requires Valid() && PcNow() == AtEdge(dep.View(), c, GetNamespace)
      modifies this
      ensures requeue >= 0
      ensures PcNow() == if requeue > 0 then Returned(requeue) else AtEdge(dep.View(), c, CheckHistory)
      ensures Continues()
    {
      hide Run;
      var seen := Call(AtEdge(dep.View(), c, GetNamespace));
      if seen.NotFound? {
        var created := Call(AtEdge(dep.View(), c, CreateNamespace));
        if !created.Ok? {
          return 30 * SECOND;
        }
      } else if !seen.Ok? {
        return 30 * SECOND;
      }
      return 0;
    }

    /** rcedDeployAndStatus. */
    method DeployAndStatus(dep: KryptonDeployment, c: string) returns (requeue: int)
      requires Valid() && PcNow() == AtEdge(dep.View(), c, CheckHistory)
      modifies this, dep, dep.conditions
      ensures PcNow() == Returned(requeue)
      ensures Continues()
    {
      hide Run;
      var repaired, missing, cause := CheckAndHeal(dep, c);
      if cause.Some? {
        requeue := ReportUnready(dep, PhaseError, HealthCheckFailed, HealthCheckFailing(cause.value), 30 * SECOND);
        return;
      }
      if repaired {
        requeue := ReportUnready(dep, PhasePending, RepairTriggered, Repaired(missing), 20 * SECOND);
        return;
      }
      requeue := ConvergeAndReport(dep, c);
    }

    /** The rest of rcedDeployAndStatus, when nothing had to be repaired. */
    method ConvergeAndReport(dep: KryptonDeployment, c: string) returns (requeue: int)
      requires Valid() && PcNow() == AtEdge(dep.View(), c, FetchChart(Converge))
      modifies this, dep, dep.conditions
      ensures PcNow() == Returned(requeue)
      ensures Continues()
    {
      hide Run, React, ReactAtEdge;
      var broken := DeployHelmChart(dep, c, Converge);
      if broken.Some? {
        requeue := ReportUnready(dep, PhaseError, HelmFailed, HelmDeploymentFailing(broken.value), 60 * SECOND);
        return;
      }
      var healthy, message := NamespaceWorkloadHealthy(dep, c);
      if !healthy {
        requeue := ReportUnready(dep, PhasePending, NotReady, message, 15 * SECOND);
        return;
      }
      requeue := ReportReady(dep);
    }

    method ReportReady(dep: KryptonDeployment) returns (requeue: int)
      requires Valid() && PcNow() == WriteStatus(NowReady(dep.View(), Mem().chart, now), Mem().interval)
      modifies this, dep, dep.conditions
      ensures requeue == Mem().interval && PcNow() == Returned(requeue)
      ensures Continues()
    {
      hide Run, ReactAtEdge;
      dep.phase := PhaseReady;
      dep.lastMessage := SuccessfullyDeployed(dep.region.name);
      dep.lastAppliedChart := ChartRef(Mem().chart);
      dep.SetReadyCondition(ConditionTrue, Deployed, SuccessfullyDeployed(dep.region.name), now);
      var ignored := Call(WriteStatus(dep.View(), Mem().interval));
      return Mem().interval;
    }

    /** rcedCheckAndHeal. */
    method CheckAndHeal(dep: KryptonDeployment, c: string)
      returns (repaired: bool, missing: seq<string>, cause: Option<Cause>)
      requires Valid() && PcNow() == AtEdge(dep.View(), c, CheckHistory)
      modifies this
      ensures PcNow() ==
        if cause.Some? then Unhealthy(dep.View(), cause.value, now)
        else if repaired then
          WriteStatus(Unready(dep.View(), PhasePending, RepairTriggered, Repaired(missing), now), 20 * SECOND)
        else AtEdge(dep.View(), c, FetchChart(Converge))
      ensures Continues()
    {
      hide Run, React, ReactAtEdge, Unready, Parse, Scope, AfterScan, Unhealthy;
      var hist := Call(AtEdge(dep.View(), c, CheckHistory));
      AfterCheck(cfg, Mem(), dep.View(), c, hist, now);
      if hist.NotFound? {
        repaired, missing, cause := Repair(dep, c, Reinstall);
        return;
      } else if !hist.Ok? {
        return false, [], Some(HelmInit(ErrorText(hist)));
      }
      var rel := Call(AtEdge(dep.View(), c, CheckRelease));
      AfterCheck(cfg, Mem(), dep.View(), c, rel, now);
      if !rel.GotRelease? {
        return false, [], Some(HelmGet(ErrorText(rel)));
      }
      if rel.release.status.Uninstalled? {
        repaired, missing, cause := Repair(dep, c, Reinstall);
        return;
      }
      repaired, missing, cause := CheckManifest(dep, c, rel.release.manifest);
    }

    /** The part of rcedCheckAndHeal from the manifest on. */
    method CheckManifest(dep: KryptonDeployment, c: string, manifest: string)
      returns (repaired: bool, missing: seq<string>, cause: Option<Cause>)
      requires Valid()
      requires PcNow() == AfterScan(dep.View(), c, Scope(Parse(cfg.decode, manifest), cfg.key.name), [])
      modifies this
      ensures PcNow() ==
        if cause.Some? then Unhealthy(dep.View(), cause.value, now)
        else if repaired then
          WriteStatus(Unready(dep.View(), PhasePending, RepairTriggered, Repaired(missing), now), 20 * SECOND)
        else AtEdge(dep.View(), c, FetchChart(Converge))
      ensures Continues()
    {
      hide Run, React, ReactAtEdge, Unready, Parse, Scope;
      var objs, failed := ParseManifestToObjects(cfg.decode, manifest);
      ghost var t;
      missing, t := FindMissing(dep, c, objs);
      if missing != [] {
        repaired, missing, cause := Repair(dep, c, Heal(missing));
        return;
      }
      return false, [], None;
    }

    /** A deploy made to repair, and what rcedCheckAndHeal says of it. */
    method Repair(dep: KryptonDeployment, c: string, goal: Goal)
      returns (repaired: bool, missing: seq<string>, cause: Option<Cause>)
      requires Valid() && PcNow() == AtEdge(dep.View(), c, FetchChart(goal)) && !goal.Converge?
      modifies this
      ensures repaired <==> cause.None?
      ensures PcNow() ==
        if cause.Some? then Unhealthy(dep.View(), cause.value, now)
        else WriteStatus(Unready(dep.View(), PhasePending, RepairTriggered, Repaired(missing), now), 20 * SECOND)
      ensures Continues()
    {
      hide Run, React, Unready;
      missing := MissingList(cfg, goal);
      var broken := DeployHelmChart(dep, c, goal);
      if broken.Some? {
        var cause' := if goal.Heal? then RepairUpgrade(broken.value) else RepairInstall(broken.value);
        return false, if goal.Heal? then missing else [], Some(cause');
      }
      return true, missing, None;
    }

    /** The loop over the manifest's objects: those out of scope are passed over, each of the others is looked for once,
        and those whose own read is answered NotFound are reported missing. */
    method FindMissing(dep: KryptonDeployment, c: string, objs: seq<KObject>)
      returns (missing: seq<string>, ghost t: seq<Exchange>)
      requires Valid() && PcNow() == AfterScan(dep.View(), c, Scope(objs, cfg.key.name), [])
      modifies this
      ensures PcNow() == AtEdge(dep.View(), c, FetchChart(if missing == [] then Converge else Heal(missing)))
      ensures Continues() && Trace() == old(Trace()) + t
      ensures var scope := Scope(objs, cfg.key.name);
        |t| == |scope| && ScanCalls(scope, t) && missing == Reported(cfg.key.name, scope, t)
    {
      hide Run, Scope, Reported, Describe, React, ReactAtEdge;
      missing, t := [], [];
      assert objs[0..] == objs;
      ghost var scope := Scope(objs, cfg.key.name);
      ReportedNone(cfg.key.name, scope);
      for i := 0 to |objs|
        invariant PcNow() == AfterScan(dep.View(), c, Scope(objs[i..], cfg.key.name), missing)
        invariant Continues() && Trace() == old(Trace()) + t
        invariant ScanCalls(scope, t) && Scope(objs[i..], cfg.key.name) == scope[|t|..]
        invariant missing == Reported(cfg.key.name, scope, t)
      {
        var o := objs[i];
        ScopeNext(objs, i, cfg.key.name);
        if o.namespace != "" && o.namespace != cfg.key.name {
          continue;
        }
        if !Allowed(o) {
          continue;
        }
        ghost var e;
        missing, e := LookFor(dep, c, Scope(objs[i..], cfg.key.name), missing);
        ScanMore(cfg.key.name, scope, t, e);
        t := t + [e];
      }
      assert objs[|objs|..] == [];
      ScopeNone(cfg.key.name);
    }

    /** One read of the scan. */
    method LookFor(dep: KryptonDeployment, c: string, todo: seq<KObject>, missing: seq<string>)
      returns (found: seq<string>, ghost e: Exchange)
      requires Valid() && PcNow() == AtEdge(dep.View(), c, CheckObject(todo, missing)) && todo != []
      modifies this
      ensures PcNow() == AfterScan(dep.View(), c, todo[1..], found)
      ensures Continues() && Trace() == old(Trace()) + [e]
      ensures e.at.AtEdge? && e.at.call == CheckObject(todo, missing)
      ensures found == missing + (if e.reply.NotFound? then [Describe(todo[0], cfg.key.name)] else [])
    {
      hide Run, Describe;
      var r := Call(AtEdge(dep.View(), c, CheckObject(todo, missing)));
      e := Trace()[|Trace()| - 1];
      found := missing;
      if r.NotFound? {
        found := found + [Describe(todo[0], cfg.key.name)];
      }
    }

    /** deployHelmChart: fetch the chart, look at the history, then install or upgrade. */
    method DeployHelmChart(dep: KryptonDeployment, c: string, goal: Goal) returns (broken: Option<Cause>)
      requires Valid() && PcNow() == AtEdge(dep.View(), c, FetchChart(goal))
      modifies this
      ensures PcNow() ==
        if broken.Some? then DeployFailed(dep.View(), goal, broken.value, now)
        else DeployDone(cfg, dep.View(), c, goal, now)
      ensures Continues()
    {
      hide Run, DeployFailed, DeployDone;
      var chart := Call(AtEdge(dep.View(), c, FetchChart(goal)));
      if !chart.Rendered? {
        return Some(ChartUnusable(ErrorText(chart)));
      }
      var hist := Call(AtEdge(dep.View(), c, DeployHistory(goal, chart.manifest)));
      if !hist.Ok? {
        var installed := Call(AtEdge(dep.View(), c, Install(goal, chart.manifest)));
        if !installed.Ok? {
          return Some(HelmInstall(ErrorText(installed)));
        }
      } else {
        var upgraded := Call(AtEdge(dep.View(), c, Upgrade(goal, chart.manifest)));
        if !upgraded.Ok? {
          return Some(HelmUpgrade(ErrorText(upgraded)));
        }
      }
      return None;
    }

    /** rcedNamespaceWorkloadHealthy. */
    method NamespaceWorkloadHealthy(dep: KryptonDeployment, c: string) returns (healthy: bool, message: Message)
      requires Valid() && PcNow() == AtEdge(dep.View(), c, ListWorkloads)
      modifies this
      ensures PcNow() ==
        if healthy then WriteStatus(NowReady(dep.View(), Mem().chart, now), Mem().interval)
        else WorkloadsPending(dep.View(), message, now)
      ensures Continues()
    {
      hide Run, NowReady, WorkloadsPending;
      var listed := Call(AtEdge(dep.View(), c, ListWorkloads));
      if !listed.Workloads? {
        return false, WorkloadsUnlisted(ErrorText(listed));
      }
      var notReady := NotAvailable(listed.items);
      return notReady == [], WorkloadsNotReady(notReady);
    }
  }

  lemma AfterDeleteNamespace(cfg: Config, mem: Memory, dep: Deployment, c: string, r: Reply, now: int)
    ensures React(cfg, mem, AtEdge(dep, c, DeleteNamespace), r, now) == Removal(dep)
  {
  }

  /** Where the two reads of the drift check lead. */
  lemma AfterCheck(cfg: Config, mem: Memory, dep: Deployment, c: string, r: Reply, now: int)
    ensures React(cfg, mem, AtEdge(dep, c, CheckHistory), r, now) ==
      if r.Ok? then AtEdge(dep, c, CheckRelease)
      else if r.NotFound? then AtEdge(dep, c, FetchChart(Reinstall))
      else Unhealthy(dep, HelmInit(ErrorText(r)), now)
    ensures React(cfg, mem, AtEdge(dep, c, CheckRelease), r, now) ==
      if !r.GotRelease? then Unhealthy(dep, HelmGet(ErrorText(r)), now)
      else if r.release.status.Uninstalled? then AtEdge(dep, c, FetchChart(Reinstall))
      else AfterScan(dep, c, Scope(Parse(cfg.decode, r.release.manifest), cfg.key.name), [])
  {
  }

  lemma ReportedNone(ns: string, scope: seq<KObject>)
    ensures Reported(ns, scope, []) == []
  {
  }

  lemma ScopeNone(ns: string)
    ensures Scope([], ns) == []
  {
  }

  lemma StartIsTracked(cfg: Config, s: State)
    requires Init(s)
    ensures Tracked(cfg, s.cell)
  {
  }

  lemma ScopeNext(objs: seq<KObject>, i: nat, ns: string)
    requires i < |objs|
    ensures Scope(objs[i..], ns) == (if InScope(objs[i], ns) then [objs[i]] else []) + Scope(objs[i + 1..], ns)
    ensures !InScope(objs[i], ns) ==> Scope(objs[i..], ns) == Scope(objs[i + 1..], ns)
  {
    assert objs[i..][1..] == objs[i + 1..];
  }
}
