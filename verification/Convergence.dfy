/** What undisturbed reconciles achieve: the drift check is exact, a repair takes one round, Ready at most two, and
    Ready is a fixed point. */
module Convergence {
  import opened Wrappers
  import opened Resources
  import opened Conditions
    import opened Manifest
  import opened Drift
  import opened Edge
  import opened Machine
  import opened Safety
  import opened Progress
  import opened ReadySound

  /** The rest of a reconcile with every call answered truthfully. */
  function Calmly(cfg: Config, s: State, ch: Choice): (r: State)
    requires s.cell.versions != []
    ensures r.cell.versions != [] && Resting(r.cell.pc)
    decreases Stage(s.cell.pc), Left(s.cell.pc)
  {
    if Resting(s.cell.pc) then s
    else
      StepAdvances(cfg, s, ch);
      StepKeepsStore(cfg, s, Op(ch));
      Calmly(cfg, OpStep(cfg, s, ch), ch)
  }

  /** One whole reconcile from a resting state. */
  function Reconcile(cfg: Config, s: State, ch: Choice): (r: State)
    requires s.cell.versions != [] && Resting(s.cell.pc)
    ensures r.cell.versions != [] && Resting(r.cell.pc)
  {
    Calmly(cfg, Step(cfg, s, Begin), ch)
  }

  lemma {:induction false} CalmlyKeeps(cfg: Config, s: State, ch: Choice)
    requires Inv(s.cell)
    ensures Inv(Calmly(cfg, s, ch).cell)
    decreases Stage(s.cell.pc), Left(s.cell.pc)
  {
    if !Resting(s.cell.pc) {
      StepAdvances(cfg, s, ch);
      StepKeeps(cfg, s, Op(ch));
      CalmlyKeeps(cfg, OpStep(cfg, s, ch), ch);
    }
  }

  lemma OneStep(cfg: Config, s: State, ch: Choice)
    requires s.cell.versions != [] && !Resting(s.cell.pc)
    ensures OpStep(cfg, s, ch).cell.versions != []
    ensures Calmly(cfg, s, ch) == Calmly(cfg, OpStep(cfg, s, ch), ch)
  {
    StepAdvances(cfg, s, ch);
    StepKeepsStore(cfg, s, Op(ch));
  }

  function Here(cfg: Config, cluster: string): SlotId {
    SlotId(cluster, cfg.key.name)
  }

  /** m is s further on, with the same object, memory and Secrets; sl is the edge namespace now. */
  predicate Along(cfg: Config, s: State, m: State, id: SlotId, sl: Slot) {
    && m.cell.versions == s.cell.versions
    && m.cell.memory == s.cell.memory
    && m.cell.seen == s.cell.seen
    && m.shared.secrets == s.shared.secrets
    && m.shared.cache == s.shared.cache
    && SlotAt(m.shared, id) == sl
  }

  /** s is at a call on the given cluster, holding the current object. */
  predicate At(s: State, dep: Deployment, cluster: string, call: EdgeCall) {
    s.cell.versions != [] && s.cell.pc == AtEdge(dep, cluster, call) && Home(s.cell) == Some(dep)
  }

  /** One truthful edge call. */
  lemma EdgeOnce(cfg: Config, s: State, ch: Choice, dep: Deployment, cluster: string, call: EdgeCall) returns (m: State)
    requires At(s, dep, cluster, call)
    ensures m.cell.versions == s.cell.versions
    ensures Calmly(cfg, s, ch) == Calmly(cfg, m, ch)
    ensures var served := Serve(cfg.key.name, cfg.decode, SlotAt(s.shared, Here(cfg, cluster)), call, ch);
      && m.cell.pc == ReactAtEdge(cfg, s.cell.memory, dep, cluster, call, served.reply, ch.now)
      && Along(cfg, s, m, Here(cfg, cluster), served.slot)
  {
    m := OpStep(cfg, s, ch);
    OneStep(cfg, s, ch);
  }

  function Missing(cfg: Config, sl: Slot): seq<KObject>
    requires LiveRelease(sl).Some?
  {
    Absent(ScopeOf(cfg, LiveRelease(sl).value), LiveObjects(sl))
  }

  function GoalFor(missing: seq<string>): Goal {
    if missing == [] then Converge else Heal(missing)
  }

  /** The scan loop: the objects still to look for contribute exactly the absent ones, in order. */
  lemma {:induction false} ScanLoop(cfg: Config, s: State, ch: Choice, dep: Deployment, cluster: string,
                                    todo: seq<KObject>, missing: seq<string>) returns (m: State)
    requires s.cell.versions != [] && s.cell.pc == AfterScan(dep, cluster, todo, missing) && Home(s.cell) == Some(dep)
    requires ch.fault.NoFault?
    ensures var sl := SlotAt(s.shared, Here(cfg, cluster));
      && At(m, dep, cluster, FetchChart(GoalFor(missing + DescribeAll(Absent(todo, LiveObjects(sl)), cfg.key.name))))
      && Calmly(cfg, s, ch) == Calmly(cfg, m, ch)
      && Along(cfg, s, m, Here(cfg, cluster), sl)
    decreases |todo|
  {
    hide OpStep;
    var sl := SlotAt(s.shared, Here(cfg, cluster));
    if todo == [] {
      m := s;
      assert missing + [] == missing;
    } else {
      var s1 := EdgeOnce(cfg, s, ch, dep, cluster, CheckObject(todo, missing));
      var missing' := if IdOf(todo[0]) in LiveObjects(sl) then missing else missing + [Describe(todo[0], cfg.key.name)];
      m := ScanLoop(cfg, s1, ch, dep, cluster, todo[1..], missing');
      var rest := DescribeAll(Absent(todo[1..], LiveObjects(sl)), cfg.key.name);
      if IdOf(todo[0]) !in LiveObjects(sl) {
        var abs := Absent(todo, LiveObjects(sl));
        assert abs[0] == todo[0] && abs[1..] == Absent(todo[1..], LiveObjects(sl));
        assert missing' + rest == missing + ([Describe(todo[0], cfg.key.name)] + rest);
      } else {
        assert Absent(todo, LiveObjects(sl)) == Absent(todo[1..], LiveObjects(sl));
      }
    }
  }

  /** The drift check is exact: with truthful reads of a release that is there and not uninstalled, the chart is
      fetched to heal exactly the absent in-scope objects of its manifest, in manifest order, or to converge. */
  lemma DriftCheckIsExact(cfg: Config, s: State, ch: Choice, dep: Deployment, cluster: string) returns (m: State)
    requires At(s, dep, cluster, CheckHistory) && ch.fault.NoFault?
    requires var sl := SlotAt(s.shared, Here(cfg, cluster)); LiveRelease(sl).Some? && !LiveRelease(sl).value.status.Uninstalled?
    ensures var sl := SlotAt(s.shared, Here(cfg, cluster));
      && At(m, dep, cluster, FetchChart(GoalFor(DescribeAll(Missing(cfg, sl), cfg.key.name))))
      && Calmly(cfg, s, ch) == Calmly(cfg, m, ch)
      && Along(cfg, s, m, Here(cfg, cluster), sl)
  {
    hide OpStep;
    var sl := SlotAt(s.shared, Here(cfg, cluster));
    var s1 := EdgeOnce(cfg, s, ch, dep, cluster, CheckHistory);
    var s2 := EdgeOnce(cfg, s1, ch, dep, cluster, CheckRelease);
    var scope := ScopeOf(cfg, LiveRelease(sl).value);
    m := ScanLoop(cfg, s2, ch, dep, cluster, scope, []);
    var found := DescribeAll(Missing(cfg, sl), cfg.key.name);
    assert [] + found == found;
  }

  /** A deploy with a usable chart into a usable namespace. */
  predicate Deployable(sl: Slot) {
    Installable(sl) || Upgradable(sl)
  }

  /** The call a deploy ends with: an upgrade if the release is there, an install if it is not. */
  function LastCall(sl: Slot, goal: Goal, manifest: string): EdgeCall {
    if Upgradable(sl) then Upgrade(goal, manifest) else Install(goal, manifest)
  }

  lemma HistoryServes(ns: string, decode: Decoder, sl: Slot, goal: Goal, ch: Choice)
    requires Deployable(sl) && ch.fault.NoFault?
    ensures Serve(ns, decode, sl, DeployHistory(goal, ch.rendered), ch)
            == Served(if Upgradable(sl) then Ok else NotFound, sl)
  {
  }

  lemma DeployChooses(cfg: Config, s: State, ch: Choice, dep: Deployment, cluster: string, goal: Goal) returns (m: State)
    requires At(s, dep, cluster, FetchChart(goal)) && ch.fault.NoFault?
    requires Deployable(SlotAt(s.shared, Here(cfg, cluster)))
    ensures At(m, dep, cluster, LastCall(SlotAt(s.shared, Here(cfg, cluster)), goal, ch.rendered))
    ensures Calmly(cfg, s, ch) == Calmly(cfg, m, ch)
    ensures Along(cfg, s, m, Here(cfg, cluster), SlotAt(s.shared, Here(cfg, cluster)))
  {
    hide OpStep;
    var s1 := EdgeOnce(cfg, s, ch, dep, cluster, FetchChart(goal));
    HistoryServes(cfg.key.name, cfg.decode, SlotAt(s.shared, Here(cfg, cluster)), goal, ch);
    m := EdgeOnce(cfg, s1, ch, dep, cluster, DeployHistory(goal, ch.rendered));
  }

  lemma DeployRuns(cfg: Config, s: State, ch: Choice, dep: Deployment, cluster: string, goal: Goal) returns (m: State)
    requires At(s, dep, cluster, FetchChart(goal)) && ch.fault.NoFault?
    requires Deployable(SlotAt(s.shared, Here(cfg, cluster)))
    ensures m.cell.versions == s.cell.versions
    ensures m.cell.pc == DeployDone(cfg, dep, cluster, goal, ch.now)
    ensures Calmly(cfg, s, ch) == Calmly(cfg, m, ch)
    ensures Along(cfg, s, m, Here(cfg, cluster),
                  Deploy(cfg.key.name, cfg.decode, SlotAt(s.shared, Here(cfg, cluster)), ch.rendered, ch.workloads))
  {
    hide OpStep;
    var s1 := DeployChooses(cfg, s, ch, dep, cluster, goal);
    if Upgradable(SlotAt(s.shared, Here(cfg, cluster))) {
      m := EdgeOnce(cfg, s1, ch, dep, cluster, Upgrade(goal, ch.rendered));
    } else {
      m := EdgeOnce(cfg, s1, ch, dep, cluster, Install(goal, ch.rendered));
    }
  }

  /** After a deploy, whatever it was for, a check of the stored manifest finds nothing missing. */
  lemma DeployHeals(cfg: Config, sl: Slot, manifest: string, ws: seq<Workload>)
    requires Deployable(sl)
    ensures var sl' := Deploy(cfg.key.name, cfg.decode, sl, manifest, ws);
      && LiveRelease(sl').Some? && Upgradable(sl') && Missing(cfg, sl') == []
  {
    DeployHealsAll(Parse(cfg.decode, manifest), cfg.key.name, Deploy(cfg.key.name, cfg.decode, sl, manifest, ws).objects);
  }

  /** The reconcile has ended, having stored o over the object it held. */
  predicate Ended(cfg: Config, s: State, f: State, id: SlotId, sl: Slot, o: Deployment)
    requires s.cell.versions != []
  {
    && f.cell.versions == Put(s.cell.versions, o)
    && Resting(f.cell.pc)
    && f.cell.memory == s.cell.memory
    && f.shared.secrets == s.shared.secrets
    && f.shared.cache == s.shared.cache
    && SlotAt(f.shared, id) == sl
  }

  lemma WriteEnds(cfg: Config, s: State, ch: Choice, dep: Deployment, requeue: int, id: SlotId)
    requires s.cell.versions != [] && s.cell.pc == WriteStatus(dep, requeue) && ch.fault.NoFault?
    requires Home(s.cell).Some? && Home(s.cell).value.(status := dep.status) == dep
    ensures Ended(cfg, s, Calmly(cfg, s, ch), id, SlotAt(s.shared, id), dep)
    ensures Calmly(cfg, s, ch).cell.pc == Returned(requeue)
  {
    OneStep(cfg, s, ch);
    assert Home(s.cell).value.(status := dep.status) == dep;
  }

  /** A release that is absent or incomplete makes the check ask for a repair. */
  lemma RepairChosen(cfg: Config, s: State, ch: Choice, dep: Deployment, cluster: string) returns (m: State, goal: Goal)
    requires At(s, dep, cluster, CheckHistory) && ch.fault.NoFault?
    requires var sl := SlotAt(s.shared, Here(cfg, cluster));
      Deployable(sl) && !(LiveRelease(sl).Some? && Missing(cfg, sl) == [])
    ensures !goal.Converge? && At(m, dep, cluster, FetchChart(goal))
    ensures Calmly(cfg, s, ch) == Calmly(cfg, m, ch)
    ensures Along(cfg, s, m, Here(cfg, cluster), SlotAt(s.shared, Here(cfg, cluster)))
  {
    hide OpStep;
    var sl := SlotAt(s.shared, Here(cfg, cluster));
    if LiveRelease(sl).None? {
      m := EdgeOnce(cfg, s, ch, dep, cluster, CheckHistory);
      goal := Reinstall;
    } else {
      m := DriftCheckIsExact(cfg, s, ch, dep, cluster);
      goal := GoalFor(DescribeAll(Missing(cfg, sl), cfg.key.name));
    }
  }

  predicate AllAvailable(ws: seq<Workload>) {
    forall w :: w in ws ==> Available(w)
  }

  /** What is stored after the list of Deployments, and when the next reconcile is due. */
  function Verdict(dep: Deployment, mem: Memory, ws: seq<Workload>, now: int): Deployment {
    if Unavailable(ws) == [] then NowReady(dep, mem.chart, now)
    else Unready(dep, PhasePending, NotReady, WorkloadsNotReady(Unavailable(ws)), now)
  }

  function Recheck(mem: Memory, ws: seq<Workload>): int {
    if Unavailable(ws) == [] then mem.interval else 15 * SECOND
  }

  /** The list decides how the reconcile ends. */
  lemma FromListEnds(cfg: Config, s: State, ch: Choice, dep: Deployment, cluster: string, sl: Slot)
    requires At(s, dep, cluster, ListWorkloads) && ch.fault.NoFault?
    requires sl == SlotAt(s.shared, Here(cfg, cluster)) && sl.phase.NsActive?
    ensures Ended(cfg, s, Calmly(cfg, s, ch), Here(cfg, cluster), sl, Verdict(dep, s.cell.memory, sl.workloads, ch.now))
    ensures Calmly(cfg, s, ch).cell.pc == Returned(Recheck(s.cell.memory, sl.workloads))
  {
    hide OpStep;
    var s1 := EdgeOnce(cfg, s, ch, dep, cluster, ListWorkloads);
    WriteEnds(cfg, s1, ch, Verdict(dep, s.cell.memory, sl.workloads, ch.now), Recheck(s.cell.memory, sl.workloads),
              Here(cfg, cluster));
  }

  lemma DeployShowsWorkloads(ns: string, decode: Decoder, sl: Slot, manifest: string, ws: seq<Workload>)
    ensures Deploy(ns, decode, sl, manifest, ws).workloads == ws && Deploy(ns, decode, sl, manifest, ws).phase == sl.phase
  {
  }

  /** With the release there and complete, the rest of a reconcile deploys, and the Deployments listed after that
      deploy, whether old or brought up by it, decide between Ready and NotReady. */
  lemma FromHistoryReady(cfg: Config, s: State, ch: Choice, dep: Deployment, cluster: string, sl: Slot)
    requires At(s, dep, cluster, CheckHistory) && ch.fault.NoFault?
    requires sl == SlotAt(s.shared, Here(cfg, cluster)) && Upgradable(sl) && Missing(cfg, sl) == []
    ensures Ended(cfg, s, Calmly(cfg, s, ch), Here(cfg, cluster), Deploy(cfg.key.name, cfg.decode, sl, ch.rendered, ch.workloads),
                  Verdict(dep, s.cell.memory, ch.workloads, ch.now))
    ensures Calmly(cfg, s, ch).cell.pc == Returned(Recheck(s.cell.memory, ch.workloads))
  {
    hide OpStep;
    var s1 := DriftCheckIsExact(cfg, s, ch, dep, cluster);
    var s2 := DeployRuns(cfg, s1, ch, dep, cluster, Converge);
    DeployShowsWorkloads(cfg.key.name, cfg.decode, sl, ch.rendered, ch.workloads);
    FromListEnds(cfg, s2, ch, dep, cluster, SlotAt(s2.shared, Here(cfg, cluster)));
  }

  /** Otherwise it deploys too, and stores that it repaired. */
  lemma FromHistoryRepair(cfg: Config, s: State, ch: Choice, dep: Deployment, cluster: string, sl: Slot)
      returns (message: Message)
    requires At(s, dep, cluster, CheckHistory) && ch.fault.NoFault?
    requires sl == SlotAt(s.shared, Here(cfg, cluster)) && Deployable(sl)
    requires !(LiveRelease(sl).Some? && Missing(cfg, sl) == [])
    ensures Ended(cfg, s, Calmly(cfg, s, ch), Here(cfg, cluster), Deploy(cfg.key.name, cfg.decode, sl, ch.rendered, ch.workloads),
                  Unready(dep, PhasePending, RepairTriggered, message, ch.now))
  {
    hide OpStep;
    var s1, goal := RepairChosen(cfg, s, ch, dep, cluster);
    var s2 := DeployRuns(cfg, s1, ch, dep, cluster, goal);
    message := Repaired(MissingList(cfg, goal));
    WriteEnds(cfg, s2, ch, Unready(dep, PhasePending, RepairTriggered, message, ch.now), 20 * SECOND, Here(cfg, cluster));
  }

  // ---------------------------------------------------------------- a whole reconcile

  /** The cluster the object is routed to, by cache or Secret. */
  function Target(cfg: Config, sh: Shared, dep: Deployment): Option<string> {
    SecretProvider.Answer(sh.cache, KeyOf(cfg, dep), Reach(cfg, sh, KeyOf(cfg, dep)))
  }

  /** An object to be applied, a reachable target, and a namespace there that is absent or can be deployed into. */
  predicate Applicable(cfg: Config, s: State, cluster: string)
    requires s.cell.versions != []
  {
    && Home(s.cell).Some?
    && !Home(s.cell).value.deleting
    && Home(s.cell).value.spec.account != ""
    && Target(cfg, s.shared, Home(s.cell).value) == Some(cluster)
    && var sl := SlotAt(s.shared, Here(cfg, cluster)); sl.phase.NsAbsent? || Deployable(sl)
  }

  /** The choice of a call answered truthfully, with a read of the current version. */
  predicate Truthful(s: State, ch: Choice) {
    ch.fault.NoFault? && ch.at >= |s.cell.versions| - 1
  }

  /** The object as the apply path holds it: with the finalizer. */
  function Protected(versions: seq<Option<Deployment>>, o: Deployment): seq<Option<Deployment>>
    requires versions != []
  {
    if FINALIZER in o.finalizers then versions else Put(versions, o.(finalizers := o.finalizers + [FINALIZER]))
  }

  lemma ReadsCurrent(cfg: Config, s: State, ch: Choice) returns (m: State)
    requires Inv(s.cell) && Resting(s.cell.pc) && Home(s.cell).Some? && Truthful(s, ch)
    ensures m.cell == s.cell.(pc := Dispatch(Home(s.cell).value, ch.now), seen := |s.cell.versions| - 1, trace := m.cell.trace)
    ensures m.shared == s.shared
    ensures Reconcile(cfg, s, ch) == Calmly(cfg, m, ch)
  {
    var s0 := Step(cfg, s, Begin);
    OneStep(cfg, s0, ch);
    m := OpStep(cfg, s0, ch);
  }

  lemma AddsFinalizer(cfg: Config, s: State, ch: Choice, o: Deployment) returns (m: State)
    requires s.cell.versions != [] && Home(s.cell) == Some(o) && s.cell.pc == Addition(o) && ch.fault.NoFault?
    requires !o.deleting && FINALIZER !in o.finalizers
    ensures m.cell.versions == Protected(s.cell.versions, o)
    ensures m.cell.versions != [] && Home(m.cell).Some? && m.cell.pc == Lookup(Home(m.cell).value)
    ensures m.cell.memory == s.cell.memory && m.shared == s.shared
    ensures Calmly(cfg, s, ch) == Calmly(cfg, m, ch)
  {
    OneStep(cfg, s, ch);
    m := OpStep(cfg, s, ch);
    assert Updated(o, o, o.finalizers + [FINALIZER]) == o.(finalizers := o.finalizers + [FINALIZER]);
  }

  lemma ReachesLookup(cfg: Config, s: State, ch: Choice, cluster: string) returns (m: State)
    requires Inv(s.cell) && Resting(s.cell.pc) && Applicable(cfg, s, cluster) && Truthful(s, ch)
    ensures m.cell.versions == Protected(s.cell.versions, Home(s.cell).value)
    ensures m.cell.versions != [] && Home(m.cell).Some? && m.cell.pc == Lookup(Home(m.cell).value)
    ensures m.cell.memory == s.cell.memory && m.shared == s.shared
    ensures Reconcile(cfg, s, ch) == Calmly(cfg, m, ch)
  {
    hide OpStep;
    m := ReadsCurrent(cfg, s, ch);
    if FINALIZER !in Home(s.cell).value.finalizers {
      m := AddsFinalizer(cfg, m, ch, Home(s.cell).value);
    }
  }

  /** The edge namespace a reconcile starts from, created if it was absent. */
  function Ensured(sl: Slot): Slot {
    if sl.phase.NsAbsent? then EMPTY_SLOT.(phase := NsActive) else sl
  }

  lemma ReachesNamespace(cfg: Config, s: State, ch: Choice, dep: Deployment, cluster: string) returns (m: State)
    requires s.cell.versions != [] && s.cell.pc == Lookup(dep) && Home(s.cell) == Some(dep) && ch.fault.NoFault?
    requires Target(cfg, s.shared, dep) == Some(cluster)
    ensures At(m, dep, cluster, GetNamespace) && m.cell.versions == s.cell.versions && m.cell.memory == s.cell.memory
    ensures m.shared == s.shared.(
      cache := SecretProvider.After(s.shared.cache, KeyOf(cfg, dep), Reach(cfg, s.shared, KeyOf(cfg, dep))))
    ensures Calmly(cfg, s, ch) == Calmly(cfg, m, ch)
  {
    OneStep(cfg, s, ch);
    m := OpStep(cfg, s, ch);
  }

  lemma ReachesHistory(cfg: Config, s: State, ch: Choice, dep: Deployment, cluster: string) returns (m: State)
    requires s.cell.versions != [] && s.cell.pc == Lookup(dep) && Home(s.cell) == Some(dep) && ch.fault.NoFault?
    requires Target(cfg, s.shared, dep) == Some(cluster)
    requires var sl := SlotAt(s.shared, Here(cfg, cluster)); sl.phase.NsAbsent? || Deployable(sl)
    ensures At(m, dep, cluster, CheckHistory) && m.cell.versions == s.cell.versions && m.cell.memory == s.cell.memory
    ensures m.shared.secrets == s.shared.secrets
    ensures m.shared.cache == SecretProvider.After(s.shared.cache, KeyOf(cfg, dep), Reach(cfg, s.shared, KeyOf(cfg, dep)))
    ensures Calmly(cfg, s, ch) == Calmly(cfg, m, ch)
    ensures SlotAt(m.shared, Here(cfg, cluster)) == Ensured(SlotAt(s.shared, Here(cfg, cluster)))
  {
    hide OpStep, Deployable;
    var s1 := ReachesNamespace(cfg, s, ch, dep, cluster);
    var s2 := EdgeOnce(cfg, s1, ch, dep, cluster, GetNamespace);
    if SlotAt(s.shared, Here(cfg, cluster)).phase.NsAbsent? {
      m := EdgeOnce(cfg, s2, ch, dep, cluster, CreateNamespace);
    } else {
      m := s2;
    }
  }

  /** The release is there and complete. */
  predicate Complete(cfg: Config, sl: Slot) {
    Upgradable(sl) && Missing(cfg, sl) == []
  }

  /** The object as the apply path holds it. */
  function Copy(s: State): Deployment
    requires s.cell.versions != [] && Home(s.cell).Some? && !Home(s.cell).value.deleting
  {
    var versions := Protected(s.cell.versions, Home(s.cell).value);
    versions[|versions| - 1].value
  }

  /** f is s after one undisturbed reconcile: what it leaves at the edge and in the store. */
  ghost predicate Reconciled(cfg: Config, s: State, f: State, ch: Choice, cluster: string, sl: Slot)
    requires s.cell.versions != [] && Home(s.cell).Some? && !Home(s.cell).value.deleting
  {
    var versions := Protected(s.cell.versions, Home(s.cell).value);
    && f.cell.versions != []
    && Resting(f.cell.pc)
    && SlotAt(f.shared, Here(cfg, cluster)) == Deploy(cfg.key.name, cfg.decode, sl, ch.rendered, ch.workloads)
    && f.shared.secrets == s.shared.secrets
    && f.shared.cache == SecretProvider.After(s.shared.cache, KeyOf(cfg, Copy(s)), Reach(cfg, s.shared, KeyOf(cfg, Copy(s))))
    && f.cell.memory == s.cell.memory
    && if Complete(cfg, sl)
       then f.cell.versions == Put(versions, Verdict(Copy(s), s.cell.memory, ch.workloads, ch.now))
            && f.cell.pc == Returned(Recheck(s.cell.memory, ch.workloads))
       else exists message ::
         f.cell.versions == Put(versions, Unready(Copy(s), PhasePending, RepairTriggered, message, ch.now))
  }

  lemma CopyIsProtected(s: State)
    requires s.cell.versions != [] && Home(s.cell).Some? && !Home(s.cell).value.deleting
    ensures Copy(s).spec == Home(s.cell).value.spec && !Copy(s).deleting && FINALIZER in Copy(s).finalizers
    ensures Copy(s).generation == Home(s.cell).value.generation && Copy(s).status == Home(s.cell).value.status
  {
  }

  /** The way to the check of the release history, from rest. */
  lemma ReachesCheck(cfg: Config, s: State, ch: Choice, cluster: string) returns (m: State)
    requires Inv(s.cell) && Resting(s.cell.pc) && Applicable(cfg, s, cluster) && Truthful(s, ch)
    ensures At(m, Copy(s), cluster, CheckHistory)
    ensures m.cell.versions == Protected(s.cell.versions, Home(s.cell).value) && m.cell.memory == s.cell.memory
    ensures m.shared.secrets == s.shared.secrets
    ensures m.shared.cache == SecretProvider.After(s.shared.cache, KeyOf(cfg, Copy(s)), Reach(cfg, s.shared, KeyOf(cfg, Copy(s))))
    ensures Reconcile(cfg, s, ch) == Calmly(cfg, m, ch)
    ensures SlotAt(m.shared, Here(cfg, cluster)) == Ensured(SlotAt(s.shared, Here(cfg, cluster)))
  {
    hide OpStep;
    var s1 := ReachesLookup(cfg, s, ch, cluster);
    CopyIsProtected(s);
    assert Home(s1.cell) == Some(Copy(s));
    assert KeyOf(cfg, Copy(s)) == KeyOf(cfg, Home(s.cell).value);
    m := ReachesHistory(cfg, s1, ch, Copy(s), cluster);
  }

  lemma OneReconcile(cfg: Config, s: State, ch: Choice, cluster: string)
    requires Inv(s.cell) && Resting(s.cell.pc) && Applicable(cfg, s, cluster) && Truthful(s, ch)
    ensures Reconciled(cfg, s, Reconcile(cfg, s, ch), ch, cluster, Ensured(SlotAt(s.shared, Here(cfg, cluster))))
  {
    hide OpStep;
    var m := ReachesCheck(cfg, s, ch, cluster);
    var sl := Ensured(SlotAt(s.shared, Here(cfg, cluster)));
    if Complete(cfg, sl) {
      FromHistoryReady(cfg, m, ch, Copy(s), cluster, sl);
    } else {
      var message := FromHistoryRepair(cfg, m, ch, Copy(s), cluster, sl);
    }
  }

  /** How far a deployment is from Ready: 0 when a Ready status is stored over a complete release, 1 when the release
      is complete, 2 when it has to be installed or repaired. */
  function Distance(cfg: Config, s: State, cluster: string): nat
    requires s.cell.versions != [] && Home(s.cell).Some?
  {
    if !Complete(cfg, Ensured(SlotAt(s.shared, Here(cfg, cluster)))) then 2
    else if Home(s.cell).value.status.phase.PhaseReady? then 0
    else 1
  }

  lemma StillApplicable(cfg: Config, s: State, ch: Choice, cluster: string)
    requires Inv(s.cell) && Resting(s.cell.pc) && Applicable(cfg, s, cluster) && Truthful(s, ch)
    ensures var f := Reconcile(cfg, s, ch);
      && Inv(f.cell) && Applicable(cfg, f, cluster)
      && FINALIZER in Home(f.cell).value.finalizers
      && SlotAt(f.shared, Here(cfg, cluster)).phase.NsActive?
      && Complete(cfg, SlotAt(f.shared, Here(cfg, cluster)))
  {
    hide OpStep;
    OneReconcile(cfg, s, ch, cluster);
    StepKeeps(cfg, s, Begin);
    CalmlyKeeps(cfg, Step(cfg, s, Begin), ch);
    DeployHeals(cfg, Ensured(SlotAt(s.shared, Here(cfg, cluster))), ch.rendered, ch.workloads);
    StaysApplicable(cfg, s, Reconcile(cfg, s, ch), ch, cluster, Ensured(SlotAt(s.shared, Here(cfg, cluster))));
  }

  /** Storing an object with finalizers stores it whole, under a version of its own. */
  lemma StoredWhole(versions: seq<Option<Deployment>>, o: Deployment)
    requires versions != [] && o.finalizers != []
    ensures var p := Put(versions, o);
      p != [] && p[|p| - 1].Some? && p[|p| - 1].value == o.(version := p[|p| - 1].value.version)
  {
  }

  /** The routing of an object survives a lookup of it. */
  lemma TargetStays(cfg: Config, sh: Shared, sh': Shared, dep: Deployment, dep': Deployment)
    requires sh'.secrets == sh.secrets && dep'.spec == dep.spec
    requires sh'.cache == SecretProvider.After(sh.cache, KeyOf(cfg, dep), Reach(cfg, sh, KeyOf(cfg, dep)))
    ensures Target(cfg, sh', dep') == Target(cfg, sh, dep)
  {
  }

  lemma TargetBySpec(cfg: Config, sh: Shared, dep: Deployment, dep': Deployment)
    requires dep'.spec == dep.spec
    ensures Target(cfg, sh, dep') == Target(cfg, sh, dep)
  {
  }

  /** A report changes the status alone, and its phase says which report it is. */
  lemma ReportsKeep(dep: Deployment, mem: Memory, ws: seq<Workload>, message: Message, now: int)
    ensures Verdict(dep, mem, ws, now) == dep.(status := Verdict(dep, mem, ws, now).status)
    ensures Verdict(dep, mem, ws, now).status.phase.PhaseReady? <==> AllAvailable(ws)
    ensures var o := Unready(dep, PhasePending, RepairTriggered, message, now);
      o == dep.(status := o.status) && o.status.phase.PhasePending?
  {
  }

  /** The object a reconcile has stored differs from the copy it held in status and version only, and shows Ready iff
      the release was complete and every Deployment listed after the deploy is available. */
  lemma StoredAfter(cfg: Config, s: State, f: State, ch: Choice, cluster: string, sl: Slot)
    requires s.cell.versions != [] && Home(s.cell).Some? && !Home(s.cell).value.deleting
    requires Reconciled(cfg, s, f, ch, cluster, sl)
    ensures Home(f.cell).Some?
    ensures var o := Home(f.cell).value; o == Copy(s).(status := o.status, version := o.version)
    ensures Home(f.cell).value.status.phase.PhaseReady? <==> Complete(cfg, sl) && AllAvailable(ch.workloads)
  {
    hide Verdict, Unready, Deploy, Complete;
    CopyIsProtected(s);
    var versions := Protected(s.cell.versions, Home(s.cell).value);
    if Complete(cfg, sl) {
      ReportsKeep(Copy(s), s.cell.memory, ch.workloads, NoMessage, ch.now);
      StoredWhole(versions, Verdict(Copy(s), s.cell.memory, ch.workloads, ch.now));
    } else {
      var message :| f.cell.versions == Put(versions, Unready(Copy(s), PhasePending, RepairTriggered, message, ch.now));
      ReportsKeep(Copy(s), s.cell.memory, ch.workloads, message, ch.now);
      StoredWhole(versions, Unready(Copy(s), PhasePending, RepairTriggered, message, ch.now));
    }
  }

  lemma StaysApplicable(cfg: Config, s: State, f: State, ch: Choice, cluster: string, sl: Slot)
    requires s.cell.versions != [] && Applicable(cfg, s, cluster) && Reconciled(cfg, s, f, ch, cluster, sl)
    requires Deployable(SlotAt(f.shared, Here(cfg, cluster)))
    ensures Applicable(cfg, f, cluster) && FINALIZER in Home(f.cell).value.finalizers
    ensures Home(f.cell).value.status.phase.PhaseReady? <==> Complete(cfg, sl) && AllAvailable(ch.workloads)
  {
    hide Verdict, Unready, Deploy, Complete, Target, Copy;
    CopyIsProtected(s);
    StoredAfter(cfg, s, f, ch, cluster, sl);
    TargetStays(cfg, s.shared, f.shared, Copy(s), Home(f.cell).value);
    TargetBySpec(cfg, s.shared, Copy(s), Home(s.cell).value);
  }

  /** Each undisturbed reconcile brings the deployment nearer to Ready, as far as its Deployments allow: the first
      repairs what is missing, and from then on the distance is 0 exactly when those it lists are available. */
  lemma DistanceFalls(cfg: Config, s: State, ch: Choice, cluster: string)
    requires Inv(s.cell) && Resting(s.cell.pc) && Applicable(cfg, s, cluster) && Truthful(s, ch)
    ensures var d, f := Distance(cfg, s, cluster), Reconcile(cfg, s, ch);
      Home(f.cell).Some? && Distance(cfg, f, cluster) == if d <= 1 && AllAvailable(ch.workloads) then 0 else 1
  {
    hide OpStep;
    var sl := Ensured(SlotAt(s.shared, Here(cfg, cluster)));
    StillApplicable(cfg, s, ch, cluster);
    OneReconcile(cfg, s, ch, cluster);
    StaysApplicable(cfg, s, Reconcile(cfg, s, ch), ch, cluster, sl);
  }

  /** Reconciles of one key, each with its own time, rendering and list of Deployments, and nothing in between but what
      the controllers do to those. */
  function Reconciles(cfg: Config, s: State, choices: seq<Choice>): (r: State)
    requires s.cell.versions != [] && Resting(s.cell.pc)
    ensures r.cell.versions != [] && Resting(r.cell.pc)
    decreases |choices|
  {
    if choices == [] then s else Reconciles(cfg, Reconcile(cfg, s, choices[0]), choices[1..])
  }

  ghost predicate AllTruthful(cfg: Config, s: State, choices: seq<Choice>)
    requires s.cell.versions != [] && Resting(s.cell.pc)
    decreases |choices|
  {
    choices == [] || (Truthful(s, choices[0]) && AllTruthful(cfg, Reconcile(cfg, s, choices[0]), choices[1..]))
  }

  /** Ready within two, and exactly when it should be: from any applicable state, whatever finalizer, namespace, release
      or objects are missing, after two or more undisturbed reconciles the status stored is Ready iff every Deployment
      the last one listed, after its deploy, is available. */
  lemma {:induction false} ReadyIffAvailable(cfg: Config, s: State, choices: seq<Choice>, cluster: string)
    requires Inv(s.cell) && Resting(s.cell.pc) && Applicable(cfg, s, cluster) && AllTruthful(cfg, s, choices)
    requires |choices| >= 2 || (|choices| == 1 && Complete(cfg, SlotAt(s.shared, Here(cfg, cluster))))
    ensures var f, ws := Reconciles(cfg, s, choices), choices[|choices| - 1].workloads;
      && Home(f.cell).Some?
      && (Home(f.cell).value.status.phase.PhaseReady? <==> AllAvailable(ws))
      && (AllAvailable(ws) ==> Home(f.cell).value.status.lastAppliedChart == ChartRef(s.cell.memory.chart))
      && f.cell.pc == Returned(Recheck(s.cell.memory, ws))
    decreases |choices|
  {
    hide OpStep;
    var next := Reconcile(cfg, s, choices[0]);
    StillApplicable(cfg, s, choices[0], cluster);
    if |choices| == 1 {
      StoresVerdict(cfg, s, choices[0], cluster);
      ReportsKeep(Copy(s), s.cell.memory, choices[0].workloads, NoMessage, choices[0].now);
      assert Reconciles(cfg, next, choices[1..]) == next;
    } else {
      ReadyIffAvailable(cfg, next, choices[1..], cluster);
      OneReconcile(cfg, s, choices[0], cluster);
    }
  }

  /** A reconcile of an applicable object over a complete release stores what the list of Deployments says. */
  lemma StoresVerdict(cfg: Config, s: State, ch: Choice, cluster: string)
    requires Inv(s.cell) && Resting(s.cell.pc) && Applicable(cfg, s, cluster) && Truthful(s, ch)
    requires Complete(cfg, SlotAt(s.shared, Here(cfg, cluster)))
    ensures var f := Reconcile(cfg, s, ch);
      && Home(f.cell).Some?
      && Home(f.cell).value
         == Verdict(Copy(s), s.cell.memory, ch.workloads, ch.now).(version := Home(f.cell).value.version)
      && f.cell.pc == Returned(Recheck(s.cell.memory, ch.workloads))
  {
    hide OpStep;
    OneReconcile(cfg, s, ch, cluster);
    CopyIsProtected(s);
    StoredWhole(Protected(s.cell.versions, Home(s.cell).value), Verdict(Copy(s), s.cell.memory, ch.workloads, ch.now));
  }

  /** Coming to the same verdict again, at any time, is reporting the same status. */
  lemma VerdictTwice(dep: Deployment, mem: Memory, ws: seq<Workload>, now: int, ws': seq<Workload>, later: int, version: nat)
    requires Unavailable(ws') == Unavailable(ws)
    ensures var o := Verdict(dep, mem, ws, now).(version := version); Verdict(o, mem, ws', later) == o
  {
    var ready := Condition(READY, ConditionTrue, Deployed, SuccessfullyDeployed(dep.spec.region.name), dep.generation, 0);
    SetConditionTwice(dep.status.conditions, ready, now, later);
    var pending := Condition(READY, ConditionFalse, NotReady, WorkloadsNotReady(Unavailable(ws)), dep.generation, 0);
    SetConditionTwice(dep.status.conditions, pending, now, later);
  }

  lemma DeployTwice(ns: string, decode: Decoder, sl: Slot, manifest: string, ws: seq<Workload>, ws': seq<Workload>)
    ensures var once := Deploy(ns, decode, sl, manifest, ws);
      && once.release.Some?
      && Deploy(ns, decode, once, manifest, ws')
         == once.(release := Some(once.release.value.(revision := once.release.value.revision + 1)), workloads := ws')
  {
    var once := Deploy(ns, decode, sl, manifest, ws);
    var ids := Ids(ns, decode, manifest);
    assert ids <= once.objects;
    assert once.objects - ids + ids == once.objects;
  }

  /** A reconcile over an object that already reports what it would report stores nothing. */
  lemma VerdictStoresNothing(cfg: Config, s: State, f: State, ch: Choice, cluster: string, sl: Slot)
    requires s.cell.versions != [] && Home(s.cell).Some? && !Home(s.cell).value.deleting
    requires FINALIZER in Home(s.cell).value.finalizers && Complete(cfg, sl)
    requires Verdict(Home(s.cell).value, s.cell.memory, ch.workloads, ch.now) == Home(s.cell).value
    requires Reconciled(cfg, s, f, ch, cluster, sl)
    ensures f.cell.versions == s.cell.versions
  {
    hide Verdict, Unready, Deploy;
    assert Copy(s) == Home(s.cell).value;
  }

  /** Ready is a fixed point, and so is NotReady: once a reconcile has stored either, another one with the same rendered
      chart that finds the same Deployments short of replicas, or again none, stores nothing at all, and of the
      namespace it changes the release's revision and what the controllers do. */
  lemma ReportIsFixed(cfg: Config, s: State, ch: Choice, again: Choice, cluster: string)
    requires Inv(s.cell) && Resting(s.cell.pc) && Applicable(cfg, s, cluster) && Truthful(s, ch)
    requires Complete(cfg, SlotAt(s.shared, Here(cfg, cluster)))
    requires Truthful(Reconcile(cfg, s, ch), again) && again.rendered == ch.rendered
    requires Unavailable(again.workloads) == Unavailable(ch.workloads)
    ensures var f := Reconcile(cfg, s, ch);
      var g := Reconcile(cfg, f, again);
      var sl, sl' := SlotAt(f.shared, Here(cfg, cluster)), SlotAt(g.shared, Here(cfg, cluster));
      && g.cell.versions == f.cell.versions
      && sl.release.Some?
      && sl' == sl.(release := Some(sl.release.value.(revision := sl.release.value.revision + 1)),
                    workloads := again.workloads)
  {
    hide OpStep, Deploy, Missing, Verdict, SetCondition, Reconcile;
    var f := Reconcile(cfg, s, ch);
    StillApplicable(cfg, s, ch, cluster);
    StoresVerdict(cfg, s, ch, cluster);
    OneReconcile(cfg, s, ch, cluster);
    OneReconcile(cfg, f, again, cluster);
    VerdictTwice(Copy(s), s.cell.memory, ch.workloads, ch.now, again.workloads, again.now, Home(f.cell).value.version);
    VerdictStoresNothing(cfg, f, Reconcile(cfg, f, again), again, cluster, SlotAt(f.shared, Here(cfg, cluster)));
    DeployTwice(cfg.key.name, cfg.decode, SlotAt(s.shared, Here(cfg, cluster)), ch.rendered, ch.workloads, again.workloads);
  }
}
