/** What a stored Ready status is evidence of. */
module ReadySound {
  import opened Resources
  import opened Manifest
  import opened Drift
  import opened Edge
  import opened Machine
  import opened Safety

  predicate Deploys(e: Exchange) {
    e.at.AtEdge? && (e.at.call.Install? || e.at.call.Upgrade?)
  }

  predicate NoDeploy(t: seq<Exchange>) {
    forall i :: 0 <= i < |t| ==> !Deploys(t[i])
  }

  function Last(t: seq<Exchange>): Exchange
    requires t != []
  {
    t[|t| - 1]
  }

  function Front(t: seq<Exchange>): seq<Exchange>
    requires t != []
  {
    t[..|t| - 1]
  }

  /** The reconcile has read its object and deployed nothing yet. */
  predicate Began(t: seq<Exchange>) {
    t != [] && t[0].at.GetObject? && NoDeploy(t)
  }

  /** The namespace has just been seen or created. */
  predicate SawNamespace(t: seq<Exchange>, dep: Deployment, c: string) {
    && Began(t)
    && Last(t).reply == Ok
    && (Last(t).at == AtEdge(dep, c, GetNamespace) || Last(t).at == AtEdge(dep, c, CreateNamespace))
  }

  predicate SawHistory(t: seq<Exchange>, dep: Deployment, c: string) {
    && t != []
    && Last(t).at == AtEdge(dep, c, CheckHistory) && Last(t).reply == Ok
    && SawNamespace(Front(t), dep, c)
  }

  /** Then the release was found, and is not an uninstalled one. */
  predicate SawRelease(t: seq<Exchange>, dep: Deployment, c: string, rel: Release) {
    && t != []
    && Last(t).at == AtEdge(dep, c, CheckRelease) && Last(t).reply == GotRelease(rel)
    && !rel.status.Uninstalled?
    && SawHistory(Front(t), dep, c)
  }

  function ScopeOf(cfg: Config, rel: Release): seq<KObject> {
    Scope(Parse(cfg.decode, rel.manifest), cfg.key.name)
  }

  /** Then the first k in-scope objects of its manifest were looked for, in order, and none was not found. */
  predicate Scanned(t: seq<Exchange>, dep: Deployment, c: string, rel: Release, scope: seq<KObject>, k: nat) {
    if k == 0 then SawRelease(t, dep, c, rel)
    else
      && t != []
      && k <= |scope|
      && Last(t).at == AtEdge(dep, c, CheckObject(scope[k - 1..], []))
      && !Last(t).reply.NotFound?
      && Scanned(Front(t), dep, c, rel, scope, k - 1)
  }

  /** The objects of todo are what is left to look for. */
  predicate ScanFrom(t: seq<Exchange>, dep: Deployment, c: string, rel: Release, scope: seq<KObject>, todo: seq<KObject>) {
    && |todo| <= |scope|
    && todo == scope[|scope| - |todo|..]
    && Scanned(t, dep, c, rel, scope, |scope| - |todo|)
  }

  ghost predicate NothingMissing(cfg: Config, t: seq<Exchange>, dep: Deployment, c: string) {
    exists rel :: ScanFrom(t, dep, c, rel, ScopeOf(cfg, rel), [])
  }

  ghost predicate Fetched(cfg: Config, t: seq<Exchange>, dep: Deployment, c: string, manifest: string) {
    && t != []
    && Last(t).at == AtEdge(dep, c, FetchChart(Converge)) && Last(t).reply == Rendered(manifest)
    && NothingMissing(cfg, Front(t), dep, c)
  }

  ghost predicate Chosen(cfg: Config, t: seq<Exchange>, dep: Deployment, c: string, manifest: string) {
    && t != []
    && Last(t).at == AtEdge(dep, c, DeployHistory(Converge, manifest))
    && Fetched(cfg, Front(t), dep, c, manifest)
  }

  /** Then a deploy succeeded. */
  ghost predicate Converged(cfg: Config, t: seq<Exchange>, dep: Deployment, c: string) {
    && t != []
    && Last(t).reply == Ok
    && exists m ::
         && (Last(t).at == AtEdge(dep, c, Install(Converge, m)) || Last(t).at == AtEdge(dep, c, Upgrade(Converge, m)))
         && Chosen(cfg, Front(t), dep, c, m)
  }

  /** Then a successful list showed every Deployment available. This is the whole reconcile up to its status write. */
  ghost predicate ReadyTrace(cfg: Config, t: seq<Exchange>, uid: nat) {
    && t != []
    && Last(t).at.AtEdge?
    && Last(t).at.call.ListWorkloads?
    && Last(t).at.dep.uid == uid
    && Last(t).reply.Workloads?
    && (forall w :: w in Last(t).reply.items ==>
          match w.replicas case None => w.available >= 1 case Some(n) => w.available >= n)
    && Converged(cfg, Front(t), Last(t).at.dep, Last(t).at.cluster)
  }

  /** What the exchanges so far say at each call. */
  ghost predicate TraceOk(cfg: Config, pc: PC, t: seq<Exchange>) {
    match pc
    case GetObject => t == []
    case AddFinalizer(_, _) => Began(t)
    case Lookup(_) => Began(t)
    case WriteStatus(dep, _) => dep.status.phase.PhaseReady? ==> ReadyTrace(cfg, t, dep.uid)
    case AtEdge(dep, c, call) => (
      match call
      case GetNamespace => Began(t)
      case CreateNamespace => Began(t)
      case CheckHistory => SawNamespace(t, dep, c)
      case CheckRelease => SawHistory(t, dep, c)
      case CheckObject(todo, missing) =>
        todo != [] && (missing == [] ==> exists rel :: ScanFrom(t, dep, c, rel, ScopeOf(cfg, rel), todo))
      case FetchChart(goal) => goal.Converge? ==> NothingMissing(cfg, t, dep, c)
      case DeployHistory(goal, m) => goal.Converge? ==> Fetched(cfg, t, dep, c, m)
      case Install(goal, m) => goal.Converge? ==> Chosen(cfg, t, dep, c, m)
      case Upgrade(goal, m) => goal.Converge? ==> Chosen(cfg, t, dep, c, m)
      case ListWorkloads => Converged(cfg, t, dep, c)
      case _ => true)
    case _ => true
  }

  ghost predicate LogOk(cfg: Config, log: seq<Record>) {
    forall i :: 0 <= i < |log| && log[i].StoredReady? ==> ReadyTrace(cfg, log[i].trace, log[i].uid)
  }

  lemma ScanGoesOn(t: seq<Exchange>, dep: Deployment, c: string, rel: Release, scope: seq<KObject>, todo: seq<KObject>, e: Exchange)
    requires todo != [] && ScanFrom(t, dep, c, rel, scope, todo)
    requires e.at == AtEdge(dep, c, CheckObject(todo, [])) && !e.reply.NotFound?
    ensures ScanFrom(t + [e], dep, c, rel, scope, todo[1..])
  {
    var k := |scope| - |todo|;
    assert Front(t + [e]) == t && Last(t + [e]) == e;
    assert todo[1..] == scope[k + 1..];
    assert Scanned(t + [e], dep, c, rel, scope, k + 1);
  }

  lemma ScanBegins(t: seq<Exchange>, dep: Deployment, c: string, rel: Release, scope: seq<KObject>, now: int)
    requires SawHistory(t, dep, c) && !rel.status.Uninstalled?
    ensures ScanFrom(t + [Exchange(AtEdge(dep, c, CheckRelease), GotRelease(rel), now)], dep, c, rel, scope, scope)
  {
    var t' := t + [Exchange(AtEdge(dep, c, CheckRelease), GotRelease(rel), now)];
    assert Front(t') == t;
    assert SawRelease(t', dep, c, rel);
  }

  lemma ScanKeepsTrace(cfg: Config, dep: Deployment, c: string, todo: seq<KObject>, missing: seq<string>, t: seq<Exchange>)
    requires missing == [] ==> exists rel :: ScanFrom(t, dep, c, rel, ScopeOf(cfg, rel), todo)
    ensures TraceOk(cfg, AfterScan(dep, c, todo, missing), t)
  {
  }

  lemma ReleaseKeepsTrace(cfg: Config, mem: Memory, dep: Deployment, c: string, r: Reply, now: int, t: seq<Exchange>)
    requires SawHistory(t, dep, c)
    ensures TraceOk(cfg, ReactAtEdge(cfg, mem, dep, c, CheckRelease, r, now), t + [Exchange(AtEdge(dep, c, CheckRelease), r, now)])
  {
    if r.GotRelease? && !r.release.status.Uninstalled? {
      var scope := ScopeOf(cfg, r.release);
      var t' := t + [Exchange(AtEdge(dep, c, CheckRelease), r, now)];
      ScanBegins(t, dep, c, r.release, scope, now);
      ScanKeepsTrace(cfg, dep, c, scope, [], t');
      assert ReactAtEdge(cfg, mem, dep, c, CheckRelease, r, now) == AfterScan(dep, c, scope, []);
    }
  }

  lemma ObjectKeepsTrace(cfg: Config, mem: Memory, dep: Deployment, c: string, todo: seq<KObject>, missing: seq<string>,
                         r: Reply, now: int, t: seq<Exchange>)
    requires TraceOk(cfg, AtEdge(dep, c, CheckObject(todo, missing)), t)
    ensures TraceOk(cfg, ReactAtEdge(cfg, mem, dep, c, CheckObject(todo, missing), r, now),
                    t + [Exchange(AtEdge(dep, c, CheckObject(todo, missing)), r, now)])
  {
    var e := Exchange(AtEdge(dep, c, CheckObject(todo, missing)), r, now);
    var missing' := if r.NotFound? then missing + [Describe(todo[0], cfg.key.name)] else missing;
    if missing' == [] {
      var rel :| ScanFrom(t, dep, c, rel, ScopeOf(cfg, rel), todo);
      ScanGoesOn(t, dep, c, rel, ScopeOf(cfg, rel), todo, e);
    }
    ScanKeepsTrace(cfg, dep, c, todo[1..], missing', t + [e]);
  }

  lemma DeployKeepsTrace(cfg: Config, mem: Memory, dep: Deployment, c: string, call: EdgeCall, r: Reply, now: int, t: seq<Exchange>)
    requires call.FetchChart? || call.DeployHistory? || call.Install? || call.Upgrade?
    requires TraceOk(cfg, AtEdge(dep, c, call), t)
    ensures TraceOk(cfg, ReactAtEdge(cfg, mem, dep, c, call, r, now), t + [Exchange(AtEdge(dep, c, call), r, now)])
  {
    var e := Exchange(AtEdge(dep, c, call), r, now);
    assert Front(t + [e]) == t && Last(t + [e]) == e;
    if (call.Install? || call.Upgrade?) && call.goal.Converge? && r.Ok? {
      assert Chosen(cfg, Front(t + [e]), dep, c, call.manifest);
    }
  }

  lemma EdgeKeepsTrace(cfg: Config, mem: Memory, dep: Deployment, c: string, call: EdgeCall, r: Reply, now: int, t: seq<Exchange>)
    requires TraceOk(cfg, AtEdge(dep, c, call), t)
    ensures TraceOk(cfg, ReactAtEdge(cfg, mem, dep, c, call, r, now), t + [Exchange(AtEdge(dep, c, call), r, now)])
  {
    var e := Exchange(AtEdge(dep, c, call), r, now);
    match call {
      case CheckRelease => ReleaseKeepsTrace(cfg, mem, dep, c, r, now, t);
      case CheckObject(todo, missing) => ObjectKeepsTrace(cfg, mem, dep, c, todo, missing, r, now, t);
      case FetchChart(_) => DeployKeepsTrace(cfg, mem, dep, c, call, r, now, t);
      case DeployHistory(_, _) => DeployKeepsTrace(cfg, mem, dep, c, call, r, now, t);
      case Install(_, _) => DeployKeepsTrace(cfg, mem, dep, c, call, r, now, t);
      case Upgrade(_, _) => DeployKeepsTrace(cfg, mem, dep, c, call, r, now, t);
      case _ =>
        assert Front(t + [e]) == t && Last(t + [e]) == e;
    }
  }

  lemma StepKeepsTrace(cfg: Config, s: State, a: Action)
    requires s.cell.versions != []
    requires TraceOk(cfg, s.cell.pc, s.cell.trace) && LogOk(cfg, s.cell.log)
    ensures var c := Step(cfg, s, a).cell; TraceOk(cfg, c.pc, c.trace) && LogOk(cfg, c.log)
  {
    var c := s.cell;
    if a.Op? && c.pc.AtEdge? {
      var served := Serve(cfg.key.name, cfg.decode, SlotAt(s.shared, SlotId(c.pc.cluster, cfg.key.name)), c.pc.call, a.ch);
      EdgeKeepsTrace(cfg, c.memory, c.pc.dep, c.pc.cluster, c.pc.call, served.reply, a.ch.now, c.trace);
    }
  }

  lemma {:induction false} RunKeepsTrace(cfg: Config, s: State, actions: seq<Action>)
    requires s.cell.versions != []
    requires TraceOk(cfg, s.cell.pc, s.cell.trace) && LogOk(cfg, s.cell.log)
    ensures var c := Run(cfg, s, actions).cell; TraceOk(cfg, c.pc, c.trace) && LogOk(cfg, c.log)
    decreases |actions|
  {
    if actions != [] {
      StepKeepsTrace(cfg, s, actions[0]);
      StepKeepsStore(cfg, s, actions[0]);
      RunKeepsTrace(cfg, Step(cfg, s, actions[0]), actions[1..]);
    }
  }

  // ---------------------------------------------------------------- every stored Ready has a record

  /** A record of storing Ready for the incarnation, with the chart its status shows. */
  ghost predicate Recorded(log: seq<Record>, o: Deployment) {
    exists k :: 0 <= k < |log| && IsRecordOf(log[k], o)
  }

  predicate IsRecordOf(r: Record, o: Deployment) {
    r.StoredReady? && r.uid == o.uid && r.chart == o.status.lastAppliedChart
  }

  ghost predicate ReadyRecorded(c: Cell) {
    forall i :: 0 <= i < |c.versions| && c.versions[i].Some? && c.versions[i].value.status.phase.PhaseReady? ==>
      Recorded(c.log, c.versions[i].value)
  }

  predicate PendingChart(pc: PC, mem: Memory) {
    pc.WriteStatus? && pc.dep.status.phase.PhaseReady? ==> pc.dep.status.lastAppliedChart == ChartRef(mem.chart)
  }

  lemma ReactKeepsChart(cfg: Config, mem: Memory, pc: PC, r: Reply, now: int)
    requires PendingChart(pc, mem)
    ensures PendingChart(React(cfg, mem, pc, r, now), mem)
  {
  }

  lemma StepKeepsChart(cfg: Config, s: State, a: Action)
    requires s.cell.versions != [] && PendingChart(s.cell.pc, s.cell.memory)
    ensures var c := Step(cfg, s, a).cell; PendingChart(c.pc, c.memory)
  {
    hide React;
    if a.Op? && !Resting(s.cell.pc) {
      ReplyIsNoted(cfg, s, a.ch);
      var r := Last(OpStep(cfg, s, a.ch).cell.trace).reply;
      ReactKeepsChart(cfg, s.cell.memory, s.cell.pc, r, a.ch.now);
    }
  }

  /** A version stored by a step that shows Ready takes it over from the last one, or has just been recorded. */
  lemma NewVersionRecorded(cfg: Config, s: State, a: Action)
    requires Inv(s.cell) && PendingChart(s.cell.pc, s.cell.memory)
    requires var c' := Step(cfg, s, a).cell;
      |c'.versions| > |s.cell.versions| && c'.versions[|s.cell.versions|].Some?
      && c'.versions[|s.cell.versions|].value.status.phase.PhaseReady?
    ensures var c' := Step(cfg, s, a).cell;
      var o := c'.versions[|s.cell.versions|].value;
      || (c'.log != [] && IsRecordOf(c'.log[|c'.log| - 1], o))
      || (&& Home(s.cell).Some? && o.uid == Home(s.cell).value.uid && Home(s.cell).value.status.phase.PhaseReady?
          && o.status.lastAppliedChart == Home(s.cell).value.status.lastAppliedChart)
  {
  }

  lemma StepKeepsRecorded(cfg: Config, s: State, a: Action)
    requires Inv(s.cell) && PendingChart(s.cell.pc, s.cell.memory) && ReadyRecorded(s.cell)
    ensures ReadyRecorded(Step(cfg, s, a).cell)
  {
    hide Step;
    var c, c' := s.cell, Step(cfg, s, a).cell;
    StepKeepsStore(cfg, s, a);
    forall i | 0 <= i < |c'.versions| && c'.versions[i].Some? && c'.versions[i].value.status.phase.PhaseReady?
      ensures Recorded(c'.log, c'.versions[i].value)
    {
      if i == |c.versions| {
        NewVersionRecorded(cfg, s, a);
      }
      if i < |c.versions| || (c'.log == [] || !IsRecordOf(c'.log[|c'.log| - 1], c'.versions[i].value)) {
        var j := if i < |c.versions| then i else |c.versions| - 1;
        var k :| 0 <= k < |c.log| && IsRecordOf(c.log[k], c.versions[j].value);
        assert IsRecordOf(c'.log[k], c'.versions[i].value);
      }
    }
  }

  lemma {:induction false} RunKeepsRecorded(cfg: Config, s: State, actions: seq<Action>)
    requires Inv(s.cell) && PendingChart(s.cell.pc, s.cell.memory) && ReadyRecorded(s.cell)
    ensures ReadyRecorded(Run(cfg, s, actions).cell)
    decreases |actions|
  {
    if actions != [] {
      StepKeepsRecorded(cfg, s, actions[0]);
      StepKeepsChart(cfg, s, actions[0]);
      StepKeeps(cfg, s, actions[0]);
      RunKeepsRecorded(cfg, Step(cfg, s, actions[0]), actions[1..]);
    }
  }

  /** r is the record of a reconcile that earned Ready: in order, the namespace was seen or created, the release was
      found, every in-scope object of its manifest was looked for without a single NotFound, a deploy succeeded, and a
      list showed every Deployment available; it made no other deploy. */
  ghost predicate Earned(cfg: Config, r: Record) {
    r.StoredReady? && ReadyTrace(cfg, r.trace, r.uid) && exists d :: 0 <= d < |r.trace| && OnlyDeploy(r.trace, d)
  }

  /** Ready is sound: in every run, every version the store has ever held that shows Ready, under whatever chart it
      shows, was earned by a reconcile of its incarnation. */
  lemma ReadyIsSound(cfg: Config, s0: State, actions: seq<Action>, i: nat)
    requires Init(s0)
    requires var c := Run(cfg, s0, actions).cell;
      i < |c.versions| && c.versions[i].Some? && c.versions[i].value.status.phase.PhaseReady?
    ensures var c := Run(cfg, s0, actions).cell;
      exists k :: 0 <= k < |c.log| && IsRecordOf(c.log[k], c.versions[i].value) && Earned(cfg, c.log[k])
  {
    RunKeepsRecorded(cfg, s0, actions);
    var c := Run(cfg, s0, actions).cell;
    var k :| 0 <= k < |c.log| && IsRecordOf(c.log[k], c.versions[i].value);
    RecordsAreEarned(cfg, s0, actions, k);
  }

  lemma RecordsAreEarned(cfg: Config, s0: State, actions: seq<Action>, k: nat)
    requires Init(s0)
    requires k < |Run(cfg, s0, actions).cell.log| && Run(cfg, s0, actions).cell.log[k].StoredReady?
    ensures Earned(cfg, Run(cfg, s0, actions).cell.log[k])
  {
    RunKeepsTrace(cfg, s0, actions);
    var r := Run(cfg, s0, actions).cell.log[k];
    ReadyDeploysOnce(cfg, r.trace, r.uid);
  }

  /** Exchange d is a converging deploy that succeeded, and the only deploy there is. */
  predicate OnlyDeploy(t: seq<Exchange>, d: int) {
    && 0 <= d < |t|
    && Deploys(t[d]) && t[d].reply == Ok && t[d].at.call.goal.Converge?
    && forall i :: 0 <= i < |t| && i != d ==> !Deploys(t[i])
  }

  lemma NoDeployAppend(t: seq<Exchange>)
    requires t != [] && NoDeploy(Front(t)) && !Deploys(Last(t))
    ensures NoDeploy(t)
  {
    assert forall i :: 0 <= i < |t| - 1 ==> t[i] == Front(t)[i];
  }

  lemma {:induction false} ScanHasNoDeploy(t: seq<Exchange>, dep: Deployment, c: string, rel: Release, scope: seq<KObject>, k: nat)
    requires Scanned(t, dep, c, rel, scope, k)
    ensures NoDeploy(t)
    decreases k
  {
    if k > 0 {
      ScanHasNoDeploy(Front(t), dep, c, rel, scope, k - 1);
    } else {
      NoDeployAppend(Front(t));
    }
    NoDeployAppend(t);
  }

  lemma ReadyDeploysOnce(cfg: Config, t: seq<Exchange>, uid: nat)
    requires ReadyTrace(cfg, t, uid)
    ensures OnlyDeploy(t, |t| - 2)
  {
    hide Scanned, ScopeOf, NothingMissing;
    var dep, c := Last(t).at.dep, Last(t).at.cluster;
    var t1 := Front(t);
    var m :| (Last(t1).at == AtEdge(dep, c, Install(Converge, m)) || Last(t1).at == AtEdge(dep, c, Upgrade(Converge, m)))
             && Chosen(cfg, Front(t1), dep, c, m);
    ChosenHasNoDeploy(cfg, Front(t1), dep, c, m);
    assert forall i :: 0 <= i < |t| - 2 ==> t[i] == Front(t1)[i];
  }

  lemma ChosenHasNoDeploy(cfg: Config, t: seq<Exchange>, dep: Deployment, c: string, m: string)
    requires Chosen(cfg, t, dep, c, m)
    ensures NoDeploy(t)
  {
    hide Scanned, ScopeOf;
    var t2 := Front(Front(t));
    assert NothingMissing(cfg, t2, dep, c);
    var rel :| ScanFrom(t2, dep, c, rel, ScopeOf(cfg, rel), []);
    ScanHasNoDeploy(t2, dep, c, rel, ScopeOf(cfg, rel), |ScopeOf(cfg, rel)|);
    NoDeployAppend(Front(t));
    NoDeployAppend(t);
  }
}
