/** Why a reconcile does what it does next: every call, every status written and every delay traced back to the reply
    just before it, for all runs. */
module Warrants {
  import opened Wrappers
  import opened Resources
  import opened Conditions
  import opened Finalizers
  import opened Manifest
  import opened Drift
  import opened Selections
  import opened Edge
  import opened Machine

  // ---------------------------------------------------------------- what a reply obliges the reconcile to report

  /** The words of an exit, and its delay; the delay of a Ready one is the check interval. */
  datatype Notice = Notice(phase: Phase, status: ConditionStatus, reason: Reason, message: Message, delay: int)

  function Failure(reason: Reason, message: Message, delay: int): Option<Notice> {
    Some(Notice(PhaseError, ConditionFalse, reason, message, delay))
  }

  function Pending(reason: Reason, message: Message, delay: int): Option<Notice> {
    Some(Notice(PhasePending, ConditionFalse, reason, message, delay))
  }

  /** A deploy for this goal has failed. */
  function FailedDeploy(goal: Goal, cause: Cause): Option<Notice> {
    match goal
    case Converge => Failure(HelmFailed, HelmDeploymentFailing(cause), 60 * SECOND)
    case Reinstall => Failure(HealthCheckFailed, HealthCheckFailing(RepairInstall(cause)), 30 * SECOND)
    case Heal(_) => Failure(HealthCheckFailed, HealthCheckFailing(RepairUpgrade(cause)), 30 * SECOND)
  }

  /** A deploy for this goal has succeeded. */
  function DoneDeploy(cfg: Config, goal: Goal): Option<Notice> {
    match goal
    case Converge => None
    case Reinstall => Pending(RepairTriggered, Repaired(["release:ced-" + cfg.key.name]), 20 * SECOND)
    case Heal(missing) => Pending(RepairTriggered, Repaired(missing), 20 * SECOND)
  }

  /** What a failing call said, for the status to pass on. */
  function Cited(r: Reply): string {
    match r
    case Failed(text) => text
    case _ => ""
  }

  /** The notice due after an exchange, if any. */
  function Due(cfg: Config, e: Exchange): Option<Notice> {
    var r := e.reply;
    match e.at
    case GetObject =>
      if r.Got? && r.dep.spec.account == "" then Failure(AccountMissing, AccountNameMissing, 30 * SECOND) else None
    case Lookup(dep) =>
      if r.Cluster? then None else Failure(EdgeUnavailable, EdgeNotAvailable(dep.spec.region.name), 30 * SECOND)
    case AtEdge(_, _, call) => (
      match call
      case CheckHistory =>
        if r.Ok? || r.NotFound? then None
        else Failure(HealthCheckFailed, HealthCheckFailing(HelmInit(Cited(r))), 30 * SECOND)
      case CheckRelease =>
        if r.GotRelease? then None
        else Failure(HealthCheckFailed, HealthCheckFailing(HelmGet(Cited(r))), 30 * SECOND)
      case FetchChart(goal) =>
        if r.Rendered? then None else FailedDeploy(goal, ChartUnusable(Cited(r)))
      case Install(goal, _) =>
        if r.Ok? then DoneDeploy(cfg, goal) else FailedDeploy(goal, HelmInstall(Cited(r)))
      case Upgrade(goal, _) =>
        if r.Ok? then DoneDeploy(cfg, goal) else FailedDeploy(goal, HelmUpgrade(Cited(r)))
      case ListWorkloads =>
        if !r.Workloads? then Pending(NotReady, WorkloadsUnlisted(Cited(r)), 15 * SECOND)
        else if Unavailable(r.items) != [] then Pending(NotReady, WorkloadsNotReady(Unavailable(r.items)), 15 * SECOND)
        else Some(Notice(PhaseReady, ConditionTrue, Deployed, SuccessfullyDeployed(e.at.dep.spec.region.name), 0))
      case _ => None)
    case _ => None
  }

  /** is' is the object was with the notice's words in its status, reported at a time: phase, message, the one Ready
      condition, and for a Ready notice the chart; everything else as it was. */
  predicate Shows(was: Deployment, is': Deployment, n: Notice, mem: Memory, now: int) {
    var before, after := OfKind(was.status.conditions, READY), OfKind(is'.status.conditions, READY);
    && is' == was.(status := is'.status)
    && is'.status.phase == n.phase
    && is'.status.lastMessage == n.message
    && |after| == (if before == [] then 1 else |before|)
    && after[0].status == n.status
    && after[0].reason == n.reason
    && after[0].message == n.message
    && after[0].observedGeneration == was.generation
    && after[0].lastTransition == (if before != [] && before[0].status == n.status then before[0].lastTransition else now)
    && after[1..] == (if before == [] then [] else before[1..])
    && Others(is'.status.conditions, READY) == Others(was.status.conditions, READY)
    && is'.status.lastAppliedChart ==
         if n.phase.PhaseReady? then mem.chart.repo + "/" + mem.chart.name + ":" + mem.chart.version
         else was.status.lastAppliedChart
  }

  // ---------------------------------------------------------------- what warrants the next call

  /** The copy an exchange leaves in the reconcile's hands. */
  predicate Holding(e: Exchange, dep: Deployment) {
    match e.at
    case GetObject => e.reply == Got(dep)
    case AddFinalizer(_, _) => e.reply == Got(dep)
    case Lookup(d) => d == dep
    case AtEdge(d, _, _) => d == dep
    case LookupForDelete(d) => d == dep
    case _ => false
  }

  /** What was missing so far, and what this read adds: its object's description if it was not found, and nothing
      whatever else it was answered. */
  function Noticed(cfg: Config, todo: seq<KObject>, missing: seq<string>, r: Reply): seq<string>
    requires todo != []
  {
    if r == NotFound then missing + [Describe(todo[0], cfg.key.name)] else missing
  }

  /** The scan stands before todo, with these found missing. */
  predicate ScanAt(cfg: Config, e: Exchange, todo: seq<KObject>, missing: seq<string>) {
    && e.at.AtEdge?
    && match e.at.call
       case CheckRelease =>
         && e.reply.GotRelease? && !e.reply.release.status.Uninstalled?
         && todo == Scope(Parse(cfg.decode, e.reply.release.manifest), cfg.key.name) && missing == []
       case CheckObject(before, already) =>
         before != [] && todo == before[1..] && missing == Noticed(cfg, before, already, e.reply)
       case _ => false
  }

  /** The reply of e warrants this call next, on the same cluster. */
  predicate EdgeWarranted(cfg: Config, e: Exchange, call: EdgeCall) {
    && e.at.AtEdge?
    && var was, r := e.at.call, e.reply;
       match call
       case CreateNamespace => was.GetNamespace? && r.NotFound?
       case CheckHistory => (was.GetNamespace? || was.CreateNamespace?) && r.Ok?
       case CheckRelease => was.CheckHistory? && r.Ok?
       case CheckObject(todo, missing) => todo != [] && ScanAt(cfg, e, todo, missing)
       case FetchChart(goal) => (
         match goal
         case Converge => ScanAt(cfg, e, [], [])
         case Reinstall =>
           || (was.CheckHistory? && r.NotFound?)
           || (was.CheckRelease? && r.GotRelease? && r.release.status.Uninstalled?)
         case Heal(missing) => missing != [] && ScanAt(cfg, e, [], missing))
       case DeployHistory(goal, manifest) => was == FetchChart(goal) && r == Rendered(manifest)
       case Install(goal, manifest) => was == DeployHistory(goal, manifest) && !r.Ok?
       case Upgrade(goal, manifest) => was == DeployHistory(goal, manifest) && r.Ok?
       case ListWorkloads => ((was.Install? && was.goal.Converge?) || (was.Upgrade? && was.goal.Converge?)) && r.Ok?
       case Uninstall => was.DeleteHistory? && r.Ok?
       case DeleteNamespace => (was.DeleteHistory? && !r.Ok?) || was.Uninstall?
       case _ => false
  }

  /** e ends the reconcile without a status write, after this delay. */
  predicate EndsQuietly(e: Exchange, delay: int) {
    || (e.at.GetObject? && e.reply.NotFound? && delay == 0)
    || (e.at.GetObject? && !e.reply.Got? && !e.reply.NotFound? && delay == 10 * SECOND)
    || (e.at.AddFinalizer? && !e.reply.Got? && delay == 5 * SECOND)
    || (e.at.RemoveFinalizer? && e.reply.Ok? && delay == 0)
    || (e.at.RemoveFinalizer? && !e.reply.Ok? && delay == 5 * SECOND)
    || (e.at.AtEdge? && e.at.call.GetNamespace? && !e.reply.Ok? && !e.reply.NotFound? && delay == 30 * SECOND)
    || (e.at.AtEdge? && e.at.call.CreateNamespace? && !e.reply.Ok? && delay == 30 * SECOND)
  }

  /** The reply of e is the reason for the next program point. */
  ghost predicate Warranted(cfg: Config, mem: Memory, e: Exchange, pc: PC) {
    match pc
    case Idle => false
    case GetObject => false
    case Returned(delay) => EndsQuietly(e, delay) || (e.at.WriteStatus? && delay == e.at.requeue)
    case AddFinalizer(dep, fs) =>
      && e.at.GetObject? && Holding(e, dep) && dep.spec.account != "" && !dep.deleting
      && FINALIZER !in dep.finalizers && fs == dep.finalizers + [FINALIZER]
    case Lookup(dep) =>
      && Holding(e, dep)
      && (e.at.AddFinalizer?
          || (e.at.GetObject? && dep.spec.account != "" && !dep.deleting && FINALIZER in dep.finalizers))
    case LookupForDelete(dep) => e.at.GetObject? && Holding(e, dep) && dep.spec.account != "" && dep.deleting
    case RemoveFinalizer(dep, fs) =>
      && Holding(e, dep) && fs == Without(dep.finalizers, FINALIZER)
      && ((e.at.LookupForDelete? && !e.reply.Cluster?) || (e.at.AtEdge? && e.at.call.DeleteNamespace?))
    case AtEdge(dep, c, call) =>
      && Holding(e, dep)
      && if call.GetNamespace? then e.at.Lookup? && e.reply == Cluster(c)
         else if call.DeleteHistory? then e.at.LookupForDelete? && e.reply == Cluster(c)
         else e.at.AtEdge? && e.at.cluster == c && EdgeWarranted(cfg, e, call)
    case WriteStatus(dep, delay) => Written(cfg, mem, e, dep, delay)
  }

  /** The write is of the copy in hand, and says what is due. */
  ghost predicate Written(cfg: Config, mem: Memory, e: Exchange, dep: Deployment, delay: int) {
    exists was :: Holding(e, was) && Reports(cfg, mem, e, was, dep, delay)
  }

  /** What is due is what is written. */
  predicate Reports(cfg: Config, mem: Memory, e: Exchange, was: Deployment, dep: Deployment, delay: int) {
    && Due(cfg, e).Some?
    && Shows(was, dep, Due(cfg, e).value, mem, e.now)
    && delay == if Due(cfg, e).value.phase.PhaseReady? then mem.interval else Due(cfg, e).value.delay
  }

  /** The program point makes sense: a scan has something to look at. */
  predicate Sound(pc: PC) {
    pc.AtEdge? && pc.call.CheckObject? ==> pc.call.todo != []
  }

  // ---------------------------------------------------------------- the program keeps to it

  lemma UnreadyShows(was: Deployment, phase: Phase, reason: Reason, message: Message, mem: Memory, now: int)
    requires phase != PhaseReady
    ensures Shows(was, Unready(was, phase, reason, message, now), Notice(phase, ConditionFalse, reason, message, 0), mem, now)
  {
    SetConditionEffect(was.status.conditions, Condition(READY, ConditionFalse, reason, message, was.generation, 0), now);
  }

  lemma ReadyShows(was: Deployment, mem: Memory, now: int)
    ensures var message := SuccessfullyDeployed(was.spec.region.name);
      Shows(was, NowReady(was, mem.chart, now), Notice(PhaseReady, ConditionTrue, Deployed, message, 0), mem, now)
  {
    SetConditionEffect(was.status.conditions,
      Condition(READY, ConditionTrue, Deployed, SuccessfullyDeployed(was.spec.region.name), was.generation, 0), now);
  }

  /** The delay is no part of what is shown. */
  lemma DelayIsNotShown(was: Deployment, is': Deployment, n: Notice, delay: int, mem: Memory, now: int)
    requires Shows(was, is', n, mem, now)
    ensures Shows(was, is', n.(delay := delay), mem, now)
  {
  }

  /** A write of what is due is warranted. */
  lemma UnreadyReports(cfg: Config, mem: Memory, e: Exchange, was: Deployment, n: Notice)
    requires Holding(e, was) && Due(cfg, e) == Some(n) && n.phase != PhaseReady && n.status == ConditionFalse
    ensures Warranted(cfg, mem, e, WriteStatus(Unready(was, n.phase, n.reason, n.message, e.now), n.delay))
  {
    hide Shows, Due, Unready;
    UnreadyShows(was, n.phase, n.reason, n.message, mem, e.now);
    var is' := Unready(was, n.phase, n.reason, n.message, e.now);
    DelayIsNotShown(was, is', Notice(n.phase, ConditionFalse, n.reason, n.message, 0), n.delay, mem, e.now);
    assert Reports(cfg, mem, e, was, is', n.delay);
  }

  lemma ReadyReports(cfg: Config, mem: Memory, e: Exchange, was: Deployment, n: Notice)
    requires Holding(e, was) && Due(cfg, e) == Some(n)
    requires n == Notice(PhaseReady, ConditionTrue, Deployed, SuccessfullyDeployed(was.spec.region.name), 0)
    ensures Warranted(cfg, mem, e, WriteStatus(NowReady(was, mem.chart, e.now), mem.interval))
  {
    hide Shows, Due, NowReady;
    ReadyShows(was, mem, e.now);
    assert Reports(cfg, mem, e, was, NowReady(was, mem.chart, e.now), mem.interval);
  }

  lemma FailedDeployWarranted(cfg: Config, mem: Memory, e: Exchange, goal: Goal, cause: Cause)
    requires e.at.AtEdge? && Due(cfg, e) == FailedDeploy(goal, cause)
    ensures Warranted(cfg, mem, e, DeployFailed(e.at.dep, goal, cause, e.now))
  {
    hide Warranted, Due, Unready;
    UnreadyReports(cfg, mem, e, e.at.dep, FailedDeploy(goal, cause).value);
  }

  lemma DoneDeployWarranted(cfg: Config, mem: Memory, e: Exchange, goal: Goal)
    requires e.at.AtEdge? && e.reply.Ok? && !goal.Converge? && Due(cfg, e) == DoneDeploy(cfg, goal)
    ensures Warranted(cfg, mem, e, DeployDone(cfg, e.at.dep, e.at.cluster, goal, e.now))
  {
    hide Warranted, Due, Unready;
    assert "release:" + ("ced-" + cfg.key.name) == "release:ced-" + cfg.key.name;
    UnreadyReports(cfg, mem, e, e.at.dep, DoneDeploy(cfg, goal).value);
  }

  lemma ScanWarranted(cfg: Config, mem: Memory, e: Exchange, todo: seq<KObject>, missing: seq<string>)
    requires ScanAt(cfg, e, todo, missing)
    ensures Warranted(cfg, mem, e, AfterScan(e.at.dep, e.at.cluster, todo, missing))
    ensures Sound(AfterScan(e.at.dep, e.at.cluster, todo, missing))
  {
  }

  /** The calls of a health check. */
  lemma CheckWarranted(cfg: Config, mem: Memory, e: Exchange)
    requires e.at.AtEdge? && Sound(e.at) && (e.at.call.CheckHistory? || e.at.call.CheckRelease? || e.at.call.CheckObject?)
    ensures var pc := ReactAtEdge(cfg, mem, e.at.dep, e.at.cluster, e.at.call, e.reply, e.now);
      Warranted(cfg, mem, e, pc) && Sound(pc)
  {
    hide Unready, Scope, Parse;
    var dep, r := e.at.dep, e.reply;
    match e.at.call {
      case CheckHistory =>
        if !r.Ok? && !r.NotFound? {
          UnreadyReports(cfg, mem, e, dep, Due(cfg, e).value);
        }
      case CheckRelease =>
        if !r.GotRelease? {
          UnreadyReports(cfg, mem, e, dep, Due(cfg, e).value);
        } else if !r.release.status.Uninstalled? {
          ScanWarranted(cfg, mem, e, Scope(Parse(cfg.decode, r.release.manifest), cfg.key.name), []);
        }
      case CheckObject(todo, missing) =>
        ScanWarranted(cfg, mem, e, todo[1..], Noticed(cfg, todo, missing, r));
    }
  }

  /** The calls of a deploy, and the list after it. */
  lemma DeployWarranted(cfg: Config, mem: Memory, e: Exchange)
    requires e.at.AtEdge?
    requires var call := e.at.call;
      call.FetchChart? || call.DeployHistory? || call.Install? || call.Upgrade? || call.ListWorkloads?
    ensures var pc := ReactAtEdge(cfg, mem, e.at.dep, e.at.cluster, e.at.call, e.reply, e.now);
      Warranted(cfg, mem, e, pc) && Sound(pc)
  {
    hide Unready, NowReady, FailedDeploy, DoneDeploy;
    var dep, r := e.at.dep, e.reply;
    match e.at.call {
      case FetchChart(goal) =>
        if !r.Rendered? {
          FailedDeployWarranted(cfg, mem, e, goal, ChartUnusable(ErrorText(r)));
        }
      case DeployHistory(_, _) =>
      case Install(goal, _) =>
        if !r.Ok? {
          FailedDeployWarranted(cfg, mem, e, goal, HelmInstall(ErrorText(r)));
        } else if !goal.Converge? {
          DoneDeployWarranted(cfg, mem, e, goal);
        }
      case Upgrade(goal, _) =>
        if !r.Ok? {
          FailedDeployWarranted(cfg, mem, e, goal, HelmUpgrade(ErrorText(r)));
        } else if !goal.Converge? {
          DoneDeployWarranted(cfg, mem, e, goal);
        }
      case ListWorkloads =>
        if r.Workloads? && Unavailable(r.items) == [] {
          ReadyReports(cfg, mem, e, dep, Due(cfg, e).value);
        } else {
          UnreadyReports(cfg, mem, e, dep, Due(cfg, e).value);
        }
    }
  }

  lemma NamespaceWarranted(cfg: Config, mem: Memory, e: Exchange)
    requires e.at.AtEdge?
    requires var call := e.at.call; call.GetNamespace? || call.CreateNamespace? || ForDelete(call)
    ensures var pc := ReactAtEdge(cfg, mem, e.at.dep, e.at.cluster, e.at.call, e.reply, e.now);
      Warranted(cfg, mem, e, pc) && Sound(pc)
  {
  }

  lemma HomeWarranted(cfg: Config, mem: Memory, e: Exchange)
    requires !e.at.AtEdge? && !Resting(e.at)
    ensures var pc := React(cfg, mem, e.at, e.reply, e.now); Warranted(cfg, mem, e, pc) && Sound(pc)
  {
    hide Unready;
    match e.at {
      case GetObject =>
        if Due(cfg, e).Some? {
          UnreadyReports(cfg, mem, e, e.reply.dep, Due(cfg, e).value);
        }
      case Lookup(dep) =>
        if Due(cfg, e).Some? {
          UnreadyReports(cfg, mem, e, dep, Due(cfg, e).value);
        }
      case _ =>
    }
  }

  /** Whatever a call answers, the program point reached is warranted by it. */
  lemma ReactIsWarranted(cfg: Config, mem: Memory, e: Exchange)
    requires !Resting(e.at) && Sound(e.at)
    ensures var pc := React(cfg, mem, e.at, e.reply, e.now); Warranted(cfg, mem, e, pc) && Sound(pc)
  {
    hide ReactAtEdge, Warranted;
    if !e.at.AtEdge? {
      HomeWarranted(cfg, mem, e);
    } else {
      match e.at.call {
        case CheckHistory => CheckWarranted(cfg, mem, e);
        case CheckRelease => CheckWarranted(cfg, mem, e);
        case CheckObject(_, _) => CheckWarranted(cfg, mem, e);
        case FetchChart(_) => DeployWarranted(cfg, mem, e);
        case DeployHistory(_, _) => DeployWarranted(cfg, mem, e);
        case Install(_, _) => DeployWarranted(cfg, mem, e);
        case Upgrade(_, _) => DeployWarranted(cfg, mem, e);
        case ListWorkloads => DeployWarranted(cfg, mem, e);
        case _ => NamespaceWarranted(cfg, mem, e);
      }
    }
  }

  // ---------------------------------------------------------------- all runs

  /** A list of exchanges each of which is warranted by the one before it. */
  ghost predicate Chained(cfg: Config, mem: Memory, t: seq<Exchange>) {
    && (t != [] ==> t[0].at == GetObject)
    && (forall i :: 0 < i < |t| ==> Warranted(cfg, mem, t[i - 1], t[i].at))
  }

  ghost predicate Tracked(cfg: Config, c: Cell) {
    && Chained(cfg, c.memory, c.trace)
    && Sound(c.pc)
    && (c.pc.GetObject? ==> c.trace == [])
    && (!c.pc.Idle? && !c.pc.GetObject? ==> c.trace != [] && Warranted(cfg, c.memory, c.trace[|c.trace| - 1], c.pc))
  }

  lemma StepKeepsTracked(cfg: Config, s: State, a: Action)
    requires s.cell.versions != [] && Tracked(cfg, s.cell)
    ensures Tracked(cfg, Step(cfg, s, a).cell)
  {
    hide React, Warranted, Serve, ServeHome, OutsideHome;
    if a.Op? && !Resting(s.cell.pc) {
      ReplyIsNoted(cfg, s, a.ch);
      var t := OpStep(cfg, s, a.ch).cell.trace;
      ReactIsWarranted(cfg, s.cell.memory, t[|t| - 1]);
      NothingStartsOver(cfg, s.cell.memory, t[|t| - 1], OpStep(cfg, s, a.ch).cell.pc);
    } else if !ByOperator(a) {
      OthersKeepCell(s.cell, a);
    }
  }

  lemma NothingStartsOver(cfg: Config, mem: Memory, e: Exchange, pc: PC)
    requires Warranted(cfg, mem, e, pc)
    ensures !pc.Idle? && !pc.GetObject?
  {
  }

  lemma OthersKeepCell(c: Cell, a: Action)
    requires c.versions != [] && !ByOperator(a)
    ensures var c' := OutsideHome(c, a); c'.pc == c.pc && c'.trace == c.trace && c'.memory == c.memory
  {
  }

  lemma {:induction false} RunKeepsTracked(cfg: Config, s: State, actions: seq<Action>)
    requires s.cell.versions != [] && Tracked(cfg, s.cell)
    ensures Tracked(cfg, Run(cfg, s, actions).cell)
    decreases |actions|
  {
    if actions != [] {
      StepKeepsTracked(cfg, s, actions[0]);
      StepKeepsStore(cfg, s, actions[0]);
      RunKeepsTracked(cfg, Step(cfg, s, actions[0]), actions[1..]);
    }
  }

  /** In every run, each call a reconcile makes is warranted by the reply before it, and so is the point it stands at. */
  lemma EveryCallIsWarranted(cfg: Config, s0: State, actions: seq<Action>)
    requires Init(s0)
    ensures var c := Run(cfg, s0, actions).cell;
      && (c.trace != [] ==> c.trace[0].at == GetObject)
      && (forall i :: 0 < i < |c.trace| ==> Warranted(cfg, c.memory, c.trace[i - 1], c.trace[i].at))
      && (!c.pc.Idle? && !c.pc.GetObject? ==>
            c.trace != [] && Warranted(cfg, c.memory, c.trace[|c.trace| - 1], c.pc))
  {
    RunKeepsTracked(cfg, s0, actions);
  }

  /** What is due is what is done: a status is written next iff the exchange is due a notice. */
  lemma DueIsWritten(cfg: Config, mem: Memory, e: Exchange, pc: PC)
    requires Warranted(cfg, mem, e, pc)
    ensures pc.WriteStatus? <==> Due(cfg, e).Some?
  {
    hide Shows;
  }

  /** No exit is silent: in every run, a reconcile that has returned has written the notice its last reply but one was
      due, word for word, and returned its delay; or it was due none and ended at one of the quiet exits, by the fetch,
      the finalizer updates or the namespace. No reply that was due a notice was passed over on the way. */
  lemma EveryExitReports(cfg: Config, s0: State, actions: seq<Action>)
    requires Init(s0) && Run(cfg, s0, actions).cell.pc.Returned?
    ensures var c := Run(cfg, s0, actions).cell;
      var t, n := c.trace, |c.trace|;
      && n > 0
      && (if t[n - 1].at.WriteStatus? then
            && n >= 2
            && c.pc.requeue == t[n - 1].at.requeue
            && Written(cfg, c.memory, t[n - 2], t[n - 1].at.dep, t[n - 1].at.requeue)
          else EndsQuietly(t[n - 1], c.pc.requeue))
      && (forall i :: 0 <= i < n && Due(cfg, t[i]).Some? ==> i == n - 2 && t[n - 1].at.WriteStatus?)
  {
    hide Shows, Due, Holding, EdgeWarranted;
    RunKeepsTracked(cfg, s0, actions);
    var c := Run(cfg, s0, actions).cell;
    var t, n := c.trace, |c.trace|;
    if t[n - 1].at.WriteStatus? {
      assert Warranted(cfg, c.memory, t[n - 2], t[n - 1].at);
    }
    forall i | 0 <= i < n && Due(cfg, t[i]).Some?
      ensures i == n - 2 && t[n - 1].at.WriteStatus?
    {
      DueIsWritten(cfg, c.memory, t[i], if i < n - 1 then t[i + 1].at else c.pc);
      WriteIsLast(cfg, c.memory, t, c.pc, i + 1);
    }
  }

  lemma WriteIsLast(cfg: Config, mem: Memory, t: seq<Exchange>, pc: PC, i: nat)
    requires Chained(cfg, mem, t) && i < |t| && t[i].at.WriteStatus?
    requires Warranted(cfg, mem, t[|t| - 1], pc)
    ensures i == |t| - 1
  {
    hide Warranted;
    if i < |t| - 1 {
      assert Warranted(cfg, mem, t[i], t[i + 1].at);
      AfterWrite(cfg, mem, t[i], t[i + 1].at);
      assert i + 1 < |t| - 1 ==> Warranted(cfg, mem, t[i + 1], t[i + 2].at);
      NothingAfterReturn(cfg, mem, t[i + 1], if i + 1 < |t| - 1 then t[i + 2].at else pc);
    }
  }

  lemma AfterWrite(cfg: Config, mem: Memory, e: Exchange, pc: PC)
    requires Warranted(cfg, mem, e, pc) && e.at.WriteStatus?
    ensures pc == Returned(e.at.requeue)
  {
    hide Shows;
  }

  lemma NothingAfterReturn(cfg: Config, mem: Memory, e: Exchange, pc: PC)
    requires Warranted(cfg, mem, e, pc)
    ensures !e.at.Returned?
  {
    hide Shows;
  }

  // ---------------------------------------------------------------- the scan, whatever its reads are answered

  /** t are the reads of the first |t| objects to look for, in order. */
  predicate ScanCalls(scope: seq<KObject>, t: seq<Exchange>) {
    && |t| <= |scope|
    && forall i :: 0 <= i < |t| ==> t[i].at.AtEdge? && t[i].at.call.CheckObject? && t[i].at.call.todo == scope[i..]
  }

  /** The descriptions of those that were answered NotFound. */
  function Reported(ns: string, scope: seq<KObject>, t: seq<Exchange>): seq<string>
    requires |t| <= |scope|
  {
    DescribeAll(Filter(scope[..|t|], Marks(t, (e: Exchange) => e.reply == NotFound)), ns)
  }

  lemma ReportedMore(ns: string, scope: seq<KObject>, t: seq<Exchange>, e: Exchange)
    requires |t| < |scope|
    ensures Reported(ns, scope, t + [e])
            == Reported(ns, scope, t) + (if e.reply.NotFound? then [Describe(scope[|t|], ns)] else [])
  {
    var marks := Marks(t, (e: Exchange) => e.reply == NotFound);
    assert scope[..|t| + 1] == scope[..|t|] + [scope[|t|]];
    assert Marks(t + [e], (e: Exchange) => e.reply == NotFound) == marks + [e.reply == NotFound];
    FilterAppend(scope[..|t|], marks, scope[|t|], e.reply == NotFound);
    DescribeAppend(Filter(scope[..|t|], marks), scope[|t|], ns);
  }

  /** They are reported once for each such answer, in order; an object read with any other answer is not reported. */
  lemma ReportedIsExact(ns: string, scope: seq<KObject>, t: seq<Exchange>) returns (idx: seq<nat>)
    requires |t| <= |scope|
    ensures Ascending(idx, |t|) && |Reported(ns, scope, t)| == |idx|
    ensures forall i :: 0 <= i < |t| ==> (i in idx <==> t[i].reply == NotFound)
    ensures forall m :: 0 <= m < |idx| ==> Reported(ns, scope, t)[m] == Describe(scope[idx[m]], ns)
  {
    idx := FilterPicks(scope[..|t|], Marks(t, (e: Exchange) => e.reply == NotFound));
  }

  lemma AscendingBelow(idx: seq<nat>, n: nat)
    requires Ascending(idx, n)
    ensures forall m :: 0 <= m < |idx| ==> idx[m] < n
  {
  }

  lemma ChainedFront(cfg: Config, mem: Memory, t: seq<Exchange>, n: nat)
    requires Chained(cfg, mem, t) && n <= |t|
    ensures Chained(cfg, mem, t[..n])
  {
    hide Warranted;
    forall i | 0 < i < n ensures Warranted(cfg, mem, t[..n][i - 1], t[..n][i].at) {
      assert Warranted(cfg, mem, t[i - 1], t[i].at);
    }
  }

  /** The scan before todo, with these found missing, is one of the release read at j: one read for each object since. */
  predicate CameFrom(cfg: Config, t: seq<Exchange>, j: nat, todo: seq<KObject>, missing: seq<string>) {
    && j < |t| && ReadRelease(t[j])
    && var scope, looked := Scope(Parse(cfg.decode, t[j].reply.release.manifest), cfg.key.name), t[j + 1..];
       ScanCalls(scope, looked) && todo == scope[|looked|..] && missing == Reported(cfg.key.name, scope, looked)
  }

  lemma ScanExtends(cfg: Config, t: seq<Exchange>, j: nat, e: Exchange, todo: seq<KObject>, missing: seq<string>)
    requires ScanAt(cfg, e, todo, missing) && e.at.AtEdge? && e.at.call.CheckObject?
    requires CameFrom(cfg, t, j, e.at.call.todo, e.at.call.missing)
    ensures CameFrom(cfg, t + [e], j, todo, missing)
  {
    hide Scope, Parse, Describe, Reported, ScanAt, ScanCalls;
    ScanStep(cfg, e, todo, missing);
    var scope := Scope(Parse(cfg.decode, t[j].reply.release.manifest), cfg.key.name);
    ScanMore(cfg.key.name, scope, t[j + 1..], e);
    assert (t + [e])[j + 1..] == t[j + 1..] + [e];
  }

  /** Every scan has come from somewhere. */
  lemma {:induction false} ScanCameFrom(cfg: Config, mem: Memory, t: seq<Exchange>, todo: seq<KObject>, missing: seq<string>)
      returns (j: nat)
    requires Chained(cfg, mem, t) && t != [] && ScanAt(cfg, t[|t| - 1], todo, missing)
    ensures CameFrom(cfg, t, j, todo, missing)
    decreases |t|
  {
    hide Warranted, Chained, ScanAt, CameFrom;
    var n := |t|;
    if t[n - 1].at.AtEdge? && t[n - 1].at.call.CheckRelease? {
      j := n - 1;
      ScanStarts(cfg, t, todo, missing);
    } else {
      ScanStep(cfg, t[n - 1], todo, missing);
      ScanBefore(cfg, mem, t);
      ChainedFront(cfg, mem, t, n - 1);
      j := ScanCameFrom(cfg, mem, t[..n - 1], t[n - 1].at.call.todo, t[n - 1].at.call.missing);
      ScanExtends(cfg, t[..n - 1], j, t[n - 1], todo, missing);
      assert t == t[..n - 1] + [t[n - 1]];
    }
  }

  lemma ScanStarts(cfg: Config, t: seq<Exchange>, todo: seq<KObject>, missing: seq<string>)
    requires t != [] && ScanAt(cfg, t[|t| - 1], todo, missing)
    requires t[|t| - 1].at.AtEdge? && t[|t| - 1].at.call.CheckRelease?
    ensures CameFrom(cfg, t, |t| - 1, todo, missing)
  {
    hide Scope, Parse, Describe, Reported, ScanAt, ScanCalls;
    assert t[|t|..] == [];
    ScanStart(cfg, t[|t| - 1], todo, missing);
  }

  lemma ScanStart(cfg: Config, e: Exchange, todo: seq<KObject>, missing: seq<string>)
    requires ScanAt(cfg, e, todo, missing) && e.at.AtEdge? && e.at.call.CheckRelease?
    ensures ReadRelease(e)
    ensures var scope := Scope(Parse(cfg.decode, e.reply.release.manifest), cfg.key.name);
      todo == scope && missing == Reported(cfg.key.name, scope, []) && ScanCalls(scope, [])
  {
  }

  lemma ScanStep(cfg: Config, e: Exchange, todo: seq<KObject>, missing: seq<string>)
    requires ScanAt(cfg, e, todo, missing) && !(e.at.AtEdge? && e.at.call.CheckRelease?)
    ensures e.at.AtEdge? && e.at.call.CheckObject?
    ensures var before := e.at.call.todo;
      && before != [] && todo == before[1..]
      && missing == e.at.call.missing + (if e.reply.NotFound? then [Describe(before[0], cfg.key.name)] else [])
  {
  }

  /** A read of an object comes in the middle of a scan. */
  lemma ScanBefore(cfg: Config, mem: Memory, t: seq<Exchange>)
    requires Chained(cfg, mem, t) && t != [] && t[|t| - 1].at.AtEdge? && t[|t| - 1].at.call.CheckObject?
    ensures |t| >= 2 && ScanAt(cfg, t[|t| - 2], t[|t| - 1].at.call.todo, t[|t| - 1].at.call.missing)
  {
    hide Scope, Parse, ScanAt;
    assert Warranted(cfg, mem, t[|t| - 2], t[|t| - 1].at);
  }

  lemma ScanMore(ns: string, scope: seq<KObject>, t: seq<Exchange>, e: Exchange)
    requires ScanCalls(scope, t) && e.at.AtEdge? && e.at.call.CheckObject?
    requires e.at.call.todo != [] && e.at.call.todo == scope[|t|..]
    ensures ScanCalls(scope, t + [e]) && e.at.call.todo[1..] == scope[|t| + 1..] && e.at.call.todo[0] == scope[|t|]
    ensures Reported(ns, scope, t + [e])
            == Reported(ns, scope, t) + (if e.reply.NotFound? then [Describe(scope[|t|], ns)] else [])
  {
    ReportedMore(ns, scope, t, e);
  }

  /** The release was read, and is not an uninstalled one. */
  predicate ReadRelease(e: Exchange) {
    && e.at.AtEdge? && e.at.call.CheckRelease?
    && e.reply.GotRelease? && !e.reply.release.status.Uninstalled?
  }

  /** The drift check under arbitrary answers: in every run, where the chart is fetched after a scan, the release was read
      and then each in-scope object of its manifest once, in order; the deploy is to heal exactly those whose own read
      was answered NotFound, by kind, namespace and name, and to converge if there is none. Any other answer, an error
      among them, adds nothing. */
  lemma ScanIsExact(cfg: Config, s0: State, actions: seq<Action>) returns (j: nat, idx: seq<nat>)
    requires Init(s0)
    requires var pc := Run(cfg, s0, actions).cell.pc;
      pc.AtEdge? && pc.call.FetchChart? && !pc.call.goal.Reinstall?
    ensures var c := Run(cfg, s0, actions).cell;
      && j < |c.trace| && ReadRelease(c.trace[j])
      && var t, scope := c.trace[j + 1..], Scope(Parse(cfg.decode, c.trace[j].reply.release.manifest), cfg.key.name);
         && |t| == |scope| && ScanCalls(scope, t)
         && Ascending(idx, |scope|)
         && (forall i :: 0 <= i < |scope| ==> (i in idx <==> t[i].reply == NotFound))
         && (c.pc.call.goal.Converge? <==> idx == [])
         && (c.pc.call.goal.Heal? ==>
               && |c.pc.call.goal.missing| == |idx|
               && forall m :: 0 <= m < |idx| ==>
                    var o := scope[idx[m]];
                    c.pc.call.goal.missing[m]
                    == o.kind + "/" + (if o.namespace == "" then cfg.key.name else o.namespace) + "/" + o.name)
  {
    hide Scope, Parse, Ascending, Run;
    RunKeepsTracked(cfg, s0, actions);
    var c := Run(cfg, s0, actions).cell;
    var missing := if c.pc.call.goal.Converge? then [] else c.pc.call.goal.missing;
    j := ScanCameFrom(cfg, c.memory, c.trace, [], missing);
    var scope := Scope(Parse(cfg.decode, c.trace[j].reply.release.manifest), cfg.key.name);
    idx := ReportedIsExact(cfg.key.name, scope, c.trace[j + 1..]);
    AscendingBelow(idx, |scope|);
  }
}
