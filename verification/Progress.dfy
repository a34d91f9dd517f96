/** Every reconcile comes to an end, and none drops its object from the loop. */
module Progress {
  import opened Resources
  import opened Edge
  import opened Machine
  import opened CheckInterval

  /** How far a program point is from the end. */
  function Stage(pc: PC): nat {
    match pc
    case GetObject => 20
    case AddFinalizer(_, _) => 19
    case Lookup(_) => 18
    case LookupForDelete(_) => 8
    case RemoveFinalizer(_, _) => 4
    case WriteStatus(_, _) => 3
    case AtEdge(_, _, call) => (
      match call
      case GetNamespace => 17
      case CreateNamespace => 16
      case CheckHistory => 15
      case CheckRelease => 14
      case CheckObject(_, _) => 13
      case FetchChart(_) => 12
      case DeployHistory(_, _) => 11
      case Install(_, _) => 10
      case Upgrade(_, _) => 10
      case ListWorkloads => 9
      case DeleteHistory => 7
      case Uninstall => 6
      case DeleteNamespace => 5)
    case _ => 0
  }

  function Left(pc: PC): nat {
    if pc.AtEdge? && pc.call.CheckObject? then |pc.call.todo| else 0
  }

  lemma EdgeAdvances(cfg: Config, mem: Memory, dep: Deployment, c: string, call: EdgeCall, r: Reply, now: int)
    ensures var pc, pc' := AtEdge(dep, c, call), ReactAtEdge(cfg, mem, dep, c, call, r, now);
      Stage(pc') < Stage(pc) || (Stage(pc') == Stage(pc) && Left(pc') < Left(pc))
  {
  }

  /** Whatever a call answers, the program is nearer its end after it. */
  lemma StepAdvances(cfg: Config, s: State, ch: Choice)
    requires s.cell.versions != [] && !Resting(s.cell.pc)
    ensures var pc, pc' := s.cell.pc, OpStep(cfg, s, ch).cell.pc;
      Stage(pc') < Stage(pc) || (Stage(pc') == Stage(pc) && Left(pc') < Left(pc))
  {
    var pc := s.cell.pc;
    if pc.AtEdge? {
      var served := Serve(cfg.key.name, cfg.decode, SlotAt(s.shared, SlotId(pc.cluster, cfg.key.name)), pc.call, ch);
      EdgeAdvances(cfg, s.cell.memory, pc.dep, pc.cluster, pc.call, served.reply, ch.now);
    }
  }

  /** A reconcile run to its end, the outside answering each call as choose decides; no call is made twice in one
      reconcile, so this is every way it can go. It ends under every one. */
  function Finish(cfg: Config, s: State, choose: PC -> Choice): (r: State)
    requires s.cell.versions != []
    ensures r.cell.versions != [] && Resting(r.cell.pc)
    ensures !Resting(s.cell.pc) ==> r.cell.pc.Returned?
    decreases Stage(s.cell.pc), Left(s.cell.pc)
  {
    if Resting(s.cell.pc) then s
    else
      var ch := choose(s.cell.pc);
      StepAdvances(cfg, s, ch);
      StepKeepsStore(cfg, s, Op(ch));
      StepNeverIdles(cfg, s, ch);
      Finish(cfg, OpStep(cfg, s, ch), choose)
  }

  lemma StepNeverIdles(cfg: Config, s: State, ch: Choice)
    requires s.cell.versions != [] && !Resting(s.cell.pc)
    ensures !OpStep(cfg, s, ch).cell.pc.Idle?
  {
  }

  /** The object was not there, or its finalizer has just been removed. */
  predicate Final(e: Exchange) {
    (e.at.GetObject? && e.reply.NotFound?) || (e.at.RemoveFinalizer? && e.reply.Ok?)
  }

  /** The reconcile ended by writing Ready. */
  predicate WroteReady(e: Exchange) {
    e.at.WriteStatus? && e.at.dep.status.phase.PhaseReady?
  }

  predicate RequeueOk(c: Cell) {
    match c.pc
    case WriteStatus(dep, q) => if dep.status.phase.PhaseReady? then q == c.memory.interval else q > 0
    case Returned(q) =>
      && c.trace != []
      && var e := c.trace[|c.trace| - 1];
         if Final(e) then q == 0 else if WroteReady(e) then q == c.memory.interval else q > 0
    case _ => true
  }

  lemma EdgeKeepsRequeue(cfg: Config, c: Cell, r: Reply, now: int)
    requires c.pc.AtEdge?
    ensures RequeueOk(c.(pc := React(cfg, c.memory, c.pc, r, now), trace := c.trace + [Exchange(c.pc, r, now)]))
  {
  }

  lemma StepKeepsRequeue(cfg: Config, s: State, a: Action)
    requires s.cell.versions != [] && RequeueOk(s.cell)
    ensures RequeueOk(Step(cfg, s, a).cell)
  {
    var c := s.cell;
    if a.Op? && c.pc.AtEdge? {
      var served := Serve(cfg.key.name, cfg.decode, SlotAt(s.shared, SlotId(c.pc.cluster, cfg.key.name)), c.pc.call, a.ch);
      EdgeKeepsRequeue(cfg, c, served.reply, a.ch.now);
    }
  }

  lemma {:induction false} RunKeepsRequeue(cfg: Config, s: State, actions: seq<Action>)
    requires s.cell.versions != [] && RequeueOk(s.cell)
    ensures RequeueOk(Run(cfg, s, actions).cell)
    decreases |actions|
  {
    if actions != [] {
      StepKeepsRequeue(cfg, s, actions[0]);
      StepKeepsStore(cfg, s, actions[0]);
      RunKeepsRequeue(cfg, Step(cfg, s, actions[0]), actions[1..]);
    }
  }

  /** Nothing is dropped from the loop: under the interval latched from a setting, a reconcile asks to be run again
      after a positive delay, unless it found its object gone, has just removed its finalizer, or has written Ready
      under a setting that overflows. */
  lemma NothingDropped(cfg: Config, s0: State, actions: seq<Action>, p: Parsers, env: string)
    requires Init(s0)
    requires var c := Run(cfg, s0, actions).cell; c.pc.Returned? && c.memory.interval == Latched(p, env)
    ensures var c := Run(cfg, s0, actions).cell;
      && c.trace != []
      && var e := c.trace[|c.trace| - 1];
         c.pc.requeue > 0 <==> !Final(e) && !(WroteReady(e) && Overflows(p, env))
  {
    RunKeepsRequeue(cfg, s0, actions);
    LatchedIsPositive(p, env);
  }
}
