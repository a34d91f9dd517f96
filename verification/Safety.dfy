/** What every step keeps, and from it: finalizer before effects, and no resurrection after removal. */
module Safety {
  import opened Wrappers
  import opened Resources
  import opened Finalizers
  import opened Edge
  import opened Machine

  /** Resource versions are positions in the store's history, and incarnations are numbered. */
  ghost predicate StoreOk(c: Cell) {
    && c.versions != []
    && c.seen < |c.versions|
    && forall i :: 0 <= i < |c.versions| && c.versions[i].Some? ==>
         c.versions[i].value.version == i && c.versions[i].value.uid < c.nextUid
  }

  /** dep is, as it stands, a stored version the operator is allowed to have read. */
  predicate Holds(c: Cell, dep: Deployment) {
    c.seen <= dep.version < |c.versions| && c.versions[dep.version] == Some(dep)
  }

  /** The same up to the status, which the working copy has overwritten. */
  predicate HoldsSpec(c: Cell, dep: Deployment) {
    && c.seen <= dep.version < |c.versions|
    && c.versions[dep.version].Some?
    && c.versions[dep.version].value.(status := dep.status) == dep
  }

  /** The delete path, from routing to its home update. */
  predicate Removing(pc: PC) {
    pc.LookupForDelete? || pc.RemoveFinalizer? || (pc.AtEdge? && ForDelete(pc.call))
  }

  /** What the working copy is at each call. */
  predicate CopyOk(c: Cell) {
    match c.pc
    case AddFinalizer(dep, _) => Holds(c, dep) && !dep.deleting && FINALIZER !in dep.finalizers && c.pc == Addition(dep)
    case Lookup(dep) => Holds(c, dep) && !dep.deleting && FINALIZER in dep.finalizers
    case AtEdge(dep, _, call) =>
      if ForDelete(call) then Holds(c, dep) && dep.deleting && dep.version == c.seen
      else Holds(c, dep) && !dep.deleting && FINALIZER in dep.finalizers
    case LookupForDelete(dep) => Holds(c, dep) && dep.deleting && dep.version == c.seen
    case RemoveFinalizer(dep, _) => Holds(c, dep) && dep.deleting && dep.version == c.seen && c.pc == Removal(dep)
    case WriteStatus(dep, _) => HoldsSpec(c, dep)
    case _ => true
  }

  /** The home store's copy of the incarnation exists and carries the operator's finalizer. */
  predicate Guarded(c: Cell, uid: nat)
    requires c.versions != []
  {
    Home(c).Some? && Home(c).value.uid == uid && FINALIZER in Home(c).value.finalizers
  }

  predicate Protects(o: Deployment) {
    !o.deleting && FINALIZER in o.finalizers
  }

  /** Whatever protected version a cached read may still show, the store protects that incarnation now. */
  ghost predicate ReadsAreGuarded(c: Cell)
    requires c.versions != []
  {
    forall i :: c.seen <= i < |c.versions| && c.versions[i].Some? && Protects(c.versions[i].value) ==>
      Guarded(c, c.versions[i].value.uid)
  }

  /** An incarnation whose finalizer was removed is seen as deleting, if at all. */
  ghost predicate RemovedStaysDeleted(c: Cell) {
    forall u: nat :: Removed(u) in c.log ==>
      && u < c.nextUid
      && forall i :: c.seen <= i < |c.versions| && c.versions[i].Some? && c.versions[i].value.uid == u ==>
           c.versions[i].value.deleting
  }

  ghost predicate NoEffectAfterRemoval(log: seq<Record>) {
    forall i, j :: 0 <= i < j < |log| && log[i].Removed? && log[j].Effect? ==> log[i].uid != log[j].uid
  }

  ghost predicate Inv(c: Cell) {
    && StoreOk(c)
    && CopyOk(c)
    && ReadsAreGuarded(c)
    && RemovedStaysDeleted(c)
    && NoEffectAfterRemoval(c.log)
  }

  // ---------------------------------------------------------------- preservation

  /** How the current object may change without the operator's delete path: an incarnation keeps its identity, its
      deletion mark and the operator's finalizer; a new one gets a new number. */
  predicate Evolves(c: Cell, x: Option<Deployment>)
    requires c.versions != []
  {
    var h := Home(c);
    match x
    case None => h.Some? && FINALIZER !in h.value.finalizers
    case Some(o) =>
      && o.version == |c.versions|
      && (h.Some? ==>
            && o.uid == h.value.uid
            && (h.value.deleting ==> o.deleting)
            && (FINALIZER in h.value.finalizers ==> FINALIZER in o.finalizers))
      && (h.None? ==> o.uid == c.nextUid)
  }

  lemma AppendKeeps(c: Cell, x: Option<Deployment>, nextUid: nat)
    requires Inv(c) && Evolves(c, x)
    requires nextUid == if Home(c).None? then c.nextUid + 1 else c.nextUid
    ensures Inv(c.(versions := c.versions + [x], nextUid := nextUid))
  {
    var c' := c.(versions := c.versions + [x], nextUid := nextUid);
    forall i | c'.seen <= i < |c'.versions| && c'.versions[i].Some? && Protects(c'.versions[i].value)
      ensures Guarded(c', c'.versions[i].value.uid)
    {
      if i < |c.versions| {
        assert Guarded(c, c.versions[i].value.uid);
      }
    }
    forall u: nat | Removed(u) in c'.log
      ensures forall i :: c'.seen <= i < |c'.versions| && c'.versions[i].Some? && c'.versions[i].value.uid == u ==>
        c'.versions[i].value.deleting
    {
      assert Home(c).Some? && Home(c).value.uid == u ==> Home(c).value.deleting;
    }
  }

  lemma OutsideKeeps(c: Cell, a: Action)
    requires Inv(c)
    ensures Inv(OutsideHome(c, a))
  {
    var c' := OutsideHome(c, a);
    if c'.versions != c.versions {
      var x := c'.versions[|c.versions|];
      AppendKeeps(c, x, c'.nextUid);
      assert c' == c.(versions := c.versions + [x], nextUid := c'.nextUid);
    }
  }

  /** Moving on within a cell: log and store stay, the new call's copy is in order. */
  lemma MoveKeeps(c: Cell, pc: PC, trace: seq<Exchange>)
    requires Inv(c) && CopyOk(c.(pc := pc))
    ensures Inv(c.(pc := pc, trace := trace))
  {
    var c' := c.(pc := pc, trace := trace);
    forall i | c'.seen <= i < |c'.versions| && c'.versions[i].Some? && Protects(c'.versions[i].value)
      ensures Guarded(c', c'.versions[i].value.uid)
    {
      assert Guarded(c, c.versions[i].value.uid);
    }
  }

  /** The next program point carries the same working copy, up to a status it is about to write. */
  predicate Carries(pc: PC, dep: Deployment, deleting: bool) {
    match pc
    case AtEdge(d, _, call) => d == dep && ForDelete(call) == deleting
    case RemoveFinalizer(d, _) => d == dep && deleting && pc == Removal(d)
    case WriteStatus(d, _) => d == dep.(status := d.status) && !deleting
    case _ => pc.Returned?
  }

  lemma ReactAtEdgeCarries(cfg: Config, mem: Memory, dep: Deployment, c: string, call: EdgeCall, r: Reply, now: int)
    ensures Carries(ReactAtEdge(cfg, mem, dep, c, call, r, now), dep, ForDelete(call))
  {
  }

  /** The program keeps hold of its copy from call to call. */
  lemma ReactKeepsCopy(cfg: Config, c: Cell, r: Reply, now: int)
    requires StoreOk(c) && CopyOk(c)
    requires c.pc.GetObject? && r.Got? ==> Holds(c, r.dep) && r.dep.version == c.seen
    requires c.pc.AddFinalizer? && r.Got? ==> Holds(c, r.dep) && !r.dep.deleting && FINALIZER in r.dep.finalizers
    ensures CopyOk(c.(pc := React(cfg, c.memory, c.pc, r, now)))
  {
    if c.pc.AtEdge? {
      ReactAtEdgeCarries(cfg, c.memory, c.pc.dep, c.pc.cluster, c.pc.call, r, now);
      assert Carries(React(cfg, c.memory, c.pc, r, now), c.pc.dep, ForDelete(c.pc.call));
    }
  }

  lemma AdvanceKeeps(cfg: Config, c: Cell, memory: Memory, r: Reply, now: int, trace: seq<Exchange>)
    requires Inv(c) && memory == c.memory
    requires c.pc.GetObject? && r.Got? ==> Holds(c, r.dep) && r.dep.version == c.seen
    requires c.pc.AddFinalizer? && r.Got? ==> Holds(c, r.dep) && !r.dep.deleting && FINALIZER in r.dep.finalizers
    ensures Inv(c.(pc := React(cfg, memory, c.pc, r, now), trace := trace))
  {
    ReactKeepsCopy(cfg, c, r, now);
    MoveKeeps(c, React(cfg, memory, c.pc, r, now), trace);
  }

  lemma LogEffectKeeps(c: Cell, cluster: string)
    requires Inv(c) && c.pc.AtEdge? && Creates(c.pc.call)
    ensures Inv(c.(log := c.log + [Effect(c.pc.dep.uid, c.pc.dep.version, cluster)]))
    ensures Guarded(c, c.pc.dep.uid) && Removed(c.pc.dep.uid) !in c.log
  {
    var dep := c.pc.dep;
    assert c.versions[dep.version] == Some(dep) && Protects(dep);
    assert Removed(dep.uid) !in c.log;
    var c' := c.(log := c.log + [Effect(dep.uid, dep.version, cluster)]);
    assert forall u: nat :: Removed(u) in c'.log ==> Removed(u) in c.log;
    forall i | c'.seen <= i < |c'.versions| && c'.versions[i].Some? && Protects(c'.versions[i].value)
      ensures Guarded(c', c'.versions[i].value.uid)
    {
      assert Guarded(c, c.versions[i].value.uid);
    }
    forall i, j | 0 <= i < j < |c'.log| && c'.log[i].Removed? && c'.log[j].Effect?
      ensures c'.log[i].uid != c'.log[j].uid
    {
      assert c'.log[i] == c.log[i];
      assert c.log[i] == Removed(c.log[i].uid);
    }
  }

  lemma LogReadyKeeps(c: Cell, r: Record)
    requires Inv(c) && r.StoredReady?
    ensures Inv(c.(log := c.log + [r]))
  {
    var c' := c.(log := c.log + [r]);
    assert forall u: nat :: Removed(u) in c'.log ==> Removed(u) in c.log;
    forall i | c'.seen <= i < |c'.versions| && c'.versions[i].Some? && Protects(c'.versions[i].value)
      ensures Guarded(c', c'.versions[i].value.uid)
    {
      assert Guarded(c, c.versions[i].value.uid);
    }
  }

  /** The delete path's update: what it was based on is the current version, which is being deleted. */
  lemma RemovalKeeps(c: Cell, dep: Deployment)
    requires Inv(c) && c.pc == Removal(dep) && Accepts(c, dep)
    ensures Inv(c.(versions := Put(c.versions, Updated(Home(c).value, dep, Without(dep.finalizers, FINALIZER))),
                   log := c.log + [Removed(dep.uid)]))
  {
    var o := Updated(Home(c).value, dep, Without(dep.finalizers, FINALIZER));
    var c' := c.(versions := Put(c.versions, o), log := c.log + [Removed(dep.uid)]);
    assert dep.version == |c.versions| - 1 == c.seen && Home(c) == Some(dep);
    assert forall u: nat :: Removed(u) in c'.log ==> u == dep.uid || Removed(u) in c.log;
    assert forall i :: c'.seen <= i < |c'.versions| && c'.versions[i].Some? ==> c'.versions[i].value.deleting;
  }

  lemma UpdateEvolves(c: Cell, o: Deployment)
    requires Inv(c) && Home(c).Some?
    requires o.uid == Home(c).value.uid && (Home(c).value.deleting ==> o.deleting)
    requires FINALIZER in Home(c).value.finalizers ==> FINALIZER in o.finalizers
    ensures Inv(c.(versions := Put(c.versions, o)))
  {
    var versions := Put(c.versions, o);
    if versions != c.versions {
      AppendKeeps(c, versions[|c.versions|], c.nextUid);
      assert versions == c.versions + [versions[|c.versions|]];
      assert c.(versions := versions) == c.(versions := c.versions + [versions[|c.versions|]], nextUid := c.nextUid);
    } else {
      assert c.(versions := versions) == c;
    }
  }

  lemma HomeKeeps(cfg: Config, s: State, ch: Choice)
    requires Inv(s.cell)
    requires s.cell.pc.GetObject? || s.cell.pc.AddFinalizer? || s.cell.pc.RemoveFinalizer? || s.cell.pc.WriteStatus?
    ensures Inv(HomeStep(cfg, s, ch).cell)
  {
    var c := s.cell;
    var served := ServeHome(c, ch);
    match c.pc {
      case GetObject =>
        assert Inv(served.cell);
      case AddFinalizer(dep, _) =>
        if served.cell != c {
          assert Home(c) == Some(dep);
          UpdateEvolves(c, Updated(dep, dep, dep.finalizers + [FINALIZER]));
        }
      case RemoveFinalizer(dep, _) =>
        if served.cell != c {
          RemovalKeeps(c, dep);
        }
      case WriteStatus(dep, _) =>
        if served.cell != c {
          UpdateEvolves(c, Home(c).value.(status := dep.status));
          var c1 := c.(versions := Put(c.versions, Home(c).value.(status := dep.status)));
          if dep.status.phase.PhaseReady? {
            LogReadyKeeps(c1, StoredReady(dep.uid, ChartRef(c.memory.chart), c.trace));
          } else {
            assert c.log + [] == c.log;
            assert served.cell == c1;
          }
        }
    }
    AdvanceKeeps(cfg, served.cell, c.memory, served.reply, ch.now, c.trace + [Exchange(c.pc, served.reply, ch.now)]);
  }

  lemma StepKeeps(cfg: Config, s: State, a: Action)
    requires Inv(s.cell)
    ensures Inv(Step(cfg, s, a).cell)
  {
    var c := s.cell;
    match a {
      case Begin =>
        MoveKeeps(c, GetObject, []);
      case Crash(memory) =>
        MoveKeeps(c, Idle, []);
      case Interfere(_, _, _) =>
      case Op(ch) =>
        if c.pc.AtEdge? {
          var served := Serve(cfg.key.name, cfg.decode, SlotAt(s.shared, SlotId(c.pc.cluster, cfg.key.name)), c.pc.call, ch);
          if Creates(c.pc.call) {
            LogEffectKeeps(c, c.pc.cluster);
            var noted := c.(log := c.log + [Effect(c.pc.dep.uid, c.pc.dep.version, c.pc.cluster)]);
            AdvanceKeeps(cfg, noted, c.memory, served.reply, ch.now, c.trace + [Exchange(c.pc, served.reply, ch.now)]);
          } else {
            AdvanceKeeps(cfg, c, c.memory, served.reply, ch.now, c.trace + [Exchange(c.pc, served.reply, ch.now)]);
          }
        } else if c.pc.Lookup? || c.pc.LookupForDelete? {
          var a := SecretProvider.Answer(s.shared.cache, KeyOf(cfg, c.pc.dep), Uncached(cfg, s.shared, c.pc.dep, ch));
          var r := if a.Some? then Cluster(a.value) else Failed(ch.text);
          AdvanceKeeps(cfg, c, c.memory, r, ch.now, c.trace + [Exchange(c.pc, r, ch.now)]);
        } else if !Resting(c.pc) {
          HomeKeeps(cfg, s, ch);
        }
      case _ =>
        OutsideKeeps(c, a);
    }
  }

  lemma {:induction false} RunKeeps(cfg: Config, s: State, actions: seq<Action>)
    requires Inv(s.cell)
    ensures Inv(Run(cfg, s, actions).cell)
    decreases |actions|
  {
    if actions != [] {
      StepKeeps(cfg, s, actions[0]);
      RunKeeps(cfg, Step(cfg, s, actions[0]), actions[1..]);
    }
  }

  /** Every state of every run from the start satisfies the invariant. */
  lemma Reachable(cfg: Config, s0: State, actions: seq<Action>)
    requires Init(s0)
    ensures Inv(Run(cfg, s0, actions).cell)
  {
    RunKeeps(cfg, s0, actions);
  }

  // ---------------------------------------------------------------- the two safety theorems

  /** Finalizer before effects: in every run, whenever a step creates the edge namespace or installs or upgrades the
      release for an incarnation, the home store holds that incarnation with the operator's finalizer. */
  lemma FinalizerBeforeEffects(cfg: Config, s0: State, actions: seq<Action>, a: Action,
                               uid: nat, base: nat, cluster: string)
    requires Init(s0)
    requires var s := Run(cfg, s0, actions); Step(cfg, s, a).cell.log == s.cell.log + [Effect(uid, base, cluster)]
    ensures Guarded(Run(cfg, s0, actions).cell, uid)
  {
    var s := Run(cfg, s0, actions);
    Reachable(cfg, s0, actions);
    var log' := Step(cfg, s, a).cell.log;
    assert log'[|s.cell.log|] == Effect(uid, base, cluster);
    assert a.Op? && s.cell.pc.AtEdge? && Creates(s.cell.pc.call);
    LogEffectKeeps(s.cell, s.cell.pc.cluster);
  }

  /** The record of effects is complete: a step of the operator that leaves no such record makes no namespace, no
      release and no object appear anywhere, whatever a call that fails leaves behind. */
  lemma UnrecordedStepsCreateNothing(cfg: Config, s: State, ch: Choice, id: SlotId)
    requires s.cell.versions != []
    requires var log' := OpStep(cfg, s, ch).cell.log; |log'| > |s.cell.log| ==> !log'[|s.cell.log|].Effect?
    ensures var was, after := SlotAt(s.shared, id), SlotAt(OpStep(cfg, s, ch).shared, id);
      && (was.phase.NsAbsent? ==> after.phase.NsAbsent?)
      && (LiveRelease(was).None? ==> LiveRelease(after).None?)
      && LiveObjects(after) <= LiveObjects(was)
  {
    assert !(s.cell.pc.AtEdge? && Creates(s.cell.pc.call));
  }

  /** No resurrection: in every run, once an update of the delete path has removed an incarnation's finalizer, no
      later step creates a namespace or installs or upgrades a release for that incarnation. */
  lemma NoResurrection(cfg: Config, s0: State, actions: seq<Action>, i: nat, j: nat)
    requires Init(s0)
    requires var log := Run(cfg, s0, actions).cell.log;
      i < j < |log| && log[i].Removed? && log[j].Effect?
    ensures var log := Run(cfg, s0, actions).cell.log; log[i].uid != log[j].uid
  {
    Reachable(cfg, s0, actions);
  }
}
