/** Deleting: it cannot get stuck on the edge, it cleans up what was written, and repeating it does no harm. */
module Deletion {
  import opened Wrappers
  import opened Resources
  import opened Finalizers
  import opened Manifest
  import opened Edge
  import opened Machine
  import opened Safety
  import opened Progress
  import opened Convergence

  // ---------------------------------------------------------------- never wedged by the edge

  lemma RemovingGoesOn(cfg: Config, s: State, ch: Choice)
    requires s.cell.versions != [] && Removing(s.cell.pc) && !s.cell.pc.RemoveFinalizer?
    ensures var c' := OpStep(cfg, s, ch).cell;
      && Removing(c'.pc) && c'.pc.dep == s.cell.pc.dep
      && c'.versions == s.cell.versions && c'.seen == s.cell.seen && c'.log == s.cell.log && c'.memory == s.cell.memory
  {
  }

  /** From routing to the update: whatever the lookup and the edge calls answer, the delete path arrives at its home
      update, with the store untouched on the way. */
  function UpToUpdate(cfg: Config, s: State, choose: PC -> Choice): (r: State)
    requires s.cell.versions != [] && Removing(s.cell.pc)
    ensures r.cell.pc == if s.cell.pc.RemoveFinalizer? then s.cell.pc else Removal(s.cell.pc.dep)
    ensures r.cell.versions == s.cell.versions && r.cell.seen == s.cell.seen && r.cell.log == s.cell.log
    ensures Finish(cfg, s, choose) == Finish(cfg, r, choose)
    decreases Stage(s.cell.pc)
  {
    if s.cell.pc.RemoveFinalizer? then s
    else
      var ch := choose(s.cell.pc);
      RemovingGoesOn(cfg, s, ch);
      StepAdvances(cfg, s, ch);
      UpToUpdate(cfg, OpStep(cfg, s, ch), choose)
  }

  /** What an accepted removal leaves of an object: nothing if no one else holds it, else the others' entries. */
  predicate Released(o: Deployment, home: Option<Deployment>) {
    if Foreign(o.finalizers) == [] then home.None?
    else home.Some? && home.value == o.(finalizers := Foreign(o.finalizers), version := home.value.version)
  }

  lemma RemovalReleases(cfg: Config, s: State, ch: Choice)
    requires Inv(s.cell) && s.cell.pc.RemoveFinalizer? && Home(s.cell) == Some(s.cell.pc.dep)
    requires FINALIZER in s.cell.pc.dep.finalizers && (ch.fault.NoFault? || ch.fault.Lost?)
    ensures var c' := OpStep(cfg, s, ch).cell;
      && c'.versions != []
      && Released(s.cell.pc.dep, Home(c'))
      && c'.log == s.cell.log + [Removed(s.cell.pc.dep.uid)]
      && c'.pc == Returned(if ch.fault.NoFault? then 0 else 5 * SECOND)
  {
    var dep := s.cell.pc.dep;
    var o := Updated(dep, dep, Without(dep.finalizers, FINALIZER));
    assert o == dep.(finalizers := Foreign(dep.finalizers));
    assert FINALIZER !in o.finalizers;
  }

  /** Never wedged: under every combination of lookup and edge failures, one delete reconcile whose home read is
      current and whose home update is taken releases the object, exactly when its account name is set. */
  lemma DeleteNeverWedges(cfg: Config, s: State, choose: PC -> Choice)
    requires Inv(s.cell) && Resting(s.cell.pc)
    requires Home(s.cell).Some? && Home(s.cell).value.deleting && FINALIZER in Home(s.cell).value.finalizers
    requires Truthful(s, choose(GetObject))
    requires choose(Removal(Home(s.cell).value)).fault.NoFault?
    ensures var o, f := Home(s.cell).value, Finish(cfg, Step(cfg, s, Begin), choose);
      && (o.spec.account != "" <==> Released(o, Home(f.cell)))
      && (o.spec.account != "" ==> f.cell.pc == Returned(0) && f.cell.log == s.cell.log + [Removed(o.uid)])
      && (o.spec.account == "" ==> Home(f.cell).Some? && Home(f.cell).value.finalizers == o.finalizers)
  {
    var o := Home(s.cell).value;
    var s0 := Step(cfg, s, Begin);
    StepKeeps(cfg, s, Begin);
    var s1 := OpStep(cfg, s0, choose(GetObject));
    StepKeeps(cfg, s0, Op(choose(GetObject)));
    FinishSteps(cfg, s0, choose);
    assert Finish(cfg, s0, choose) == Finish(cfg, s1, choose);
    if o.spec.account != "" {
      assert s1.cell.pc == LookupForDelete(o);
      ReleaseAfter(cfg, s1, choose);
    } else {
      StuckAfter(cfg, s1, choose);
    }
  }

  lemma FinishSteps(cfg: Config, s: State, choose: PC -> Choice)
    requires s.cell.versions != [] && !Resting(s.cell.pc)
    ensures OpStep(cfg, s, choose(s.cell.pc)).cell.versions != []
    ensures Finish(cfg, s, choose) == Finish(cfg, OpStep(cfg, s, choose(s.cell.pc)), choose)
  {
    StepKeepsStore(cfg, s, Op(choose(s.cell.pc)));
  }

  lemma ReleaseAfter(cfg: Config, s: State, choose: PC -> Choice)
    requires Inv(s.cell) && s.cell.pc.LookupForDelete? && Home(s.cell) == Some(s.cell.pc.dep)
    requires FINALIZER in s.cell.pc.dep.finalizers && choose(Removal(s.cell.pc.dep)).fault.NoFault?
    ensures var o, f := s.cell.pc.dep, Finish(cfg, s, choose);
      Released(o, Home(f.cell)) && f.cell.pc == Returned(0) && f.cell.log == s.cell.log + [Removed(o.uid)]
  {
    hide OpStep;
    var m := UpToUpdate(cfg, s, choose);
    UpToUpdateKeeps(cfg, s, choose);
    var ch := choose(Removal(s.cell.pc.dep));
    RemovalReleases(cfg, m, ch);
    FinishSteps(cfg, m, choose);
  }

  lemma {:induction false} UpToUpdateKeeps(cfg: Config, s: State, choose: PC -> Choice)
    requires Inv(s.cell) && Removing(s.cell.pc)
    ensures Inv(UpToUpdate(cfg, s, choose).cell)
    decreases Stage(s.cell.pc)
  {
    if !s.cell.pc.RemoveFinalizer? {
      var ch := choose(s.cell.pc);
      RemovingGoesOn(cfg, s, ch);
      StepAdvances(cfg, s, ch);
      StepKeeps(cfg, s, Op(ch));
      UpToUpdateKeeps(cfg, OpStep(cfg, s, ch), choose);
    }
  }

  lemma StuckAfter(cfg: Config, s: State, choose: PC -> Choice)
    requires Inv(s.cell) && s.cell.pc.WriteStatus? && Home(s.cell).Some? && FINALIZER in Home(s.cell).value.finalizers
    ensures var f := Finish(cfg, s, choose);
      Home(f.cell).Some? && Home(f.cell).value.finalizers == Home(s.cell).value.finalizers
  {
    FinishSteps(cfg, s, choose);
    var c := ServeHome(s.cell, choose(s.cell.pc)).cell;
    assert Home(c).Some? && Home(c).value.finalizers == Home(s.cell).value.finalizers;
  }

  // ---------------------------------------------------------------- trying again

  /** A namespace with nothing in it to delete. */
  predicate Clean(sl: Slot) {
    !sl.phase.NsActive? && LiveRelease(sl).None?
  }

  /** The edge of the delete path is reached and answers. */
  ghost predicate EdgeWorks(cfg: Config, s: State, dep: Deployment, cluster: string, choose: PC -> Choice) {
    && Target(cfg, s.shared, dep) == Some(cluster)
    && forall pc :: Removing(pc) && !pc.RemoveFinalizer? ==> choose(pc).fault.NoFault?
  }

  /** A delete pass whose edge calls go through arrives at its update with the target namespace clean and the cluster
      cached. */
  lemma FirstPass(cfg: Config, s: State, choose: PC -> Choice, cluster: string) returns (m: State)
    requires s.cell.versions != [] && s.cell.pc.LookupForDelete?
    requires EdgeWorks(cfg, s, s.cell.pc.dep, cluster, choose)
    ensures m.cell.pc == Removal(s.cell.pc.dep)
    ensures m.cell.versions == s.cell.versions && m.cell.seen == s.cell.seen && m.cell.log == s.cell.log
    ensures Finish(cfg, s, choose) == Finish(cfg, m, choose)
    ensures Clean(SlotAt(m.shared, SlotId(cluster, cfg.key.name)))
    ensures Cached(cfg, m.shared, s.cell.pc.dep, cluster)
  {
    var dep := s.cell.pc.dep;
    FinishSteps(cfg, s, choose);
    var s1 := OpStep(cfg, s, choose(s.cell.pc));
    assert s1.cell.pc == AtEdge(dep, cluster, DeleteHistory) && Cached(cfg, s1.shared, dep, cluster);
    m := EdgePass(cfg, s1, choose);
  }

  predicate Cached(cfg: Config, sh: Shared, dep: Deployment, cluster: string) {
    KeyOf(cfg, dep) in sh.cache && sh.cache[KeyOf(cfg, dep)] == cluster
  }

  /** The three delete calls, answered. */
  lemma DeleteServes(ns: string, decode: Decoder, sl: Slot, ch: Choice)
    requires ch.fault.NoFault?
    ensures Serve(ns, decode, sl, DeleteHistory, ch) == Served(if LiveRelease(sl).Some? then Ok else NotFound, sl)
    ensures LiveRelease(sl).Some? ==> LiveRelease(Serve(ns, decode, sl, Uninstall, ch).slot).None?
    ensures LiveRelease(sl).None? ==> Clean(Serve(ns, decode, sl, DeleteNamespace, ch).slot)
  {
  }

  /** The history, and the uninstall if there is one to make: no live release is left. */
  lemma Uninstalls(cfg: Config, s: State, choose: PC -> Choice) returns (m: State)
    requires s.cell.versions != [] && s.cell.pc.AtEdge? && s.cell.pc.call.DeleteHistory?
    requires forall pc :: Removing(pc) && !pc.RemoveFinalizer? ==> choose(pc).fault.NoFault?
    ensures m.cell.pc == AtEdge(s.cell.pc.dep, s.cell.pc.cluster, DeleteNamespace)
    ensures m.cell.versions == s.cell.versions && m.cell.seen == s.cell.seen && m.cell.log == s.cell.log
    ensures Finish(cfg, s, choose) == Finish(cfg, m, choose)
    ensures LiveRelease(SlotAt(m.shared, SlotId(s.cell.pc.cluster, cfg.key.name))).None? && m.shared.cache == s.shared.cache
  {
    hide Serve, LiveRelease;
    var id := SlotId(s.cell.pc.cluster, cfg.key.name);
    DeleteServes(cfg.key.name, cfg.decode, SlotAt(s.shared, id), choose(s.cell.pc));
    m := RemovingStep(cfg, s, choose);
    if LiveRelease(SlotAt(s.shared, id)).Some? {
      DeleteServes(cfg.key.name, cfg.decode, SlotAt(m.shared, id), choose(m.cell.pc));
      m := RemovingStep(cfg, m, choose);
    }
  }

  lemma EdgePass(cfg: Config, s: State, choose: PC -> Choice) returns (m: State)
    requires s.cell.versions != [] && s.cell.pc.AtEdge? && s.cell.pc.call.DeleteHistory?
    requires forall pc :: Removing(pc) && !pc.RemoveFinalizer? ==> choose(pc).fault.NoFault?
    ensures m.cell.pc == Removal(s.cell.pc.dep)
    ensures m.cell.versions == s.cell.versions && m.cell.seen == s.cell.seen && m.cell.log == s.cell.log
    ensures Finish(cfg, s, choose) == Finish(cfg, m, choose)
    ensures Clean(SlotAt(m.shared, SlotId(s.cell.pc.cluster, cfg.key.name))) && m.shared.cache == s.shared.cache
  {
    hide Serve, LiveRelease, Clean;
    var s1 := Uninstalls(cfg, s, choose);
    DeleteServes(cfg.key.name, cfg.decode, SlotAt(s1.shared, SlotId(s.cell.pc.cluster, cfg.key.name)), choose(s1.cell.pc));
    m := RemovingStep(cfg, s1, choose);
  }

  lemma RemovingStep(cfg: Config, s: State, choose: PC -> Choice) returns (m: State)
    requires s.cell.versions != [] && Removing(s.cell.pc) && s.cell.pc.AtEdge? && choose(s.cell.pc).fault.NoFault?
    ensures m.cell.versions == s.cell.versions && m.cell.seen == s.cell.seen && m.cell.log == s.cell.log
    ensures Finish(cfg, s, choose) == Finish(cfg, m, choose)
    ensures var served := Serve(cfg.key.name, cfg.decode, SlotAt(s.shared, SlotId(s.cell.pc.cluster, cfg.key.name)),
                                s.cell.pc.call, choose(s.cell.pc));
      && m.cell.pc == (match s.cell.pc.call
           case DeleteHistory => AtEdge(s.cell.pc.dep, s.cell.pc.cluster, if served.reply.Ok? then Uninstall else DeleteNamespace)
           case Uninstall => AtEdge(s.cell.pc.dep, s.cell.pc.cluster, DeleteNamespace)
           case _ => Removal(s.cell.pc.dep))
      && SlotAt(m.shared, SlotId(s.cell.pc.cluster, cfg.key.name)) == served.slot
      && m.shared.cache == s.shared.cache
  {
    FinishSteps(cfg, s, choose);
    m := OpStep(cfg, s, choose(s.cell.pc));
  }

  /** The point of a delete pass over a clean target: it has nothing to uninstall there and goes nowhere else. */
  predicate OverClean(cfg: Config, s: State, cluster: string) {
    && Removing(s.cell.pc)
    && Cached(cfg, s.shared, s.cell.pc.dep, cluster)
    && (s.cell.pc.AtEdge? ==> s.cell.pc.cluster == cluster && !s.cell.pc.call.Uninstall?)
    && Clean(SlotAt(s.shared, SlotId(cluster, cfg.key.name)))
  }

  lemma OverCleanStep(cfg: Config, s: State, ch: Choice, cluster: string, id: SlotId)
    requires s.cell.versions != [] && OverClean(cfg, s, cluster)
    ensures var s' := OpStep(cfg, s, ch);
      SlotAt(s'.shared, id) == SlotAt(s.shared, id) && (s.cell.pc.RemoveFinalizer? || OverClean(cfg, s', cluster))
  {
  }

  /** A delete pass over a clean target changes no namespace anywhere, whatever its calls answer. */
  lemma {:induction false} SecondPass(cfg: Config, s: State, choose: PC -> Choice, cluster: string, id: SlotId)
    requires s.cell.versions != [] && OverClean(cfg, s, cluster)
    ensures SlotAt(Finish(cfg, s, choose).shared, id) == SlotAt(s.shared, id)
    decreases Stage(s.cell.pc)
  {
    var ch := choose(s.cell.pc);
    FinishSteps(cfg, s, choose);
    OverCleanStep(cfg, s, ch, cluster, id);
    StepAdvances(cfg, s, ch);
    if !s.cell.pc.RemoveFinalizer? {
      SecondPass(cfg, OpStep(cfg, s, ch), choose, cluster, id);
    }
  }

  /** An update with this fault takes effect, whatever it reports. */
  predicate Takes(ch: Choice) {
    ch.fault.NoFault? || ch.fault.Lost?
  }

  /** What a delete pass does to the stored object, from its routing on. */
  lemma PassUpdates(cfg: Config, s: State, choose: PC -> Choice)
    requires Inv(s.cell) && s.cell.pc.LookupForDelete?
    ensures var dep, f := s.cell.pc.dep, Finish(cfg, s, choose);
      && f.cell.pc.Returned? && f.cell.seen == s.cell.seen
      && f.cell.versions ==
           if Takes(choose(Removal(dep))) && Accepts(s.cell, dep)
           then Put(s.cell.versions, dep.(finalizers := Foreign(dep.finalizers)))
           else s.cell.versions
  {
    hide Serve, ReactAtEdge, Without;
    var dep := s.cell.pc.dep;
    var m := UpToUpdate(cfg, s, choose);
    FinishSteps(cfg, m, choose);
    assert Accepts(s.cell, dep) ==> Home(s.cell) == Some(dep);
    assert Accepts(s.cell, dep) ==> Updated(dep, dep, Foreign(dep.finalizers)) == dep.(finalizers := Foreign(dep.finalizers));
  }

  /** Time passes between two reconciles: the namespace controller may have finished with the target namespace. */
  function Meanwhile(cfg: Config, s: State, cluster: string, finished: bool): State {
    var id := SlotId(cluster, cfg.key.name);
    if finished then s.(shared := s.shared.(slots := s.shared.slots[id := Finalized(SlotAt(s.shared, id))])) else s
  }

  /** What the second pass may read: the object as the first one held it, or as its update left it. */
  ghost predicate StillDeleting(c: Cell, o: Deployment) {
    && StoreOk(c)
    && forall i :: c.seen <= i < |c.versions| && c.versions[i].Some? ==>
         c.versions[i].value.deleting && c.versions[i].value.spec == o.spec
  }

  /** The second pass as a whole, from the work queue on. */
  lemma SecondReconcile(cfg: Config, s: State, choose: PC -> Choice, o: Deployment, cluster: string, id: SlotId)
    requires Inv(s.cell) && Resting(s.cell.pc) && StillDeleting(s.cell, o) && o.spec.account != ""
    requires Cached(cfg, s.shared, o, cluster) && Clean(SlotAt(s.shared, SlotId(cluster, cfg.key.name)))
    ensures SlotAt(Finish(cfg, Step(cfg, s, Begin), choose).shared, id) == SlotAt(s.shared, id)
  {
    var s0 := Step(cfg, s, Begin);
    StepKeepsStore(cfg, s, Begin);
    FinishSteps(cfg, s0, choose);
    var s1 := OpStep(cfg, s0, choose(GetObject));
    if s1.cell.pc.LookupForDelete? {
      SecondPass(cfg, s1, choose, cluster, id);
    } else {
      assert Resting(s1.cell.pc);
    }
  }

  /** Trying again is harmless, and enough: a delete reconcile whose edge calls go through and whose home update may fail
      in any way is followed by another one whose calls answer as they like. The second changes no namespace anywhere;
      and the object is released in the end iff either update was taken. */
  lemma RepeatedDeleteIsHarmless(cfg: Config, s: State, first: PC -> Choice, finished: bool, second: PC -> Choice,
                                 cluster: string, id: SlotId)
    requires Inv(s.cell) && Resting(s.cell.pc)
    requires Home(s.cell).Some? && Home(s.cell).value.deleting && FINALIZER in Home(s.cell).value.finalizers
    requires Home(s.cell).value.spec.account != "" && Truthful(s, first(GetObject))
    requires EdgeWorks(cfg, s, Home(s.cell).value, cluster, first)
    ensures var o := Home(s.cell).value;
      var f := Finish(cfg, Step(cfg, s, Begin), first);
      var m := Meanwhile(cfg, f, cluster, finished);
      var g := Finish(cfg, Step(cfg, m, Begin), second);
      && Clean(SlotAt(f.shared, SlotId(cluster, cfg.key.name)))
      && SlotAt(g.shared, id) == SlotAt(m.shared, id)
      && (Released(o, Home(g.cell)) <==>
            Takes(first(Removal(o))) || (second(GetObject).fault.NoFault? && Takes(second(Removal(o)))))
  {
    hide OpStep, React, Serve, Target, Without, CopyOk, Run, Released, Finish;
    var o := Home(s.cell).value;
    var s1 := DeleteBegins(cfg, s, first);
    var f := Finish(cfg, Step(cfg, s, Begin), first);
    var m := Meanwhile(cfg, f, cluster, finished);
    AfterFirst(cfg, s1, first, cluster);
    SecondReconcile(cfg, m, second, o, cluster, id);
    SecondReleases(cfg, m, second, o, Takes(first(Removal(o))));
  }

  /** The way from the work queue to routing. */
  lemma DeleteBegins(cfg: Config, s: State, choose: PC -> Choice) returns (m: State)
    requires Inv(s.cell) && Resting(s.cell.pc) && Home(s.cell).Some? && Truthful(s, choose(GetObject))
    requires Home(s.cell).value.deleting && Home(s.cell).value.spec.account != ""
    ensures Inv(m.cell) && m.cell.pc == LookupForDelete(Home(s.cell).value) && m.shared == s.shared
    ensures m.cell.versions == s.cell.versions && m.cell.seen == |s.cell.versions| - 1
    ensures Finish(cfg, Step(cfg, s, Begin), choose) == Finish(cfg, m, choose)
  {
    var s0 := Step(cfg, s, Begin);
    StepKeeps(cfg, s, Begin);
    StepKeeps(cfg, s0, Op(choose(GetObject)));
    FinishSteps(cfg, s0, choose);
    m := OpStep(cfg, s0, choose(GetObject));
  }

  lemma AfterFirst(cfg: Config, s: State, choose: PC -> Choice, cluster: string)
    requires Inv(s.cell) && s.cell.pc.LookupForDelete? && Home(s.cell) == Some(s.cell.pc.dep)
    requires FINALIZER in s.cell.pc.dep.finalizers && s.cell.seen == |s.cell.versions| - 1
    requires EdgeWorks(cfg, s, s.cell.pc.dep, cluster, choose)
    ensures var o, f := s.cell.pc.dep, Finish(cfg, s, choose);
      && Inv(f.cell) && Resting(f.cell.pc) && StillDeleting(f.cell, o)
      && Cached(cfg, f.shared, o, cluster) && Clean(SlotAt(f.shared, SlotId(cluster, cfg.key.name)))
      && f.cell.seen == s.cell.seen
      && if Takes(choose(Removal(o))) then Released(o, Home(f.cell)) else f.cell.versions == s.cell.versions
  {
    hide Serve, ReactAtEdge, Target, Clean, Without;
    var o := s.cell.pc.dep;
    var m := FirstPass(cfg, s, choose, cluster);
    FinishSteps(cfg, m, choose);
    FinishKeeps(cfg, s, choose);
    PassUpdates(cfg, s, choose);
    assert Accepts(s.cell, o);
    UpdateReleases(s.cell, o, Finish(cfg, s, choose).cell);
  }

  /** The update of the first pass, taken or not, leaves the object deleting and routed as it was. */
  lemma UpdateReleases(c: Cell, o: Deployment, c': Cell)
    requires Inv(c) && Home(c) == Some(o) && o.deleting && c.seen == |c.versions| - 1
    requires Inv(c') && c'.seen == c.seen
    requires c'.versions == c.versions || c'.versions == Put(c.versions, o.(finalizers := Foreign(o.finalizers)))
    ensures StillDeleting(c', o)
    ensures FINALIZER in o.finalizers && c'.versions == Put(c.versions, o.(finalizers := Foreign(o.finalizers))) ==>
      Released(o, Home(c'))
  {
  }

  lemma {:induction false} FinishKeeps(cfg: Config, s: State, choose: PC -> Choice)
    requires Inv(s.cell)
    ensures Inv(Finish(cfg, s, choose).cell)
    decreases Stage(s.cell.pc), Left(s.cell.pc)
  {
    hide OpStep;
    if !Resting(s.cell.pc) {
      var ch := choose(s.cell.pc);
      FinishSteps(cfg, s, choose);
      StepAdvances(cfg, s, ch);
      StepKeeps(cfg, s, Op(ch));
      FinishKeeps(cfg, OpStep(cfg, s, ch), choose);
    }
  }

  /** The second update counts only if the first was not taken. */
  lemma SecondReleases(cfg: Config, s: State, choose: PC -> Choice, o: Deployment, already: bool)
    requires Inv(s.cell) && Resting(s.cell.pc) && StillDeleting(s.cell, o)
    requires FINALIZER in o.finalizers && o.spec.account != "" && o.deleting
    requires if already then Released(o, Home(s.cell)) else Home(s.cell) == Some(o) && s.cell.seen == |s.cell.versions| - 1
    ensures Released(o, Home(Finish(cfg, Step(cfg, s, Begin), choose).cell)) <==>
            already || (choose(GetObject).fault.NoFault? && Takes(choose(Removal(o))))
  {
    hide Serve, ReactAtEdge, Without, Finish, Released, CopyOk;
    var s1 := SecondReads(cfg, s, choose, o);
    if s1.cell.pc.LookupForDelete? {
      PassUpdates(cfg, s1, choose);
      UpdateSettles(s1.cell, o, Finish(cfg, s1, choose).cell, already, Takes(choose(Removal(s1.cell.pc.dep))));
    } else if !already {
      NotReleased(o, s.cell);
    }
  }

  lemma NotReleased(o: Deployment, c: Cell)
    requires c.versions != [] && Home(c) == Some(o) && FINALIZER in o.finalizers
    ensures !Released(o, Home(c))
  {
  }

  /** The read of the second pass: nothing, or the object still deleting. */
  lemma SecondReads(cfg: Config, s: State, choose: PC -> Choice, o: Deployment) returns (m: State)
    requires Inv(s.cell) && Resting(s.cell.pc) && StillDeleting(s.cell, o) && o.spec.account != ""
    ensures Inv(m.cell) && (m.cell.pc.LookupForDelete? || m.cell.pc.Returned?)
    ensures m.cell.versions == s.cell.versions && s.cell.seen <= m.cell.seen
    ensures choose(GetObject).fault.NoFault? && Home(s.cell).Some? && s.cell.seen == |s.cell.versions| - 1 ==>
      m.cell.pc.LookupForDelete?
    ensures m.cell.pc.LookupForDelete? ==> choose(GetObject).fault.NoFault?
    ensures Finish(cfg, Step(cfg, s, Begin), choose) == Finish(cfg, m, choose)
    ensures m.cell.pc.Returned? ==> Finish(cfg, m, choose) == m
  {
    var s0 := Step(cfg, s, Begin);
    StepKeeps(cfg, s, Begin);
    StepKeeps(cfg, s0, Op(choose(GetObject)));
    FinishSteps(cfg, s0, choose);
    m := OpStep(cfg, s0, choose(GetObject));
  }

  /** An update over the object as released changes nothing; one over the object as it was releases it. */
  lemma UpdateSettles(c: Cell, o: Deployment, c': Cell, already: bool, takes: bool)
    requires Inv(c) && c.pc.LookupForDelete? && c'.versions != []
    requires FINALIZER in o.finalizers && o.deleting
    requires if already then Released(o, Home(c)) else Home(c) == Some(o) && c.seen == |c.versions| - 1
    requires var d := c.pc.dep;
      c'.versions == if takes && Accepts(c, d) then Put(c.versions, d.(finalizers := Foreign(d.finalizers))) else c.versions
    ensures Released(o, Home(c')) <==> already || takes
    ensures !already ==> c.pc.dep == o
  {
    var d := c.pc.dep;
    if already && Accepts(c, d) {
      assert Home(c) == Some(d) && Foreign(d.finalizers) == d.finalizers;
      assert d.(finalizers := Foreign(d.finalizers)) == d;
    }
  }
}
