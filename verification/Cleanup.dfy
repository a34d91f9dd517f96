/** Everything written for an incarnation is on the cluster its deletion cleans up, as long as its routing stayed the
    same from the first effect on; and what a stale copy does to it if not. */
module Cleanup {
  import opened Wrappers
  import opened Resources
  import opened Drift
  import opened Routing
  import opened Edge
  import opened Machine
  import opened Safety
  import SecretProvider

  // ---------------------------------------------------------------- one incarnation over time

  predicate SameIncarnation(x: Option<Deployment>, y: Option<Deployment>) {
    x.Some? && y.Some? && x.value.uid == y.value.uid
  }

  /** Within an incarnation the deletion mark stays, and the finalizer does until there is one. */
  predicate Ages(was: Deployment, now: Deployment) {
    && (was.deleting ==> now.deleting)
    && (FINALIZER in was.finalizers && !now.deleting ==> FINALIZER in now.finalizers)
  }

  ghost predicate StoreAges(c: Cell) {
    forall i, j :: 0 <= i <= j < |c.versions| && SameIncarnation(c.versions[i], c.versions[j]) ==>
      Ages(c.versions[i].value, c.versions[j].value)
  }

  /** No version of the incarnation that could be read before this one carries the finalizer. */
  ghost predicate FirstGuarded(c: Cell, uid: nat, base: nat) {
    forall i :: c.seen <= i < |c.versions| && i < base && c.versions[i].Some? && c.versions[i].value.uid == uid ==>
      FINALIZER !in c.versions[i].value.finalizers
  }

  /** A version an effect was based on. */
  ghost predicate BaseOk(c: Cell, uid: nat, base: nat) {
    && base < |c.versions| && c.versions[base].Some? && c.versions[base].value.uid == uid
    && FINALIZER in c.versions[base].value.finalizers
    && FirstGuarded(c, uid, base)
  }

  /** Effects on one incarnation are based on ever later versions. */
  ghost predicate BasesAscend(log: seq<Record>) {
    forall j, k :: 0 <= j < k < |log| && log[j].Effect? && log[k].Effect? && log[j].uid == log[k].uid ==>
      log[j].base <= log[k].base
  }

  ghost predicate CopyFirst(c: Cell) {
    c.pc.Lookup? || (c.pc.AtEdge? && !ForDelete(c.pc.call)) ==> FirstGuarded(c, c.pc.dep.uid, c.pc.dep.version)
  }

  ghost predicate Aging(c: Cell) {
    && StoreAges(c)
    && CopyFirst(c)
    && (forall k :: 0 <= k < |c.log| && c.log[k].Effect? ==> BaseOk(c, c.log[k].uid, c.log[k].base))
    && BasesAscend(c.log)
  }

  /** What a step may do to the store: at most one version more, of the same incarnation or of a new one. */
  ghost predicate Grows(c: Cell, c': Cell) {
    && c.versions != []
    && c.versions <= c'.versions && |c'.versions| <= |c.versions| + 1
    && c.seen <= c'.seen
    && (|c'.versions| > |c.versions| && c'.versions[|c.versions|].Some? ==>
          var x := c'.versions[|c.versions|].value;
          if Home(c).Some? then x.uid == Home(c).value.uid && Ages(Home(c).value, x) else x.uid == c.nextUid)
  }

  lemma HomeGrows(c: Cell, ch: Choice)
    requires Inv(c)
    ensures Grows(c, ServeHome(c, ch).cell)
  {
  }

  lemma OutsideGrows(c: Cell, a: Action)
    requires Inv(c)
    ensures Grows(c, OutsideHome(c, a))
  {
  }

  lemma StepGrows(cfg: Config, s: State, a: Action)
    requires Inv(s.cell)
    ensures Grows(s.cell, Step(cfg, s, a).cell)
  {
    hide ServeHome, OutsideHome, React, Serve;
    OutsideGrows(s.cell, a);
    if a.Op? {
      HomeGrows(s.cell, a.ch);
    }
  }

  lemma GrowthAges(c: Cell, c': Cell)
    requires Inv(c) && Grows(c, c') && StoreAges(c)
    ensures StoreAges(c')
  {
    forall i, j | 0 <= i <= j < |c'.versions| && SameIncarnation(c'.versions[i], c'.versions[j])
      ensures Ages(c'.versions[i].value, c'.versions[j].value)
    {
      if j < |c.versions| {
        assert SameIncarnation(c.versions[i], c.versions[j]);
      } else if i < |c.versions| {
        assert SameIncarnation(c.versions[i], Home(c));
      }
    }
  }

  lemma GrowthKeepsBase(c: Cell, c': Cell, uid: nat, base: nat)
    requires Grows(c, c') && base < |c.versions| && FirstGuarded(c, uid, base)
    ensures FirstGuarded(c', uid, base)
  {
  }

  /** A copy that stays what it was is still the first one guarded. */
  lemma SameCopyFirst(c: Cell, c': Cell)
    requires Inv(c) && CopyFirst(c) && Grows(c, c')
    requires (c'.pc.Lookup? || (c'.pc.AtEdge? && !ForDelete(c'.pc.call))) ==>
      (c.pc.Lookup? || (c.pc.AtEdge? && !ForDelete(c.pc.call))) && c'.pc.dep == c.pc.dep
    ensures CopyFirst(c')
  {
    if c'.pc.Lookup? || (c'.pc.AtEdge? && !ForDelete(c'.pc.call)) {
      GrowthKeepsBase(c, c', c.pc.dep.uid, c.pc.dep.version);
    }
  }

  lemma ReadComesFirst(cfg: Config, s: State, ch: Choice)
    requires Inv(s.cell) && s.cell.pc.GetObject?
    ensures CopyFirst(OpStep(cfg, s, ch).cell)
  {
  }

  lemma EdgeKeepsCopy(cfg: Config, s: State, ch: Choice)
    requires Inv(s.cell) && s.cell.pc.AtEdge?
    ensures var pc, pc' := s.cell.pc, OpStep(cfg, s, ch).cell.pc;
      !pc'.Lookup? && (pc'.AtEdge? ==> pc'.dep == pc.dep && ForDelete(pc'.call) == ForDelete(pc.call))
  {
    hide Serve;
    var pc := s.cell.pc;
    var served := Serve(cfg.key.name, cfg.decode, SlotAt(s.shared, SlotId(pc.cluster, cfg.key.name)), pc.call, ch);
    ReactAtEdgeCarries(cfg, s.cell.memory, pc.dep, pc.cluster, pc.call, served.reply, ch.now);
  }

  lemma OtherKeepsCopy(cfg: Config, s: State, ch: Choice)
    requires s.cell.versions != [] && !s.cell.pc.AtEdge? && !s.cell.pc.GetObject? && !s.cell.pc.AddFinalizer?
    ensures var pc, pc' := s.cell.pc, OpStep(cfg, s, ch).cell.pc;
      pc'.Lookup? || (pc'.AtEdge? && !ForDelete(pc'.call)) ==> pc.Lookup? && pc'.dep == pc.dep
  {
  }

  /** Where the copy of the apply path comes from: a read, or the finalizer update of the current version. */
  lemma StepKeepsCopyFirst(cfg: Config, s: State, a: Action)
    requires Inv(s.cell) && StoreAges(s.cell) && CopyFirst(s.cell)
    ensures CopyFirst(Step(cfg, s, a).cell)
  {
    hide OpStep, StoreAges, CopyFirst, Grows;
    StepGrows(cfg, s, a);
    if a.Op? {
      assert s.cell.versions != [];
      if s.cell.pc.GetObject? {
        ReadComesFirst(cfg, s, a.ch);
      } else if s.cell.pc.AddFinalizer? {
        AdditionComesFirst(cfg, s, a.ch);
      } else {
        if s.cell.pc.AtEdge? {
          EdgeKeepsCopy(cfg, s, a.ch);
        } else {
          OtherKeepsCopy(cfg, s, a.ch);
        }
        SameCopyFirst(s.cell, OpStep(cfg, s, a.ch).cell);
      }
    } else {
      SameCopyFirst(s.cell, Step(cfg, s, a).cell);
    }
  }

  lemma AdditionComesFirst(cfg: Config, s: State, ch: Choice)
    requires Inv(s.cell) && StoreAges(s.cell) && s.cell.pc.AddFinalizer?
    ensures CopyFirst(OpStep(cfg, s, ch).cell)
  {
    var c, c' := s.cell, OpStep(cfg, s, ch).cell;
    if c'.pc.Lookup? {
      assert Home(c) == Some(c.pc.dep) && c'.pc.dep.version == |c.versions|;
      forall i | 0 <= i < |c.versions| && c.versions[i].Some? && c.versions[i].value.uid == c.pc.dep.uid
        ensures FINALIZER !in c.versions[i].value.finalizers
      {
        assert SameIncarnation(c.versions[i], Home(c));
      }
    }
  }

  /** The record an operator step adds to the log, if any, is about its copy. */
  lemma EffectIsOfCopy(cfg: Config, s: State, a: Action)
    requires Inv(s.cell)
    ensures var c, c' := s.cell, Step(cfg, s, a).cell;
      && c.log <= c'.log && |c'.log| <= |c.log| + 1
      && (|c'.log| > |c.log| && c'.log[|c.log|].Effect? ==>
            && c.pc.AtEdge? && !ForDelete(c.pc.call)
            && c'.log[|c.log|] == Effect(c.pc.dep.uid, c.pc.dep.version, c.pc.cluster))
  {
  }

  lemma StepKeepsAging(cfg: Config, s: State, a: Action)
    requires Inv(s.cell) && Aging(s.cell)
    ensures Aging(Step(cfg, s, a).cell)
  {
    hide Step;
    var c, c' := s.cell, Step(cfg, s, a).cell;
    StepGrows(cfg, s, a);
    GrowthAges(c, c');
    StepKeepsCopyFirst(cfg, s, a);
    EffectIsOfCopy(cfg, s, a);
    EffectsKeepBases(c, c');
  }

  lemma EffectsKeepBases(c: Cell, c': Cell)
    requires Inv(c) && Aging(c) && Grows(c, c')
    requires c.log <= c'.log && |c'.log| <= |c.log| + 1
    requires |c'.log| > |c.log| && c'.log[|c.log|].Effect? ==>
      && c.pc.AtEdge? && !ForDelete(c.pc.call)
      && c'.log[|c.log|] == Effect(c.pc.dep.uid, c.pc.dep.version, c.pc.cluster)
    ensures forall k :: 0 <= k < |c'.log| && c'.log[k].Effect? ==> BaseOk(c', c'.log[k].uid, c'.log[k].base)
    ensures BasesAscend(c'.log)
  {
    forall k | 0 <= k < |c'.log| && c'.log[k].Effect?
      ensures BaseOk(c', c'.log[k].uid, c'.log[k].base)
    {
      assert k < |c.log| ==> c'.log[k] == c.log[k];
      assert BaseOk(c, c'.log[k].uid, c'.log[k].base);
      GrowthKeepsBase(c, c', c'.log[k].uid, c'.log[k].base);
    }
    forall j, k | 0 <= j < k < |c'.log| && c'.log[j].Effect? && c'.log[k].Effect? && c'.log[j].uid == c'.log[k].uid
      ensures c'.log[j].base <= c'.log[k].base
    {
      assert c'.log[j] == c.log[j];
      assert BaseOk(c, c.log[j].uid, c.log[j].base);
      if k == |c.log| {
        assert c.versions[c.pc.dep.version] == Some(c.pc.dep);
      } else {
        assert c'.log[k] == c.log[k];
      }
    }
  }

  lemma {:induction false} RunKeepsAging(cfg: Config, s: State, actions: seq<Action>)
    requires Inv(s.cell) && Aging(s.cell)
    ensures Aging(Run(cfg, s, actions).cell)
    decreases |actions|
  {
    if actions != [] {
      StepKeepsAging(cfg, s, actions[0]);
      StepKeeps(cfg, s, actions[0]);
      RunKeepsAging(cfg, Step(cfg, s, actions[0]), actions[1..]);
    }
  }

  // ---------------------------------------------------------------- one routing key

  /** The key means this cluster, in the cache and by its Secret, if it means one at all. */
  predicate Means(cfg: Config, sh: Shared, key: string, cluster: string) {
    && (key in sh.cache ==> sh.cache[key] == cluster)
    && (Reach(cfg, sh, key).Some? ==> Reach(cfg, sh, key).value == cluster)
  }

  /** It does so all along a run. Nothing is said of any other key. */
  ghost predicate Pinned(cfg: Config, s: State, actions: seq<Action>, key: string, cluster: string)
    requires s.cell.versions != []
    decreases |actions|
  {
    && Means(cfg, s.shared, key, cluster)
    && (actions == [] ||
        (StepKeepsStore(cfg, s, actions[0]); Pinned(cfg, Step(cfg, s, actions[0]), actions[1..], key, cluster)))
  }

  /** What was done for the incarnation under the key, and is being done, is done on the cluster. */
  ghost predicate Settled(cfg: Config, c: Cell, uid: nat, key: string, cluster: string) {
    && (c.pc.AtEdge? && c.pc.dep.uid == uid && KeyOf(cfg, c.pc.dep) == key ==> c.pc.cluster == cluster)
    && forall k :: 0 <= k < |c.log| && c.log[k].Effect? && c.log[k].uid == uid ==>
         BasedUnder(cfg, c, c.log[k].base, key) ==> c.log[k].cluster == cluster
  }

  predicate BasedUnder(cfg: Config, c: Cell, base: nat, key: string) {
    base < |c.versions| && c.versions[base].Some? && KeyOf(cfg, c.versions[base].value) == key
  }

  lemma StepKeepsPlace(cfg: Config, s: State, a: Action, uid: nat, key: string, cluster: string)
    requires Inv(s.cell) && Means(cfg, s.shared, key, cluster)
    requires s.cell.pc.AtEdge? && s.cell.pc.dep.uid == uid && KeyOf(cfg, s.cell.pc.dep) == key ==> s.cell.pc.cluster == cluster
    ensures var c' := Step(cfg, s, a).cell;
      c'.pc.AtEdge? && c'.pc.dep.uid == uid && KeyOf(cfg, c'.pc.dep) == key ==> c'.pc.cluster == cluster
  {
    var c := s.cell;
    if a.Op? && c.pc.AtEdge? {
      var served := Serve(cfg.key.name, cfg.decode, SlotAt(s.shared, SlotId(c.pc.cluster, cfg.key.name)), c.pc.call, a.ch);
      ReactAtEdgeCarries(cfg, c.memory, c.pc.dep, c.pc.cluster, c.pc.call, served.reply, a.ch.now);
      StaysOnCluster(cfg, c.memory, c.pc.dep, c.pc.cluster, c.pc.call, served.reply, a.ch.now);
    }
  }

  lemma StaysOnCluster(cfg: Config, mem: Memory, dep: Deployment, c: string, call: EdgeCall, r: Reply, now: int)
    ensures var pc := ReactAtEdge(cfg, mem, dep, c, call, r, now); pc.AtEdge? ==> pc.cluster == c
  {
  }

  lemma StepKeepsSettled(cfg: Config, s: State, a: Action, uid: nat, key: string, cluster: string)
    requires Inv(s.cell) && Aging(s.cell) && Means(cfg, s.shared, key, cluster) && Settled(cfg, s.cell, uid, key, cluster)
    ensures Settled(cfg, Step(cfg, s, a).cell, uid, key, cluster)
  {
    hide Step;
    var c, c' := s.cell, Step(cfg, s, a).cell;
    StepKeepsPlace(cfg, s, a, uid, key, cluster);
    EffectIsOfCopy(cfg, s, a);
    StepGrows(cfg, s, a);
    forall k | 0 <= k < |c'.log| && c'.log[k].Effect? && c'.log[k].uid == uid && BasedUnder(cfg, c', c'.log[k].base, key)
      ensures c'.log[k].cluster == cluster
    {
      if k < |c.log| {
        assert c'.log[k] == c.log[k] && BaseOk(c, c.log[k].uid, c.log[k].base);
        assert BasedUnder(cfg, c, c.log[k].base, key);
      } else {
        assert c.versions[c.pc.dep.version] == Some(c.pc.dep);
      }
    }
  }

  lemma {:induction false} RunKeepsSettled(cfg: Config, s: State, actions: seq<Action>, uid: nat, key: string, cluster: string)
    requires Inv(s.cell) && Aging(s.cell) && Settled(cfg, s.cell, uid, key, cluster)
    requires Pinned(cfg, s, actions, key, cluster)
    ensures Settled(cfg, Run(cfg, s, actions).cell, uid, key, cluster)
    decreases |actions|
  {
    if actions != [] {
      StepKeepsSettled(cfg, s, actions[0], uid, key, cluster);
      StepKeepsAging(cfg, s, actions[0]);
      StepKeeps(cfg, s, actions[0]);
      RunKeepsSettled(cfg, Step(cfg, s, actions[0]), actions[1..], uid, key, cluster);
    }
  }

  // ---------------------------------------------------------------- the theorem

  /** Nothing is left, once the namespace controller has finished what was asked of it. */
  predicate Cleaned(sl: Slot) {
    Finalized(sl).phase.NsAbsent? && LiveRelease(Finalized(sl)).None?
  }

  /** Nothing has been done for the incarnation, nor is about to be. */
  ghost predicate Untouched(c: Cell, uid: nat) {
    && (c.pc.AtEdge? ==> c.pc.dep.uid != uid)
    && forall k :: 0 <= k < |c.log| && c.log[k].Effect? ==> c.log[k].uid != uid
  }

  /** The version the first effect on an incarnation was based on. */
  function FirstBase(log: seq<Record>, uid: nat): nat {
    if log == [] then 0
    else if log[0].Effect? && log[0].uid == uid then log[0].base
    else FirstBase(log[1..], uid)
  }

  lemma {:induction false} FirstBaseIsFirst(log: seq<Record>, uid: nat, k: nat)
    requires BasesAscend(log) && k < |log| && log[k].Effect? && log[k].uid == uid
    ensures FirstBase(log, uid) <= log[k].base
    decreases log
  {
    if !(log[0].Effect? && log[0].uid == uid) {
      assert log[1..][k - 1] == log[k];
      FirstBaseIsFirst(log[1..], uid, k - 1);
    }
  }

  /** From the version its first effect was based on, every version of the incarnation prints the key. */
  ghost predicate RoutedSinceFirstEffect(cfg: Config, c: Cell, uid: nat, key: string) {
    forall i :: FirstBase(c.log, uid) <= i < |c.versions| && c.versions[i].Some? && c.versions[i].value.uid == uid ==>
      KeyOf(cfg, c.versions[i].value) == key
  }

  /** A delete pass cleans up the cluster it works on, and changes no other. */
  lemma CleansItsCluster(cfg: Config, s: State, ch: Choice, cluster: string)
    requires s.cell.versions != [] && s.cell.pc.AtEdge? && s.cell.pc.call.DeleteNamespace? && ch.fault.NoFault?
    ensures var id := SlotId(cluster, cfg.key.name);
      Cleaned(SlotAt(OpStep(cfg, s, ch).shared, id)) <==>
        cluster == s.cell.pc.cluster || Cleaned(SlotAt(s.shared, id))
  {
  }

  /** Delete cleans up: take any run, and any point of it before anything has been done for an incarnation. If from there
      on its routing key means one cluster only, and every version of the incarnation from the one its first effect was
      based on prints that key, then when the delete path's namespace call succeeds or reports NotFound, every namespace
      the incarnation has ever had an effect on is going or gone, with its release. Other Secrets and cache entries,
      other incarnations, and this one before its first effect may change as they like. */
  lemma DeleteCleansUp(cfg: Config, s0: State, before: seq<Action>, actions: seq<Action>, cluster: string, ch: Choice, k: nat)
    requires Init(s0)
    requires var c := Run(cfg, Run(cfg, s0, before), actions).cell;
      && c.pc.AtEdge? && c.pc.call.DeleteNamespace? && ch.fault.NoFault?
      && Untouched(Run(cfg, s0, before).cell, c.pc.dep.uid)
      && Pinned(cfg, Run(cfg, s0, before), actions, KeyOf(cfg, c.pc.dep), cluster)
      && RoutedSinceFirstEffect(cfg, c, c.pc.dep.uid, KeyOf(cfg, c.pc.dep))
      && k < |c.log| && c.log[k].Effect? && c.log[k].uid == c.pc.dep.uid
    ensures var s := Run(cfg, Run(cfg, s0, before), actions);
      Cleaned(SlotAt(OpStep(cfg, s, ch).shared, SlotId(s.cell.log[k].cluster, cfg.key.name)))
  {
    hide Step, KeyOf, OpStep;
    var s1 := Run(cfg, s0, before);
    var s := Run(cfg, s1, actions);
    var c, dep := s.cell, s.cell.pc.dep;
    StartAges(s0);
    RunKeeps(cfg, s0, before);
    RunKeepsAging(cfg, s0, before);
    RunKeeps(cfg, s1, actions);
    RunKeepsAging(cfg, s1, actions);
    assert Settled(cfg, s1.cell, dep.uid, KeyOf(cfg, dep), cluster);
    RunKeepsSettled(cfg, s1, actions, dep.uid, KeyOf(cfg, dep), cluster);
    FirstBaseIsFirst(c.log, dep.uid, k);
    assert BaseOk(c, dep.uid, c.log[k].base);
    assert BasedUnder(cfg, c, c.log[k].base, KeyOf(cfg, dep));
    CleansItsCluster(cfg, s, ch, c.log[k].cluster);
  }

  lemma StartAges(s0: State)
    requires Init(s0)
    ensures Inv(s0.cell) && Aging(s0.cell)
  {
  }

  // ---------------------------------------------------------------- why the version counts, not the moment

  lemma RunThen(cfg: Config, s: State, actions: seq<Action>, a: Action)
    requires s.cell.versions != []
    ensures Run(cfg, s, actions + [a]) == Step(cfg, Run(cfg, s, actions), a)
  {
    RunAppend(cfg, s, actions, [a]);
    RunOne(cfg, Run(cfg, s, actions), a);
  }

  const OK := Choice(NoFault, "", 9, 0, "", EMPTY_SLOT, [])

  function Created(spec: Spec): Deployment {
    Deployment(0, 1, 1, false, [], spec, EMPTY_STATUS)
  }

  function Adoptee(spec: Spec): Deployment {
    Created(spec).(version := 2, finalizers := [FINALIZER])
  }

  function Rerouted(spec: Spec, spec': Spec): Deployment {
    Adoptee(spec).(version := 3, generation := 2, spec := spec')
  }

  function Doomed(spec: Spec, spec': Spec): Deployment {
    Rerouted(spec, spec').(version := 4, generation := 3, deleting := true)
  }

  /** A quiet start with two edges the specs are routed to. */
  predicate TwoEdges(cfg: Config, s: State, spec: Spec, spec': Spec, c: string, c': string) {
    && Init(s) && s.shared.cache == map[] && s.shared.slots == map[] && c != c'
    && spec.account != "" && spec'.account != ""
    && Reach(cfg, s.shared, TargetKey(cfg.discovery, spec.region)) == Some(c)
    && Reach(cfg, s.shared, TargetKey(cfg.discovery, spec'.region)) == Some(c')
  }

  /** Any two regions that intend different Secrets of usable namespaces can be two such edges. */
  lemma EdgesCanDiffer(cfg: Config, s: State, spec: Spec, spec': Spec, c: string, c': string)
    requires Init(s) && s.shared.cache == map[] && s.shared.slots == map[] && c != c'
    requires spec.account != "" && spec'.account != ""
    requires var t, t' := Intended(cfg.discovery, spec.region), Intended(cfg.discovery, spec'.region);
      && t != t' && s.shared.secrets == map[t := Some(c), t' := Some(c')]
      && t.namespace != "" && SlashFree(t.namespace) && t'.namespace != "" && SlashFree(t'.namespace)
    ensures TwoEdges(cfg, s, spec, spec', c, c')
  {
    RoutingRoundTrip(cfg.discovery, spec.region);
    RoutingRoundTrip(cfg.discovery, spec'.region);
  }

  /** Create, and a reconcile that adds the finalizer. */
  function Adopting(spec: Spec): seq<Action> {
    [Create(spec, [])] + [Begin] + [Op(OK)] + [Op(OK)]
  }

  /** It is routed, and finds no namespace; just before it creates one, the user reroutes the object. */
  function Stale(spec: Spec, spec': Spec): seq<Action> {
    Adopting(spec) + [Op(OK)] + [Op(OK)] + [Edit(spec')]
  }

  /** The namespace is created, Helm refuses, and the status write is out of date. */
  function Failing(spec: Spec, spec': Spec): seq<Action> {
    Stale(spec, spec') + [Op(OK)] + [Op(OK.(fault := Refused))] + [Op(OK)]
  }

  /** The user deletes, and the delete reconcile goes through without a fault. */
  function Orphaning(spec: Spec, spec': Spec): seq<Action> {
    Failing(spec, spec') + [Delete] + [Begin] + [Op(OK)] + [Op(OK)] + [Op(OK)] + [Op(OK)] + [Op(OK)]
  }

  lemma Adopted(cfg: Config, s: State, spec: Spec)
    requires Init(s) && spec.account != ""
    ensures var m := Run(cfg, s, Adopting(spec));
      && m.cell.pc == Lookup(Adoptee(spec)) && m.shared == s.shared
      && m.cell.versions == [None, Some(Created(spec)), Some(Adoptee(spec))]
      && m.cell.log == [] && m.cell.seen == 1
  {
    RunOne(cfg, s, Create(spec, []));
    RunThen(cfg, s, [Create(spec, [])], Begin);
    RunThen(cfg, s, [Create(spec, [])] + [Begin], Op(OK));
    var m := Run(cfg, s, [Create(spec, [])] + [Begin] + [Op(OK)]);
    assert m.cell.pc == Addition(Created(spec)) && m.cell.versions == [None, Some(Created(spec))] && m.cell.seen == 1;
    RunThen(cfg, s, [Create(spec, [])] + [Begin] + [Op(OK)], Op(OK));
    assert Updated(Created(spec), Created(spec), [FINALIZER]).(version := 2) == Adoptee(spec);
  }

  /** An object in which nothing has been done yet, held by a copy about to be routed. */
  lemma StaleCopyHolds(cfg: Config, s: State, spec: Spec, spec': Spec, c: string, c': string)
    requires TwoEdges(cfg, s, spec, spec', c, c')
    ensures var m := Run(cfg, s, Stale(spec, spec'));
      && m.cell.pc == AtEdge(Adoptee(spec), c, CreateNamespace)
      && m.cell.versions == [None, Some(Created(spec)), Some(Adoptee(spec)), Some(Rerouted(spec, spec'))]
      && m.cell.log == [] && m.cell.seen == 1
      && m.shared.secrets == s.shared.secrets
      && m.shared.cache == map[TargetKey(cfg.discovery, spec.region) := c]
      && SlotAt(m.shared, SlotId(c, cfg.key.name)) == EMPTY_SLOT
      && SlotAt(m.shared, SlotId(c', cfg.key.name)) == EMPTY_SLOT
  {
    Adopted(cfg, s, spec);
    RunThen(cfg, s, Adopting(spec), Op(OK));
    var m := Run(cfg, s, Adopting(spec) + [Op(OK)]);
    assert m.cell.pc == AtEdge(Adoptee(spec), c, GetNamespace);
    RunThen(cfg, s, Adopting(spec) + [Op(OK)], Op(OK));
    RunThen(cfg, s, Adopting(spec) + [Op(OK)] + [Op(OK)], Edit(spec'));
  }

  lemma FailedAfter(cfg: Config, s: State, spec: Spec, spec': Spec, c: string, c': string)
    requires TwoEdges(cfg, s, spec, spec', c, c')
    ensures var m := Run(cfg, s, Failing(spec, spec'));
      && m.cell.pc.Returned?
      && m.cell.versions == [None, Some(Created(spec)), Some(Adoptee(spec)), Some(Rerouted(spec, spec'))]
      && m.cell.log == [Effect(0, 2, c)] && m.cell.seen == 1
      && m.shared.secrets == s.shared.secrets
      && m.shared.cache == map[TargetKey(cfg.discovery, spec.region) := c]
      && SlotAt(m.shared, SlotId(c, cfg.key.name)) == EMPTY_SLOT.(phase := NsActive)
      && SlotAt(m.shared, SlotId(c', cfg.key.name)) == EMPTY_SLOT
  {
    hide TargetKey;
    StaleCopyHolds(cfg, s, spec, spec', c, c');
    var as' := Stale(spec, spec');
    RunThen(cfg, s, as', Op(OK));
    var m := Run(cfg, s, as' + [Op(OK)]);
    assert m.cell.pc == AtEdge(Adoptee(spec), c, CheckHistory);
    RunThen(cfg, s, as' + [Op(OK)], Op(OK.(fault := Refused)));
    RunThen(cfg, s, as' + [Op(OK)] + [Op(OK.(fault := Refused))], Op(OK));
  }

  lemma DoomedLookup(cfg: Config, s: State, spec: Spec, spec': Spec, c: string, c': string)
    requires TwoEdges(cfg, s, spec, spec', c, c')
    ensures var m := Run(cfg, s, Failing(spec, spec') + [Delete] + [Begin] + [Op(OK)]);
      && m.cell.pc == LookupForDelete(Doomed(spec, spec'))
      && m.cell.versions == [None, Some(Created(spec)), Some(Adoptee(spec)), Some(Rerouted(spec, spec')),
                             Some(Doomed(spec, spec'))]
      && m.cell.log == [Effect(0, 2, c)]
      && m.shared == Run(cfg, s, Failing(spec, spec')).shared
  {
    hide TargetKey;
    FailedAfter(cfg, s, spec, spec', c, c');
    var as' := Failing(spec, spec');
    RunThen(cfg, s, as', Delete);
    RunThen(cfg, s, as' + [Delete], Begin);
    RunThen(cfg, s, as' + [Delete] + [Begin], Op(OK));
  }

  /** The delete pass finds no release on the cluster the object is now routed to, */
  lemma LooksElsewhere(cfg: Config, s: State, o: Deployment, c: string)
    requires s.cell.versions != [] && s.cell.pc == LookupForDelete(o)
    requires SecretProvider.Answer(s.shared.cache, KeyOf(cfg, o), Reach(cfg, s.shared, KeyOf(cfg, o))) == Some(c)
    requires SlotAt(s.shared, SlotId(c, cfg.key.name)) == EMPTY_SLOT
    ensures var m := Run(cfg, s, [Op(OK)] + [Op(OK)]);
      && m.cell.pc == AtEdge(o, c, DeleteNamespace) && m.cell.versions == s.cell.versions && m.cell.log == s.cell.log
      && forall id :: SlotAt(m.shared, id) == SlotAt(s.shared, id)
  {
    RunOne(cfg, s, Op(OK));
    RunThen(cfg, s, [Op(OK)], Op(OK));
  }

  /** and no namespace either, and lets the object go. */
  lemma LetsGo(cfg: Config, s: State, o: Deployment, c: string)
    requires s.cell.versions != [] && s.cell.pc == AtEdge(o, c, DeleteNamespace) && Home(s.cell) == Some(o)
    requires o.deleting && o.finalizers == [FINALIZER]
    requires SlotAt(s.shared, SlotId(c, cfg.key.name)) == EMPTY_SLOT
    ensures var m := Run(cfg, s, [Op(OK)] + [Op(OK)]);
      && Home(m.cell).None? && m.cell.log == s.cell.log + [Removed(o.uid)]
      && forall id :: SlotAt(m.shared, id) == SlotAt(s.shared, id)
  {
    RunOne(cfg, s, Op(OK));
    RunThen(cfg, s, [Op(OK)], Op(OK));
  }

  /** A rerouted copy orphans what it writes: there is a run in which spec.region is edited only before the first effect
      on the object, no call of its delete reconcile fails, the object is gone, and the namespace it wrote is alive. */
  lemma StaleCopyOrphans(cfg: Config, s: State, spec: Spec, spec': Spec, c: string, c': string)
    requires TwoEdges(cfg, s, spec, spec', c, c')
    ensures Run(cfg, s, Stale(spec, spec')).cell.log == []
    ensures var m := Run(cfg, s, Orphaning(spec, spec'));
      && m.cell.log == [Effect(0, 2, c), Removed(0)]
      && Home(m.cell).None?
      && SlotAt(m.shared, SlotId(c, cfg.key.name)).phase.NsActive?
  {
    hide TargetKey, Run, OpStep;
    StaleCopyHolds(cfg, s, spec, spec', c, c');
    FailedAfter(cfg, s, spec, spec', c, c');
    DoomedLookup(cfg, s, spec, spec', c, c');
    var as' := Failing(spec, spec') + [Delete] + [Begin] + [Op(OK)];
    var two := [Op(OK)] + [Op(OK)];
    LooksElsewhere(cfg, Run(cfg, s, as'), Doomed(spec, spec'), c');
    RunAppend(cfg, s, as', two);
    LetsGo(cfg, Run(cfg, s, as' + two), Doomed(spec, spec'), c');
    RunAppend(cfg, s, as' + two, two);
    assert Orphaning(spec, spec') == as' + two + two;
  }
}
