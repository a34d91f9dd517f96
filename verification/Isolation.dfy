/** Many deployments at once: what a reconcile of one leaves alone, and when two of them commute. */
module Isolation {
  import opened Wrappers
  import opened Resources
  import opened Manifest
  import opened Edge
  import opened Machine
  import opened Safety
  import opened Progress
  import SecretProvider

  /** What all reconciles of one operator have in common. */
  datatype Setting = Setting(discovery: string, decode: Decoder)

  datatype Fleet = Fleet(cells: map<Key, Cell>, shared: Shared)

  function ConfigOf(st: Setting, k: Key): Config {
    Config(k, st.discovery, st.decode)
  }

  function View(f: Fleet, k: Key): State
    requires k in f.cells
  {
    State(f.cells[k], f.shared)
  }

  predicate Alive(f: Fleet, k: Key) {
    k in f.cells && f.cells[k].versions != []
  }

  /** The operator makes the next call of one key's reconcile. */
  function FleetStep(st: Setting, f: Fleet, k: Key, ch: Choice): Fleet
    requires Alive(f, k)
  {
    var s := OpStep(ConfigOf(st, k), View(f, k), ch);
    Fleet(f.cells[k := s.cell], s.shared)
  }

  /** Isolation of one call: it changes its own key's object, and of the edges only the namespace named after it on
      the cluster it works on; Secrets stay, and the cache only gains what a Secret says. */
  lemma StepIsIsolated(st: Setting, f: Fleet, k: Key, ch: Choice)
    requires Alive(f, k)
    ensures var g := FleetStep(st, f, k, ch);
      var pc := f.cells[k].pc;
      && g.cells.Keys == f.cells.Keys
      && (forall k' :: k' in f.cells && k' != k ==> g.cells[k'] == f.cells[k'])
      && g.shared.secrets == f.shared.secrets
      && (forall id :: SlotAt(g.shared, id) != SlotAt(f.shared, id) ==> pc.AtEdge? && id == SlotId(pc.cluster, k.name))
      && (forall key :: key in f.shared.cache ==> key in g.shared.cache && g.shared.cache[key] == f.shared.cache[key])
      && (forall key :: key in g.shared.cache && key !in f.shared.cache ==>
            Reach(ConfigOf(st, k), f.shared, key) == Some(g.shared.cache[key]))
  {
  }

  // ---------------------------------------------------------------- two calls

  predicate LooksUp(pc: PC) {
    pc.Lookup? || pc.LookupForDelete?
  }

  /** Two lookups of one uncached, reachable key, of which only one fails: the order decides what the other finds. */
  predicate LookupsClash(st: Setting, f: Fleet, k1: Key, ch1: Choice, k2: Key, ch2: Choice)
    requires k1 in f.cells && k2 in f.cells
  {
    var pc1, pc2 := f.cells[k1].pc, f.cells[k2].pc;
    && LooksUp(pc1) && LooksUp(pc2)
    && KeyOf(ConfigOf(st, k1), pc1.dep) == KeyOf(ConfigOf(st, k2), pc2.dep)
    && KeyOf(ConfigOf(st, k1), pc1.dep) !in f.shared.cache
    && Reach(ConfigOf(st, k1), f.shared, KeyOf(ConfigOf(st, k1), pc1.dep)).Some?
    && (ch1.fault.NoFault? <==> !ch2.fault.NoFault?)
  }

  predicate SameSlot(f: Fleet, k1: Key, k2: Key)
    requires k1 in f.cells && k2 in f.cells
  {
    var pc1, pc2 := f.cells[k1].pc, f.cells[k2].pc;
    pc1.AtEdge? && pc2.AtEdge? && pc1.cluster == pc2.cluster && k1.name == k2.name
  }

  /** One call of k seen as an update of its own cell and of at most one place in the shared state. */
  lemma CellDependsOn(st: Setting, s: State, sh: Shared, k: Key, ch: Choice)
    requires s.cell.versions != []
    requires var cfg, pc := ConfigOf(st, k), s.cell.pc;
      && sh.secrets == s.shared.secrets
      && (pc.AtEdge? ==> SlotAt(sh, SlotId(pc.cluster, k.name)) == SlotAt(s.shared, SlotId(pc.cluster, k.name)))
      && (LooksUp(pc) ==> SecretProvider.Answer(sh.cache, KeyOf(cfg, pc.dep), Uncached(cfg, s.shared, pc.dep, ch))
                          == SecretProvider.Answer(s.shared.cache, KeyOf(cfg, pc.dep), Uncached(cfg, s.shared, pc.dep, ch)))
    ensures OpStep(ConfigOf(st, k), State(s.cell, sh), ch).cell == OpStep(ConfigOf(st, k), s, ch).cell
  {
  }

  /** What a lookup step would answer, and the cache it would leave, as functions of key and uncached answer. */
  function Offer(st: Setting, f: Fleet, k: Key, ch: Choice): Option<string>
    requires k in f.cells && LooksUp(f.cells[k].pc)
  {
    Uncached(ConfigOf(st, k), f.shared, f.cells[k].pc.dep, ch)
  }

  lemma CacheCommutes(cache: SecretProvider.Cache, key1: string, u1: Option<string>, key2: string, u2: Option<string>)
    requires key1 == key2 && key1 !in cache ==> u1 == u2
    ensures SecretProvider.After(SecretProvider.After(cache, key1, u1), key2, u2)
            == SecretProvider.After(SecretProvider.After(cache, key2, u2), key1, u1)
    ensures SecretProvider.Answer(SecretProvider.After(cache, key1, u1), key2, u2) == SecretProvider.Answer(cache, key2, u2)
    ensures SecretProvider.Answer(SecretProvider.After(cache, key2, u2), key1, u1) == SecretProvider.Answer(cache, key1, u1)
  {
  }

  /** The other key's call does not change what this key's call sees. */
  lemma SeesTheSame(st: Setting, f: Fleet, k1: Key, ch1: Choice, k2: Key, ch2: Choice)
    requires Alive(f, k1) && Alive(f, k2) && k1 != k2
    requires !SameSlot(f, k1, k2) && !LookupsClash(st, f, k1, ch1, k2, ch2)
    ensures FleetStep(st, FleetStep(st, f, k1, ch1), k2, ch2).cells[k2] == FleetStep(st, f, k2, ch2).cells[k2]
  {
    StepIsIsolated(st, f, k1, ch1);
    var g1 := FleetStep(st, f, k1, ch1);
    var pc1, pc2 := f.cells[k1].pc, f.cells[k2].pc;
    if LooksUp(pc1) && LooksUp(pc2) {
      CacheCommutes(f.shared.cache, KeyOf(ConfigOf(st, k1), pc1.dep), Offer(st, f, k1, ch1),
                    KeyOf(ConfigOf(st, k2), pc2.dep), Offer(st, f, k2, ch2));
    }
    CellDependsOn(st, View(f, k2), g1.shared, k2, ch2);
  }

  /** The shared state after a call, told apart by what kind of call it was. */
  lemma SharedAfter(st: Setting, f: Fleet, k: Key, ch: Choice)
    requires Alive(f, k)
    ensures var sh, pc := FleetStep(st, f, k, ch).shared, f.cells[k].pc;
      && (pc.AtEdge? ==>
            var id := SlotId(pc.cluster, k.name);
            sh == f.shared.(slots := f.shared.slots[id := Serve(k.name, st.decode, SlotAt(f.shared, id), pc.call, ch).slot]))
      && (LooksUp(pc) ==>
            var key := KeyOf(ConfigOf(st, k), pc.dep);
            sh == f.shared.(cache := SecretProvider.After(f.shared.cache, key, Offer(st, f, k, ch))))
      && (!pc.AtEdge? && !LooksUp(pc) ==> sh == f.shared)
  {
  }

  lemma SharedCommutes(st: Setting, f: Fleet, k1: Key, ch1: Choice, k2: Key, ch2: Choice)
    requires Alive(f, k1) && Alive(f, k2) && k1 != k2
    requires !SameSlot(f, k1, k2) && !LookupsClash(st, f, k1, ch1, k2, ch2)
    ensures FleetStep(st, FleetStep(st, f, k1, ch1), k2, ch2).shared == FleetStep(st, FleetStep(st, f, k2, ch2), k1, ch1).shared
  {
    hide OpStep, Serve;
    var g1, g2 := FleetStep(st, f, k1, ch1), FleetStep(st, f, k2, ch2);
    SharedAfter(st, f, k1, ch1);
    SharedAfter(st, f, k2, ch2);
    assert g1.cells[k2] == f.cells[k2] && g2.cells[k1] == f.cells[k1];
    SharedAfter(st, g1, k2, ch2);
    SharedAfter(st, g2, k1, ch1);
    var pc1, pc2 := f.cells[k1].pc, f.cells[k2].pc;
    if LooksUp(pc1) && LooksUp(pc2) {
      CacheCommutes(f.shared.cache, KeyOf(ConfigOf(st, k1), pc1.dep), Offer(st, f, k1, ch1),
                    KeyOf(ConfigOf(st, k2), pc2.dep), Offer(st, f, k2, ch2));
    } else if pc1.AtEdge? && pc2.AtEdge? {
      var id1, id2 := SlotId(pc1.cluster, k1.name), SlotId(pc2.cluster, k2.name);
      assert id1 != id2;
      var x1 := Serve(k1.name, st.decode, SlotAt(f.shared, id1), pc1.call, ch1).slot;
      var x2 := Serve(k2.name, st.decode, SlotAt(f.shared, id2), pc2.call, ch2).slot;
      assert f.shared.slots[id1 := x1][id2 := x2] == f.shared.slots[id2 := x2][id1 := x1];
    }
  }

  /** Calls of different keys commute if they are not at the same namespace of the same edge and their lookups do not
      clash. */
  lemma StepsCommute(st: Setting, f: Fleet, k1: Key, ch1: Choice, k2: Key, ch2: Choice)
    requires Alive(f, k1) && Alive(f, k2) && k1 != k2
    requires !SameSlot(f, k1, k2) && !LookupsClash(st, f, k1, ch1, k2, ch2)
    ensures Alive(FleetStep(st, f, k1, ch1), k2) && Alive(FleetStep(st, f, k2, ch2), k1)
    ensures FleetStep(st, FleetStep(st, f, k1, ch1), k2, ch2) == FleetStep(st, FleetStep(st, f, k2, ch2), k1, ch1)
  {
    hide OpStep;
    SeesTheSame(st, f, k1, ch1, k2, ch2);
    SeesTheSame(st, f, k2, ch2, k1, ch1);
    SharedCommutes(st, f, k1, ch1, k2, ch2);
    var a, b := FleetStep(st, FleetStep(st, f, k1, ch1), k2, ch2), FleetStep(st, FleetStep(st, f, k2, ch2), k1, ch1);
    assert a.cells == b.cells;
  }

  /** The condition on lookups is exact: if they clash, the two orders end differently. */
  lemma ClashingLookupsDoNotCommute(st: Setting, f: Fleet, k1: Key, ch1: Choice, k2: Key, ch2: Choice)
    requires Alive(f, k1) && Alive(f, k2) && k1 != k2 && LookupsClash(st, f, k1, ch1, k2, ch2)
    ensures FleetStep(st, FleetStep(st, f, k1, ch1), k2, ch2) != FleetStep(st, FleetStep(st, f, k2, ch2), k1, ch1)
  {
    if ch1.fault.NoFault? {
      OnlyOneFinds(st, f, k1, ch1, k2, ch2);
    } else {
      OnlyOneFinds(st, f, k2, ch2, k1, ch1);
    }
  }

  /** k2's failing lookup finds the cluster only after k1's has cached it. */
  lemma OnlyOneFinds(st: Setting, f: Fleet, k1: Key, ch1: Choice, k2: Key, ch2: Choice)
    requires Alive(f, k1) && Alive(f, k2) && k1 != k2 && LookupsClash(st, f, k1, ch1, k2, ch2)
    requires ch1.fault.NoFault? && !ch2.fault.NoFault?
    ensures FleetStep(st, FleetStep(st, f, k1, ch1), k2, ch2).cells[k2].pc.AtEdge?
    ensures !FleetStep(st, FleetStep(st, f, k2, ch2), k1, ch1).cells[k2].pc.AtEdge?
  {
  }

  // ---------------------------------------------------------------- two whole reconciles

  /** A whole reconcile of one key, from wherever it is to its end. */
  function FleetFinish(st: Setting, f: Fleet, k: Key, choose: PC -> Choice): (r: Fleet)
    requires Alive(f, k)
    ensures Alive(r, k) && Resting(r.cells[k].pc)
    decreases Stage(f.cells[k].pc), Left(f.cells[k].pc)
  {
    if Resting(f.cells[k].pc) then f
    else
      var ch := choose(f.cells[k].pc);
      StepAdvances(ConfigOf(st, k), View(f, k), ch);
      StepKeepsStore(ConfigOf(st, k), View(f, k), Op(ch));
      FleetFinish(st, FleetStep(st, f, k, ch), k, choose)
  }

  /** The answers of a reconcile in which no lookup of a cluster fails transiently; anything else may fail. */
  ghost predicate LookupsWork(choose: PC -> Choice) {
    forall pc :: LooksUp(pc) ==> choose(pc).fault.NoFault?
  }

  /** No version stored for one key prints the routing key of a version stored for the other. */
  ghost predicate KeysApart(st: Setting, f: Fleet, k1: Key, k2: Key)
    requires k1 in f.cells && k2 in f.cells
  {
    forall v, w :: Some(v) in f.cells[k1].versions && Some(w) in f.cells[k2].versions ==>
      KeyOf(ConfigOf(st, k1), v) != KeyOf(ConfigOf(st, k2), w)
  }

  /** Lookups of different Secrets cannot clash, whichever of them fail. */
  lemma KeysApartDoNotClash(st: Setting, f: Fleet, k1: Key, ch1: Choice, k2: Key, ch2: Choice)
    requires k1 in f.cells && k2 in f.cells && Inv(f.cells[k1]) && Inv(f.cells[k2]) && KeysApart(st, f, k1, k2)
    ensures !LookupsClash(st, f, k1, ch1, k2, ch2)
  {
    var c1, c2 := f.cells[k1], f.cells[k2];
    if LooksUp(c1.pc) && LooksUp(c2.pc) {
      assert c1.versions[c1.pc.dep.version] == Some(c1.pc.dep);
      assert c2.versions[c2.pc.dep.version] == Some(c2.pc.dep);
    }
  }

  /** No write of the operator changes where a key is routed. */
  lemma StepKeepsKeysApart(st: Setting, f: Fleet, k1: Key, k2: Key, ch: Choice)
    requires k1 in f.cells && k2 in f.cells && k1 != k2 && Inv(f.cells[k1])
    requires KeysApart(st, f, k1, k2) || KeysApart(st, f, k2, k1)
    ensures var g := FleetStep(st, f, k1, ch); KeysApart(st, g, k1, k2) && KeysApart(st, g, k2, k1)
  {
    hide OpStep;
    var g := FleetStep(st, f, k1, ch);
    var c, c' := f.cells[k1], g.cells[k1];
    StepIsIsolated(st, f, k1, ch);
    StepKeepsStore(ConfigOf(st, k1), View(f, k1), Op(ch));
    VersionsKeepRegions(ConfigOf(st, k1), View(f, k1), ch);
    forall v | Some(v) in c'.versions
      ensures exists v' :: Some(v') in c.versions && KeyOf(ConfigOf(st, k1), v') == KeyOf(ConfigOf(st, k1), v)
    {
      var i :| 0 <= i < |c'.versions| && c'.versions[i] == Some(v);
      var j := if i < |c.versions| then i else |c.versions| - 1;
      assert c.versions[j] == Some(c.versions[j].value);
    }
  }

  /** The clusters a key's reconcile can get to are in cs. */
  ghost predicate Confined(st: Setting, f: Fleet, k: Key, cs: set<string>)
    requires k in f.cells
  {
    var c := f.cells[k];
    && (c.pc.AtEdge? ==> c.pc.cluster in cs)
    && forall i :: 0 <= i < |c.versions| && c.versions[i].Some? ==>
         RoutesInto(st, f.shared, k, c.versions[i].value, cs)
  }

  predicate RoutesInto(st: Setting, sh: Shared, k: Key, dep: Deployment, cs: set<string>) {
    var cfg := ConfigOf(st, k);
    var key := KeyOf(cfg, dep);
    && (key in sh.cache ==> sh.cache[key] in cs)
    && (Reach(cfg, sh, key).Some? ==> Reach(cfg, sh, key).value in cs)
  }

  /** The two differ in name, or in every edge they can be routed to. */
  ghost predicate Apart(st: Setting, f: Fleet, k1: Key, cs1: set<string>, k2: Key, cs2: set<string>) {
    && k1 in f.cells && k2 in f.cells && k1 != k2
    && Inv(f.cells[k1]) && Inv(f.cells[k2])
    && (k1.name == k2.name ==> Confined(st, f, k1, cs1) && Confined(st, f, k2, cs2) && cs1 !! cs2)
  }

  lemma ApartIsSymmetric(st: Setting, f: Fleet, k1: Key, cs1: set<string>, k2: Key, cs2: set<string>)
    requires Apart(st, f, k1, cs1, k2, cs2)
    ensures Apart(st, f, k2, cs2, k1, cs1) && !SameSlot(f, k1, k2) && !SameSlot(f, k2, k1)
  {
  }

  /** A write of the operator keeps the region of the object it replaces. */
  lemma VersionsKeepRegions(cfg: Config, s: State, ch: Choice)
    requires Inv(s.cell)
    ensures var c, c' := s.cell, OpStep(cfg, s, ch).cell;
      c'.versions != c.versions && c'.versions[|c.versions|].Some? ==>
        Home(c).Some? && c'.versions[|c.versions|].value.spec == Home(c).value.spec
  {
  }

  lemma OwnStepConfined(st: Setting, f: Fleet, k: Key, cs: set<string>, ch: Choice)
    requires k in f.cells && Inv(f.cells[k]) && Confined(st, f, k, cs)
    ensures Confined(st, FleetStep(st, f, k, ch), k, cs)
  {
    hide OpStep;
    var g := FleetStep(st, f, k, ch);
    var c, c' := f.cells[k], g.cells[k];
    StepIsIsolated(st, f, k, ch);
    StepKeepsStore(ConfigOf(st, k), View(f, k), Op(ch));
    VersionsKeepRegions(ConfigOf(st, k), View(f, k), ch);
    forall i | 0 <= i < |c'.versions| && c'.versions[i].Some?
      ensures RoutesInto(st, g.shared, k, c'.versions[i].value, cs)
    {
      var j := if i < |c.versions| then i else |c.versions| - 1;
      assert RoutesInto(st, f.shared, k, c.versions[j].value, cs);
    }
    OwnClusterConfined(st, f, k, cs, ch);
  }

  lemma OwnClusterConfined(st: Setting, f: Fleet, k: Key, cs: set<string>, ch: Choice)
    requires k in f.cells && Inv(f.cells[k]) && Confined(st, f, k, cs)
    ensures var pc := FleetStep(st, f, k, ch).cells[k].pc; pc.AtEdge? ==> pc.cluster in cs
  {
    var c := f.cells[k];
    if LooksUp(c.pc) {
      assert c.versions[c.pc.dep.version] == Some(c.pc.dep);
      assert RoutesInto(st, f.shared, k, c.pc.dep, cs);
    }
  }

  lemma OtherStepConfined(st: Setting, f: Fleet, k: Key, cs: set<string>, other: Key, ch: Choice)
    requires k in f.cells && Alive(f, other) && other != k && Confined(st, f, k, cs)
    ensures Confined(st, FleetStep(st, f, other, ch), k, cs)
  {
    StepIsIsolated(st, f, other, ch);
    var g := FleetStep(st, f, other, ch);
    assert forall key :: Reach(ConfigOf(st, k), g.shared, key) == Reach(ConfigOf(st, k), f.shared, key)
                         == Reach(ConfigOf(st, other), f.shared, key);
  }

  lemma StepKeepsApart(st: Setting, f: Fleet, k1: Key, cs1: set<string>, k2: Key, cs2: set<string>, ch: Choice)
    requires Apart(st, f, k1, cs1, k2, cs2)
    ensures Apart(st, FleetStep(st, f, k1, ch), k1, cs1, k2, cs2)
  {
    StepKeeps(ConfigOf(st, k1), View(f, k1), Op(ch));
    if k1.name == k2.name {
      OwnStepConfined(st, f, k1, cs1, ch);
      OtherStepConfined(st, f, k2, cs2, k1, ch);
    }
  }

  lemma FinishOnce(st: Setting, f: Fleet, k: Key, choose: PC -> Choice)
    requires Alive(f, k) && !Resting(f.cells[k].pc)
    ensures Alive(FleetStep(st, f, k, choose(f.cells[k].pc)), k)
    ensures FleetFinish(st, f, k, choose) == FleetFinish(st, FleetStep(st, f, k, choose(f.cells[k].pc)), k, choose)
  {
    StepKeepsStore(ConfigOf(st, k), View(f, k), Op(choose(f.cells[k].pc)));
  }

  /** One call of k1 before or after the whole reconcile of k2: no difference. */
  lemma {:induction false} StepCommutesWithFinish(st: Setting, f: Fleet, k1: Key, cs1: set<string>, ch: Choice,
                                                  k2: Key, cs2: set<string>, choose: PC -> Choice)
    requires Apart(st, f, k1, cs1, k2, cs2)
    requires KeysApart(st, f, k1, k2) || (LookupsWork(choose) && (LooksUp(f.cells[k1].pc) ==> ch.fault.NoFault?))
    ensures Alive(FleetStep(st, f, k1, ch), k2)
    ensures Alive(FleetFinish(st, f, k2, choose), k1) && FleetFinish(st, f, k2, choose).cells[k1] == f.cells[k1]
    ensures FleetFinish(st, FleetStep(st, f, k1, ch), k2, choose) == FleetStep(st, FleetFinish(st, f, k2, choose), k1, ch)
    decreases Stage(f.cells[k2].pc), Left(f.cells[k2].pc)
  {
    hide OpStep;
    StepIsIsolated(st, f, k1, ch);
    if !Resting(f.cells[k2].pc) {
      var ch2 := choose(f.cells[k2].pc);
      ApartIsSymmetric(st, f, k1, cs1, k2, cs2);
      if KeysApart(st, f, k1, k2) {
        KeysApartDoNotClash(st, f, k1, ch, k2, ch2);
        StepKeepsKeysApart(st, f, k2, k1, ch2);
      }
      StepsCommute(st, f, k1, ch, k2, ch2);
      StepAdvances(ConfigOf(st, k2), View(f, k2), ch2);
      StepIsIsolated(st, f, k2, ch2);
      StepKeepsApart(st, f, k2, cs2, k1, cs1, ch2);
      ApartIsSymmetric(st, FleetStep(st, f, k2, ch2), k2, cs2, k1, cs1);
      StepCommutesWithFinish(st, FleetStep(st, f, k2, ch2), k1, cs1, ch, k2, cs2, choose);
      FinishOnce(st, f, k2, choose);
      FinishOnce(st, FleetStep(st, f, k1, ch), k2, choose);
    }
  }

  /** Whole reconciles commute: two deployments that differ in name or in target edge end the same, the provider's
      cache included, whichever is reconciled first, whatever their edge and home calls answer. Their lookups may fail
      as they like if they are for different Secrets; with a Secret in common none may fail transiently. */
  lemma {:induction false} ReconcilesCommute(st: Setting, f: Fleet, k1: Key, cs1: set<string>, choose1: PC -> Choice,
                                             k2: Key, cs2: set<string>, choose2: PC -> Choice)
    requires Apart(st, f, k1, cs1, k2, cs2)
    requires KeysApart(st, f, k1, k2) || (LookupsWork(choose1) && LookupsWork(choose2))
    ensures Alive(FleetFinish(st, f, k1, choose1), k2) && Alive(FleetFinish(st, f, k2, choose2), k1)
    ensures FleetFinish(st, FleetFinish(st, f, k1, choose1), k2, choose2)
            == FleetFinish(st, FleetFinish(st, f, k2, choose2), k1, choose1)
    decreases Stage(f.cells[k1].pc), Left(f.cells[k1].pc)
  {
    hide OpStep;
    if Resting(f.cells[k1].pc) {
      FinishLeavesOthers(st, f, k2, choose2, k1);
    } else {
      var ch := choose1(f.cells[k1].pc);
      StepCommutesWithFinish(st, f, k1, cs1, ch, k2, cs2, choose2);
      StepAdvances(ConfigOf(st, k1), View(f, k1), ch);
      StepKeepsApart(st, f, k1, cs1, k2, cs2, ch);
      if KeysApart(st, f, k1, k2) {
        StepKeepsKeysApart(st, f, k1, k2, ch);
      }
      ReconcilesCommute(st, FleetStep(st, f, k1, ch), k1, cs1, choose1, k2, cs2, choose2);
      FinishOnce(st, f, k1, choose1);
      FinishOnce(st, FleetFinish(st, f, k2, choose2), k1, choose1);
    }
  }

  /** A whole reconcile leaves every other key's object and reconcile alone. */
  lemma {:induction false} FinishLeavesOthers(st: Setting, f: Fleet, k: Key, choose: PC -> Choice, other: Key)
    requires Alive(f, k) && other in f.cells && other != k
    ensures var g := FleetFinish(st, f, k, choose); other in g.cells && g.cells[other] == f.cells[other]
    decreases Stage(f.cells[k].pc), Left(f.cells[k].pc)
  {
    if !Resting(f.cells[k].pc) {
      var ch := choose(f.cells[k].pc);
      StepAdvances(ConfigOf(st, k), View(f, k), ch);
      StepIsIsolated(st, f, k, ch);
      FinishOnce(st, f, k, choose);
      FinishLeavesOthers(st, FleetStep(st, f, k, ch), k, choose, other);
    }
  }

  /** And every namespace but the one named after it, on the clusters it can be routed to; all Secrets too. */
  lemma {:induction false} FinishIsIsolated(st: Setting, f: Fleet, k: Key, cs: set<string>, choose: PC -> Choice, id: SlotId)
    requires k in f.cells && Inv(f.cells[k]) && Confined(st, f, k, cs)
    requires id.namespace != k.name || id.cluster !in cs
    ensures var g := FleetFinish(st, f, k, choose);
      SlotAt(g.shared, id) == SlotAt(f.shared, id) && g.shared.secrets == f.shared.secrets
    decreases Stage(f.cells[k].pc), Left(f.cells[k].pc)
  {
    if !Resting(f.cells[k].pc) {
      var ch := choose(f.cells[k].pc);
      StepAdvances(ConfigOf(st, k), View(f, k), ch);
      StepIsIsolated(st, f, k, ch);
      FinishOnce(st, f, k, choose);
      StepKeeps(ConfigOf(st, k), View(f, k), Op(ch));
      OwnStepConfined(st, f, k, cs, ch);
      FinishIsIsolated(st, FleetStep(st, f, k, ch), k, cs, choose, id);
    }
  }
}
