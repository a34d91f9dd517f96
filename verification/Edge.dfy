/** One namespace of an edge cluster, and what the API server and Helm promise about calls on it. */
module Edge {
  import opened Wrappers
  import opened Resources
  import opened Manifest
  import opened Drift
  import opened Selections

  datatype NsPhase = NsAbsent | NsActive | NsTerminating

  datatype ReleaseStatus = DeployedRelease | FailedRelease | Superseded | PendingOperation | Uninstalled

  datatype Release = Release(revision: nat, status: ReleaseStatus, manifest: string)

  /** The namespace, the release record stored in it, its live objects and its Deployments. */
  datatype Slot = Slot(
    phase: NsPhase,
    release: Option<Release>,
    objects: set<ObjectId>,
    workloads: seq<Workload>)

  const EMPTY_SLOT := Slot(NsAbsent, None, {}, [])

  /** How a call goes wrong. Refused: no effect, an error. Lost: the effect happens, the reply is an error.
      Misread: the release history errors although the release may be there. */
  datatype Fault = NoFault | Refused | Lost | Misread

  /** Everything the outside decides about one call: its fault and error text, which stored version a cached read
      sees, the time, what the chart renders to, what a failed Helm action leaves in the namespace, and which
      Deployments the controllers show after a successful one, at whatever availability. */
  datatype Choice = Choice(
    fault: Fault,
    text: string,
    at: nat,
    now: int,
    rendered: string,
    partial: Slot,
    workloads: seq<Workload>)

  datatype Reply =
    | Failed(text: string)
    | NotFound
    | Ok
    | Got(dep: Deployment)
    | Cluster(id: string)
    | GotRelease(release: Release)
    | Rendered(manifest: string)
    | Workloads(items: seq<Workload>)

  /** Why a chart is deployed. */
  datatype Goal = Converge | Reinstall | Heal(missing: seq<string>)

  /** The calls a reconcile makes to an edge cluster. */
  datatype EdgeCall =
    | GetNamespace
    | CreateNamespace
    | CheckHistory
    | CheckRelease
    | CheckObject(todo: seq<KObject>, missing: seq<string>)
    | FetchChart(goal: Goal)
    | DeployHistory(goal: Goal, manifest: string)
    | Install(goal: Goal, manifest: string)
    | Upgrade(goal: Goal, manifest: string)
    | ListWorkloads
    | DeleteHistory
    | Uninstall
    | DeleteNamespace

  predicate ForDelete(c: EdgeCall) {
    c.DeleteHistory? || c.Uninstall? || c.DeleteNamespace?
  }

  /** The calls that can bring a namespace or a release into being. */
  predicate Creates(c: EdgeCall) {
    c.CreateNamespace? || c.Install? || c.Upgrade?
  }

  function LiveRelease(s: Slot): Option<Release> {
    if s.phase.NsAbsent? then None else s.release
  }

  function LiveObjects(s: Slot): set<ObjectId> {
    if s.phase.NsAbsent? then {} else s.objects
  }

  predicate Installable(s: Slot) {
    s.phase.NsActive? && s.release.None?
  }

  predicate Upgradable(s: Slot) {
    s.phase.NsActive? && s.release.Some? && !s.release.value.status.PendingOperation? && !s.release.value.status.Uninstalled?
  }

  function Ids(ns: string, decode: Decoder, manifest: string): set<ObjectId> {
    Placed(Parse(decode, manifest), ns)
  }

  /** A deploy stores the rendered manifest, drops what only the old one had, and makes every rendered object exist;
      what the Deployments among them are worth is up to the controllers. */
  function Deploy(ns: string, decode: Decoder, s: Slot, manifest: string, workloads: seq<Workload>): Slot {
    var old' := if s.release.Some? then Ids(ns, decode, s.release.value.manifest) else {};
    s.(release := Some(Release(if s.release.Some? then s.release.value.revision + 1 else 1, DeployedRelease, manifest)),
       objects := s.objects - old' + Ids(ns, decode, manifest),
       workloads := workloads)
  }

  /** What a failed uninstall leaves: whatever it likes of what was there. */
  function Torn(s: Slot, partial: Slot): Slot {
    partial.(phase := s.phase,
             release := if s.release.None? then None else partial.release,
             objects := partial.objects * s.objects)
  }

  datatype Served = Served(reply: Reply, slot: Slot)

  /** The contract of every edge call: what it answers and what it leaves in the namespace. */
  function Serve(ns: string, decode: Decoder, s: Slot, call: EdgeCall, ch: Choice): Served {
    var fails := Served(Failed(ch.text), s);
    var broken := Served(Failed(ch.text), ch.partial.(phase := s.phase));
    var clean := ch.fault.NoFault?;
    match call
    case GetNamespace =>
      if !clean then fails else Served(if s.phase.NsAbsent? then NotFound else Ok, s)
    case CreateNamespace =>
      if !s.phase.NsAbsent? || ch.fault.Refused? || ch.fault.Misread? then fails
      else Served(if clean then Ok else Failed(ch.text), EMPTY_SLOT.(phase := NsActive))
    case CheckHistory =>
      if ch.fault.Refused? then fails
      else Served(if clean && LiveRelease(s).Some? then Ok else NotFound, s)
    case CheckRelease =>
      if !clean || LiveRelease(s).None? then fails else Served(GotRelease(LiveRelease(s).value), s)
    case CheckObject(todo, _) =>
      if !clean || todo == [] then fails
      else Served(if IdOf(todo[0]) in LiveObjects(s) then Ok else NotFound, s)
    case FetchChart(_) =>
      if !clean then fails else Served(Rendered(ch.rendered), s)
    case DeployHistory(_, _) =>
      Served(if clean && LiveRelease(s).Some? then Ok else NotFound, s)
    case Install(_, manifest) =>
      if !clean then broken
      else if Installable(s) then Served(Ok, Deploy(ns, decode, s, manifest, ch.workloads))
      else fails
    case Upgrade(_, manifest) =>
      if !clean then broken
      else if Upgradable(s) then Served(Ok, Deploy(ns, decode, s, manifest, ch.workloads))
      else fails
    case ListWorkloads =>
      if !clean then fails else Served(Workloads(if s.phase.NsAbsent? then [] else s.workloads), s)
    case DeleteHistory =>
      if ch.fault.Refused? then fails
      else Served(if clean && LiveRelease(s).Some? then Ok else NotFound, s)
    case Uninstall =>
      if !clean then Served(Failed(ch.text), Torn(s, ch.partial))
      else if LiveRelease(s).None? then fails
      else Served(Ok, s.(release := None,
                         objects := s.objects - Ids(ns, decode, s.release.value.manifest),
                         workloads := ch.workloads))
    case DeleteNamespace =>
      if ch.fault.Refused? || ch.fault.Misread? then fails
      else
        var after := if s.phase.NsActive? then s.(phase := NsTerminating) else s;
        Served(if !clean then Failed(ch.text) else if s.phase.NsAbsent? then NotFound else Ok, after)
  }

  /** The namespace controller finishes a deletion: everything in the namespace goes, the release record included. */
  function Finalized(s: Slot): Slot {
    if s.phase.NsTerminating? then EMPTY_SLOT else s
  }

  /** A Deployment has at least as many available replicas as it wants, one if it does not say. */
  predicate Available(w: Workload) {
    w.available >= Desired(w)
  }

  function Unavailable(ws: seq<Workload>): (r: seq<Workload>)
    ensures r == [] <==> forall w :: w in ws ==> Available(w)
  {
    if ws == [] then []
    else (if Available(ws[0]) then [] else [ws[0]]) + Unavailable(ws[1..])
  }

  lemma {:induction false} UnavailableAppend(a: seq<Workload>, b: seq<Workload>)
    ensures Unavailable(a + b) == Unavailable(a) + Unavailable(b)
  {
    hide Available;
    if a == [] {
      assert a + b == b;
    } else {
      assert (a + b)[1..] == a[1..] + b;
      UnavailableAppend(a[1..], b);
    }
  }

  /** What unavailable means, and that all such Deployments are reported, once each and in order: fewer available
      replicas than wanted, or than one where the spec does not say. */
  lemma UnavailableIsExact(ws: seq<Workload>) returns (idx: seq<nat>)
    ensures Picks(ws, idx, Unavailable(ws))
    ensures forall i :: 0 <= i < |ws| ==>
      (i in idx <==> match ws[i].replicas case None => ws[i].available < 1 case Some(n) => ws[i].available < n)
    ensures forall w :: w in Unavailable(ws) <==>
      w in ws && match w.replicas case None => w.available < 1 case Some(n) => w.available < n
  {
    UnavailableFilters(ws);
    idx := FilterPicks(ws, Marks(ws, w => !Available(w)));
    UnavailableMembers(ws);
  }

  lemma {:induction false} UnavailableFilters(ws: seq<Workload>)
    ensures Unavailable(ws) == Filter(ws, Marks(ws, w => !Available(w)))
  {
    if ws != [] {
      FilterStep(ws, w => !Available(w));
      UnavailableFilters(ws[1..]);
    }
  }

  lemma {:induction false} UnavailableMembers(ws: seq<Workload>)
    ensures forall w :: w in Unavailable(ws) <==> w in ws && !Available(w)
  {
    if ws != [] {
      UnavailableMembers(ws[1..]);
      assert forall w :: w in ws <==> w == ws[0] || w in ws[1..];
    }
  }
}
