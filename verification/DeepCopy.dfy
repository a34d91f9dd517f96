/** The resource as the operator holds it in memory: an object with slices and a pointer inside, its hand-written deep
    copies, and the writes a reconcile makes to its copy in place. */
module DeepCopy {
  import opened Wrappers
  import opened Resources
  import opened Conditions

  /** The target of spec.region.kubeconfig. */
  class KubeconfigRef {
    var secret: SecretRef

    constructor (secret: SecretRef)
      ensures this.secret == secret
    {
      this.secret := secret;
    }
  }

  /** The region struct: a value that holds a pointer. */
  datatype RegionInfo = RegionInfo(name: string, kubeconfig: KubeconfigRef?, kubeconfigSecretName: string)

  /** RegionInfo.DeepCopyInto, which alone copies what the pointer points to. */
  method DeepCopyRegion(r: RegionInfo) returns (out: RegionInfo)
    ensures out.name == r.name && out.kubeconfigSecretName == r.kubeconfigSecretName
    ensures r.kubeconfig == null ==> out.kubeconfig == null
    ensures r.kubeconfig != null ==>
      out.kubeconfig != null && fresh(out.kubeconfig) && out.kubeconfig.secret == r.kubeconfig.secret
  {
    out := r;
    if r.kubeconfig != null {
      var ref := new KubeconfigRef(r.kubeconfig.secret);
      out := out.(kubeconfig := ref);
    }
  }

  /** Slices are arrays without spare capacity; null is nil. */
  function Elements<T>(a: array?<T>): seq<T>
    reads a
  {
    if a == null then [] else a[..]
  }

  class KryptonDeployment {
    var uid: nat
    var version: nat
    var generation: int
    var deleting: bool
    var finalizers: array?<string>
    var account: string
    var region: RegionInfo
    var phase: Phase
    var lastMessage: Message
    var conditions: array?<Condition>
    var lastAppliedChart: string

    function RegionView(): Region
      reads this, region.kubeconfig
    {
      Region(region.name, if region.kubeconfig == null then None else Some(region.kubeconfig.secret), region.kubeconfigSecretName)
    }

    function StatusView(): Status
      reads this, conditions
    {
      Status(phase, lastMessage, Elements(conditions), lastAppliedChart)
    }

    /** The stored object this one stands for. */
    function View(): Deployment
      reads this, finalizers, region.kubeconfig, conditions
    {
      Deployment(uid, version, generation, deleting, Elements(finalizers), Spec(account, RegionView()), StatusView())
    }

    /** The object and the slices it holds. */
    ghost function Owned(): set<object?>
      reads this
    {
      var all: set<object?> := {this, finalizers, conditions};
      all - {null}
    }

    constructor ()
      ensures finalizers == null && conditions == null && region.kubeconfig == null
    {
      uid, version, generation, deleting := 0, 0, 0, false;
      finalizers, conditions := null, null;
      account, region := "", RegionInfo("", null, "");
      phase, lastMessage, lastAppliedChart := PhaseUnset, NoMessage, "";
    }

    /** The client decodes a stored object into this one. */
    method Load(d: Deployment)
      modifies this
      ensures View() == d
      ensures finalizers != null ==> fresh(finalizers)
      ensures conditions != null ==> fresh(conditions)
      ensures region.kubeconfig != null ==> fresh(region.kubeconfig)
    {
      uid, version, generation, deleting := d.uid, d.version, d.generation, d.deleting;
      SetFinalizers(d.finalizers);
      account := d.spec.account;
      LoadRegion(d.spec.region);
      LoadStatus(d.status);
    }

    method LoadRegion(r: Region)
      modifies this`region
      ensures RegionView() == r
      ensures region.kubeconfig != null ==> fresh(region.kubeconfig)
    {
      region := RegionInfo(r.name, null, r.kubeconfigSecretName);
      if r.kubeconfig.Some? {
        var ref := new KubeconfigRef(r.kubeconfig.value);
        region := region.(kubeconfig := ref);
      }
    }

    method LoadStatus(s: Status)
      modifies this`phase, this`lastMessage, this`conditions, this`lastAppliedChart
      ensures StatusView() == s
      ensures conditions != null ==> fresh(conditions)
    {
      phase, lastMessage, lastAppliedChart := s.phase, s.lastMessage, s.lastAppliedChart;
      conditions := null;
      if s.conditions != [] {
        conditions := new Condition[|s.conditions|](i requires 0 <= i < |s.conditions| => s.conditions[i]);
        assert conditions[..] == s.conditions;
      }
    }

    /** Installs a new finalizer slice. */
    method SetFinalizers(fs: seq<string>)
      modifies this`finalizers
      ensures Elements(finalizers) == fs
      ensures finalizers != null ==> fresh(finalizers)
    {
      if fs == [] {
        finalizers := null;
      } else {
        finalizers := new string[|fs|](i requires 0 <= i < |fs| => fs[i]);
        assert finalizers[..] == fs;
      }
    }

    /** KryptonDeploymentStatus.DeepCopyInto: the copy loop over the conditions. */
    method CopyConditions() returns (out: array?<Condition>)
      ensures conditions == null ==> out == null
      ensures conditions != null ==> out != null && fresh(out) && out[..] == conditions[..]
    {
      if conditions == null {
        return null;
      }
      var zero := Condition("", ConditionUnknown, OthersReason(""), NoMessage, 0, 0);
      var copy := new Condition[conditions.Length](_ => zero);
      for i := 0 to conditions.Length
        invariant copy[..i] == conditions[..i]
        modifies copy
      {
        copy[i] := conditions[i];
        assert copy[..i + 1] == copy[..i] + [copy[i]];
      }
      return copy;
    }

    /** The metadata's generated deep copy: the finalizer slice is fresh. */
    method CopyFinalizers() returns (out: array?<string>)
      ensures finalizers == null ==> out == null
      ensures finalizers != null ==> out != null && fresh(out) && out[..] == finalizers[..]
    {
      if finalizers == null {
        return null;
      }
      var fs := finalizers[..];
      out := new string[|fs|](i requires 0 <= i < |fs| => fs[i]);
      assert out[..] == fs;
    }

    /** KryptonDeploymentStatus.DeepCopyInto. */
    method StatusDeepCopyInto(out: KryptonDeployment)
      requires out != this
      modifies out`phase, out`lastMessage, out`lastAppliedChart, out`conditions
      ensures out.StatusView() == StatusView()
      ensures if conditions == null then out.conditions == null else out.conditions != null && fresh(out.conditions)
    {
      out.phase, out.lastMessage, out.lastAppliedChart := phase, lastMessage, lastAppliedChart;
      out.conditions := CopyConditions();
    }

    /** KryptonDeployment.DeepCopyInto: equal in value, fresh slices, nil kept nil, and the kubeconfig pointer shared. */
    method DeepCopyInto(out: KryptonDeployment)
      requires out != this
      modifies out
      ensures out.View() == View()
      ensures out.region == region
      ensures if finalizers == null then out.finalizers == null else out.finalizers != null && fresh(out.finalizers)
      ensures if conditions == null then out.conditions == null else out.conditions != null && fresh(out.conditions)
    {
      out.uid, out.version, out.generation, out.deleting := uid, version, generation, deleting;
      out.finalizers := CopyFinalizers();
      out.account := account;
      out.region := region;
      StatusDeepCopyInto(out);
    }

    method DeepCopyObject() returns (out: KryptonDeployment)
      ensures fresh(out) && out.View() == View() && out.region == region
      ensures if finalizers == null then out.finalizers == null else out.finalizers != null && fresh(out.finalizers)
      ensures if conditions == null then out.conditions == null else out.conditions != null && fresh(out.conditions)
    {
      out := new KryptonDeployment();
      DeepCopyInto(out);
    }

    /** The apimachinery helper on the slice: overwrite the first entry of the type in place, or append. */
    method SetStatusCondition(n: Condition, now: int)
      modifies this`conditions, conditions
      ensures Elements(conditions) == SetCondition(old(Elements(conditions)), n, now)
      ensures conditions == old(conditions) || (conditions != null && fresh(conditions))
    {
      ghost var was := Elements(conditions);
      SetConditionAt(was, n, now);
      var i := 0;
      if conditions != null {
        while i < conditions.Length && conditions[i].kind != n.kind
          invariant 0 <= i <= conditions.Length
          invariant forall k :: 0 <= k < i ==> conditions[k].kind != n.kind
        {
          i := i + 1;
        }
        assert i == IndexOfKind(was, n.kind);
        if i < conditions.Length {
          conditions[i] := Overwrite(conditions[i], n, now);
          assert conditions[..] == was[i := Overwrite(was[i], n, now)];
          return;
        }
      }
      var all := Elements(conditions) + [n.(lastTransition := now)];
      conditions := new Condition[|all|](k requires 0 <= k < |all| => all[k]);
      assert conditions[..] == all;
    }

    /** setReadyCondition. */
    method SetReadyCondition(status: ConditionStatus, reason: Reason, message: Message, now: int)
      modifies this`conditions, conditions
      ensures Elements(conditions) ==
        SetCondition(old(Elements(conditions)), Condition(READY, status, reason, message, generation, 0), now)
      ensures conditions == old(conditions) || (conditions != null && fresh(conditions))
    {
      SetStatusCondition(Condition(READY, status, reason, message, generation, 0), now);
    }
  }

  /** The cache is shielded: on a deep copy of the cached object a reconcile may replace the finalizers, overwrite
      every status field and set a condition in place, and the cached object stays as it was. */
  method WritesStayInTheCopy(cached: KryptonDeployment, fs: seq<string>, phase: Phase, message: Message, chart: string,
                             n: Condition, now: int) returns (copy: KryptonDeployment)
    ensures fresh(copy)
    ensures cached.View() == old(cached.View())
    ensures copy.View() == cached.View().(
      finalizers := fs,
      status := Status(phase, message, SetCondition(cached.View().status.conditions, n, now), chart))
  {
    copy := cached.DeepCopyObject();
    copy.SetFinalizers(fs);
    copy.phase, copy.lastMessage, copy.lastAppliedChart := phase, message, chart;
    copy.SetStatusCondition(n, now);
  }

  /** The shield has one gap, which the operator never uses: the kubeconfig reference of a copy is that of the cached
      object, so a write through it reaches the cache. */
  method KubeconfigIsShared(cached: KryptonDeployment, ref: SecretRef) returns (copy: KryptonDeployment)
    requires cached.region.kubeconfig != null
    modifies cached.region.kubeconfig
    ensures fresh(copy) && copy.region.kubeconfig == cached.region.kubeconfig
    ensures cached.View().spec.region.kubeconfig == Some(ref)
  {
    copy := cached.DeepCopyObject();
    copy.region.kubeconfig.secret := ref;
  }

  ghost predicate Apart(sets: seq<set<object?>>) {
    forall i, j :: 0 <= i < j < |sets| ==> sets[i] !! sets[j]
  }

  lemma ApartAppend(sets: seq<set<object?>>, more: set<object?>)
    requires Apart(sets) && forall i :: 0 <= i < |sets| ==> sets[i] !! more
    ensures Apart(sets + [more])
  {
  }

  class KryptonDeploymentList {
    var items: array?<KryptonDeployment>

    constructor ()
      ensures items == null
    {
      items := null;
    }

    /** KryptonDeploymentList.DeepCopyInto: a fresh slice of fresh items, each equal in value to its original. */
    method DeepCopyInto(out: KryptonDeploymentList)
      requires out != this
      modifies out
      ensures items == null ==> out.items == null
      ensures items != null ==>
        && out.items != null && fresh(out.items) && out.items.Length == items.Length
        && (forall i :: 0 <= i < items.Length ==> fresh(out.items[i].Owned()) && out.items[i].View() == items[i].View())
        && (forall i, j :: 0 <= i < j < items.Length ==> out.items[i].Owned() !! out.items[j].Owned())
    {
      if items == null {
        out.items := null;
      } else {
        var copies := CopyItems(items);
        out.items := copies;
      }
    }

    /** The copy loop over the items. */
    static method CopyItems(items: array<KryptonDeployment>) returns (copies: array<KryptonDeployment>)
      ensures fresh(copies) && copies.Length == items.Length
      ensures forall i :: 0 <= i < items.Length ==> fresh(copies[i].Owned()) && copies[i].View() == items[i].View()
      ensures forall i, j :: 0 <= i < j < items.Length ==> copies[i].Owned() !! copies[j].Owned()
    {
      var made: seq<KryptonDeployment> := [];
      ghost var own: seq<set<object?>> := [];
      for i := 0 to items.Length
        invariant |made| == |own| == i && Apart(own)
        invariant forall j :: 0 <= j < i ==> fresh(own[j]) && made[j].Owned() == own[j] && made[j].View() == items[j].View()
      {
        var copy := items[i].DeepCopyObject();
        ApartAppend(own, copy.Owned());
        made, own := made + [copy], own + [copy.Owned()];
      }
      copies := new KryptonDeployment[|made|](i requires 0 <= i < |made| => made[i]);
    }
  }
}
