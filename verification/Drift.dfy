/** Which objects of a manifest the operator looks for, and which of them are missing. */
module Drift {
  import opened Manifest
  import opened Selections

  /** An object as it lives in the release namespace. */
  datatype ObjectId = ObjectId(group: string, version: string, kind: string, name: string)

  function IdOf(o: KObject): ObjectId {
    ObjectId(o.group, o.version, o.kind, o.name)
  }

  predicate Local(o: KObject, ns: string) {
    o.namespace == "" || o.namespace == ns
  }

  predicate Allowed(o: KObject) {
    || (o.group == "" && o.version == "v1" && o.kind in {"ConfigMap", "Secret", "Service", "ServiceAccount"})
    || (o.group == "apps" && o.version == "v1" && o.kind in {"Deployment", "ReplicaSet"})
  }

  predicate InScope(o: KObject, ns: string) {
    Local(o, ns) && Allowed(o)
  }

  /** The objects the check reads, in manifest order. */
  function Scope(objs: seq<KObject>, ns: string): seq<KObject> {
    if objs == [] then []
    else (if InScope(objs[0], ns) then [objs[0]] else []) + Scope(objs[1..], ns)
  }

  /** The objects absent from a set of live ones, in order. */
  function Absent(objs: seq<KObject>, live: set<ObjectId>): seq<KObject> {
    if objs == [] then []
    else (if IdOf(objs[0]) !in live then [objs[0]] else []) + Absent(objs[1..], live)
  }

  /** How a missing object is reported: Kind/namespace/name, with the release namespace for an empty one. */
  function Describe(o: KObject, ns: string): string {
    o.kind + "/" + (if o.namespace == "" then ns else o.namespace) + "/" + o.name
  }

  function DescribeAll(objs: seq<KObject>, ns: string): (r: seq<string>)
    ensures |r| == |objs|
    ensures forall i :: 0 <= i < |objs| ==> r[i] == Describe(objs[i], ns)
  {
    if objs == [] then [] else [Describe(objs[0], ns)] + DescribeAll(objs[1..], ns)
  }

  lemma DescribeAppend(objs: seq<KObject>, o: KObject, ns: string)
    ensures DescribeAll(objs + [o], ns) == DescribeAll(objs, ns) + [Describe(o, ns)]
  {
  }

  /** The objects a manifest puts into the release namespace, of any kind. */
  function Placed(objs: seq<KObject>, ns: string): set<ObjectId> {
    if objs == [] then {}
    else (if Local(objs[0], ns) then {IdOf(objs[0])} else {}) + Placed(objs[1..], ns)
  }

  lemma {:induction false} PlacedHolds(objs: seq<KObject>, ns: string, o: KObject)
    requires o in objs && Local(o, ns)
    ensures IdOf(o) in Placed(objs, ns)
  {
    if o != objs[0] {
      PlacedHolds(objs[1..], ns, o);
    }
  }

  /** The types the check looks for, by group, version and kind. */
  lemma AllowedIsExact(o: KObject)
    ensures Allowed(o) <==>
      || (o.group, o.version, o.kind) == ("", "v1", "ConfigMap")
      || (o.group, o.version, o.kind) == ("", "v1", "Secret")
      || (o.group, o.version, o.kind) == ("", "v1", "Service")
      || (o.group, o.version, o.kind) == ("", "v1", "ServiceAccount")
      || (o.group, o.version, o.kind) == ("apps", "v1", "Deployment")
      || (o.group, o.version, o.kind) == ("apps", "v1", "ReplicaSet")
  {
  }

  lemma {:induction false} ScopeFilters(objs: seq<KObject>, ns: string)
    ensures Scope(objs, ns) == Filter(objs, Marks(objs, o => InScope(o, ns)))
  {
    if objs != [] {
      FilterStep(objs, o => InScope(o, ns));
      ScopeFilters(objs[1..], ns);
    }
  }

  lemma {:induction false} AbsentFilters(objs: seq<KObject>, live: set<ObjectId>)
    ensures Absent(objs, live) == Filter(objs, Marks(objs, o => IdOf(o) !in live))
  {
    if objs != [] {
      FilterStep(objs, o => IdOf(o) !in live);
      AbsentFilters(objs[1..], live);
    }
  }

  /** The check looks for every object of the manifest, as often as it stands there and in its order, that is in the
      release namespace or in none and of an allowed type; and for no other. */
  lemma ScopeIsExact(objs: seq<KObject>, ns: string) returns (idx: seq<nat>)
    ensures Picks(objs, idx, Scope(objs, ns))
    ensures forall i :: 0 <= i < |objs| ==>
      (i in idx <==> (objs[i].namespace == "" || objs[i].namespace == ns) && Allowed(objs[i]))
  {
    ScopeFilters(objs, ns);
    idx := FilterPicks(objs, Marks(objs, o => InScope(o, ns)));
  }

  /** Of the manifest's objects it finds missing exactly those it looks for that are not live by group, version, kind and
      name, again as often and in the order they stand there. */
  lemma AbsentIsExact(objs: seq<KObject>, ns: string, live: set<ObjectId>) returns (idx: seq<nat>)
    ensures Picks(objs, idx, Absent(Scope(objs, ns), live))
    ensures forall i :: 0 <= i < |objs| ==>
      (i in idx <==> (objs[i].namespace == "" || objs[i].namespace == ns) && Allowed(objs[i])
                     && ObjectId(objs[i].group, objs[i].version, objs[i].kind, objs[i].name) !in live)
  {
    var scope := Scope(objs, ns);
    var outer := ScopeIsExact(objs, ns);
    AbsentFilters(scope, live);
    var inner := FilterPicks(scope, Marks(scope, o => IdOf(o) !in live));
    PicksThrough(objs, outer, scope, inner, Absent(scope, live));
    idx := Through(outer, inner);
    forall i | 0 <= i < |objs|
      ensures i in idx <==> i in outer && IdOf(objs[i]) !in live
    {
      if i in outer {
        var a :| 0 <= a < |outer| && outer[a] == i;
        assert scope[a] == objs[i];
        assert forall b :: 0 <= b < |outer| && outer[b] == i ==> b == a;
      }
    }
  }

  lemma {:induction false} ScopeMembers(objs: seq<KObject>, ns: string, o: KObject)
    ensures o in Scope(objs, ns) <==> o in objs && InScope(o, ns)
  {
    if objs != [] {
      ScopeMembers(objs[1..], ns, o);
      assert o in objs <==> o == objs[0] || o in objs[1..];
    }
  }

  lemma {:induction false} NothingAbsent(objs: seq<KObject>, live: set<ObjectId>)
    requires forall o :: o in objs ==> IdOf(o) in live
    ensures Absent(objs, live) == []
  {
    if objs != [] {
      NothingAbsent(objs[1..], live);
    }
  }

  /** A deploy that places every rendered object leaves the check nothing to report. */
  lemma DeployHealsAll(objs: seq<KObject>, ns: string, live: set<ObjectId>)
    requires Placed(objs, ns) <= live
    ensures Absent(Scope(objs, ns), live) == []
  {
    forall o | o in Scope(objs, ns) ensures IdOf(o) in live {
      ScopeMembers(objs, ns, o);
      PlacedHolds(objs, ns, o);
    }
    NothingAbsent(Scope(objs, ns), live);
  }

  predicate SlashFree(s: string) {
    forall i :: 0 <= i < |s| ==> s[i] != '/'
  }

  /** Text before the first slash determines itself. */
  lemma FirstSlash(a: string, x: string, b: string, y: string)
    requires SlashFree(a) && SlashFree(b) && a + "/" + x == b + "/" + y
    ensures a == b && x == y
  {
    var s, t := a + "/" + x, b + "/" + y;
    assert s[|a|] == '/' && t[|b|] == '/';
    assert forall k :: 0 <= k < |a| ==> s[k] == a[k] != '/';
    assert forall k :: 0 <= k < |b| ==> t[k] == b[k] != '/';
    assert |a| == |b|;
    assert a == s[..|a|] && b == t[..|b|];
    assert x == s[|a| + 1..] && y == t[|b| + 1..];
  }

  lemma KindsAreSlashFree(o: KObject)
    requires Allowed(o)
    ensures SlashFree(o.kind)
  {
  }

  /** The kind alone determines group and version among the allowed types. */
  lemma KindDetermines(o: KObject, p: KObject)
    requires Allowed(o) && Allowed(p) && o.kind == p.kind
    ensures o.group == p.group && o.version == p.version
  {
    assert "Deployment" != "Secret" && "ReplicaSet" != "Service";
  }

  /** The words: the kind, a slash, the namespace or the release's own, a slash, the name. */
  lemma DescribeReads(o: KObject, ns: string)
    ensures o.namespace != "" ==> Describe(o, ns) == o.kind + "/" + o.namespace + "/" + o.name
    ensures o.namespace == "" ==> Describe(o, ns) == o.kind + "/" + ns + "/" + o.name
  {
  }

  /** Reported strings tell in-scope objects apart, for names and namespaces without a slash. */
  lemma DescribeIsExact(o: KObject, p: KObject, ns: string)
    requires InScope(o, ns) && InScope(p, ns)
    requires SlashFree(ns) && SlashFree(o.name) && SlashFree(p.name)
    ensures Describe(o, ns) == Describe(p, ns) <==> IdOf(o) == IdOf(p)
  {
    var x, y := ns + "/" + o.name, ns + "/" + p.name;
    assert Describe(o, ns) == o.kind + "/" + x;
    assert Describe(p, ns) == p.kind + "/" + y;
    if Describe(o, ns) == Describe(p, ns) {
      KindsAreSlashFree(o);
      KindsAreSlashFree(p);
      FirstSlash(o.kind, x, p.kind, y);
      FirstSlash(ns, o.name, ns, p.name);
      KindDetermines(o, p);
    }
  }
}
