/** From a spec to the key of an edge cluster, and from that key back to a kubeconfig Secret. */
module Routing {
  import opened Wrappers
  import opened Resources
  import opened Drift

  datatype SecretId = SecretId(namespace: string, name: string)

  /** The Secret a spec means: the new reference, else the deprecated field, else the region's default. */
  function Intended(discovery: string, r: Region): SecretId {
    match r.kubeconfig
    case Some(ref) =>
      if ref.name != "" then SecretId(if ref.namespace != "" then ref.namespace else discovery, ref.name)
      else Fallback(discovery, r)
    case None => Fallback(discovery, r)
  }

  function Fallback(discovery: string, r: Region): SecretId {
    SecretId(discovery, if r.kubeconfigSecretName != "" then r.kubeconfigSecretName else r.name + "-kubeconfig")
  }

  /** rcedResolveTarget: the key it prints. */
  function TargetKey(discovery: string, r: Region): string {
    if r.kubeconfig.Some? && r.kubeconfig.value.name != "" && r.kubeconfig.value.namespace != "" then
      r.kubeconfig.value.namespace + "/" + r.kubeconfig.value.name
    else if r.kubeconfig.Some? && r.kubeconfig.value.name != "" then
      discovery + "/" + r.kubeconfig.value.name
    else if r.kubeconfigSecretName != "" then
      discovery + "/" + r.kubeconfigSecretName
    else
      discovery + "/" + (r.name + "-kubeconfig")
  }

  /** The position of the first slash, or the length. */
  function SlashIndex(s: string): (i: nat)
    ensures i <= |s| && SlashFree(s[..i])
    ensures i < |s| ==> s[i] == '/'
    ensures i == |s| <==> SlashFree(s)
  {
    if s == "" || s[0] == '/' then 0
    else
      var i := 1 + SlashIndex(s[1..]);
      assert s[..i] == [s[0]] + s[1..][..i - 1];
      i
  }

  /** How Provider.Get reads a key. */
  function ParseKey(discovery: string, key: string): SecretId {
    var i := SlashIndex(key);
    if 0 < i < |key| - 1 then SecretId(key[..i], key[i + 1..]) else SecretId(discovery, key)
  }

  /** A printed pair is parsed back exactly when its namespace is usable as one. */
  lemma PairRoundTrip(discovery: string, ns: string, name: string)
    ensures ParseKey(discovery, ns + "/" + name) == SecretId(ns, name) <==>
            ns != "" && SlashFree(ns) && name != ""
  {
    var key := ns + "/" + name;
    var i := SlashIndex(key);
    assert key[|ns|] == '/';
    assert forall k :: 0 <= k < i ==> key[k] == key[..i][k] != '/';
    assert i <= |ns|;
    assert forall k :: 0 <= k < |ns| ==> key[k] == ns[k];
    assert SlashFree(ns) ==> i == |ns|;
    assert key[..|ns|] == ns && key[|ns| + 1..] == name;
    assert ParseKey(discovery, key) == SecretId(discovery, key) ==> key != name by {
      assert |key| > |name|;
    }
  }

  /** Routing round trip: the Secret parsed is the one meant iff the namespace meant is non-empty and slash-free. */
  lemma RoutingRoundTrip(discovery: string, r: Region)
    ensures ParseKey(discovery, TargetKey(discovery, r)) == Intended(discovery, r) <==>
            Intended(discovery, r).namespace != "" && SlashFree(Intended(discovery, r).namespace)
  {
    var t := Intended(discovery, r);
    assert TargetKey(discovery, r) == t.namespace + "/" + t.name;
    assert t.name != "" by {
      assert |r.name + "-kubeconfig"| > 0;
    }
    PairRoundTrip(discovery, t.namespace, t.name);
  }

  /** A key that is no such pair, for want of a slash or of one of its parts, names a Secret of the discovery namespace. */
  lemma PlainKeys(discovery: string, key: string)
    requires forall a, b :: key == a + "/" + b && SlashFree(a) ==> a == "" || b == ""
    ensures ParseKey(discovery, key) == SecretId(discovery, key)
  {
    var i := SlashIndex(key);
    if i < |key| {
      assert key == key[..i] + "/" + key[i + 1..];
    }
  }

  /** What is intended, by precedence: a reference with a name, in its namespace or else the discovery namespace; without
      one the deprecated field; without either the region's default. */
  lemma IntendedByPrecedence(discovery: string, r: Region)
    ensures forall ns, name :: r.kubeconfig == Some(SecretRef(name, ns)) && name != "" && ns != "" ==>
      Intended(discovery, r) == SecretId(ns, name)
    ensures forall name :: r.kubeconfig == Some(SecretRef(name, "")) && name != "" ==>
      Intended(discovery, r) == SecretId(discovery, name)
    ensures (r.kubeconfig.None? || r.kubeconfig.value.name == "") && r.kubeconfigSecretName != "" ==>
      Intended(discovery, r) == SecretId(discovery, r.kubeconfigSecretName)
    ensures (r.kubeconfig.None? || r.kubeconfig.value.name == "") && r.kubeconfigSecretName == "" ==>
      Intended(discovery, r) == SecretId(discovery, r.name + "-kubeconfig")
  {
  }

  /** Two specs share a cache entry only if they mean the same Secret. */
  lemma KeysAreExact(discovery: string, r: Region, q: Region)
    requires SlashFree(Intended(discovery, r).namespace) && SlashFree(Intended(discovery, q).namespace)
    ensures TargetKey(discovery, r) == TargetKey(discovery, q) <==> Intended(discovery, r) == Intended(discovery, q)
  {
    var t, u := Intended(discovery, r), Intended(discovery, q);
    assert TargetKey(discovery, r) == t.namespace + "/" + t.name;
    assert TargetKey(discovery, q) == u.namespace + "/" + u.name;
    if TargetKey(discovery, r) == TargetKey(discovery, q) {
      FirstSlash(t.namespace, t.name, u.namespace, u.name);
    }
  }

  /** With an empty discovery namespace, which no flag or environment setting may have filled, a region's default
      Secret is looked up under another name. */
  lemma EmptyDiscoveryNamespaceMisroutes()
    ensures var r := Region("edge01", None, "");
      && Intended("", r) == SecretId("", "edge01-kubeconfig")
      && ParseKey("", TargetKey("", r)) == SecretId("", "/edge01-kubeconfig")
  {
    var r := Region("edge01", None, "");
    assert TargetKey("", r) == "/edge01-kubeconfig";
    assert "/edge01-kubeconfig"[0] == '/';
  }
}
