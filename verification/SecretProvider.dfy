/** The provider of edge clusters: a lookup by Secret, memoised under a lock. */
module SecretProvider {
  import opened Wrappers
  import opened Routing

  datatype LookupError = SecretNotFound | SecretUnreadable | MissingKubeconfig | BadConfig | ClusterFailed

  datatype Result<+T> = Ok(value: T) | Err(error: LookupError)

  datatype SecretReply = Found(kubeconfig: string) | NotFound | Unreadable

  /** The outside world at the time of one call: the Secrets, the kubeconfig loader and the cluster constructor. */
  datatype World = World(
    secret: SecretId -> SecretReply,
    load: string -> Option<string>,
    connects: string -> bool)

  /** Building a cluster from its Secret, without any cache. An absent data key reads as empty. */
  function Build(w: World, id: SecretId): Result<string> {
    match w.secret(id)
    case NotFound => Err(SecretNotFound)
    case Unreadable => Err(SecretUnreadable)
    case Found(data) =>
      if data == "" then Err(MissingKubeconfig)
      else match w.load(data)
        case None => Err(BadConfig)
        case Some(config) => if w.connects(config) then Ok(config) else Err(ClusterFailed)
  }

  type Cache = map<string, string>

  /** One Get seen from outside: what it answers and the cache it leaves, given the uncached answer. */
  function Answer(cache: Cache, name: string, uncached: Option<string>): Option<string> {
    if name in cache then Some(cache[name]) else uncached
  }

  function After(cache: Cache, name: string, uncached: Option<string>): Cache {
    if name in cache || uncached.None? then cache else cache[name := uncached.value]
  }

  function ToOption<T>(r: Result<T>): Option<T> {
    if r.Ok? then Some(r.value) else None
  }

  /** A connection to an edge cluster; its identity matters, since informers hang off it. */
  class Cluster {
    const config: string

    constructor (config: string)
      ensures this.config == config
    {
      this.config := config;
    }
  }

  class Provider {
    const namespace: string
    var clusters: map<string, Cluster>
    ghost var builds: seq<string>  // the names built so far, in order

    /** Each cached name was built exactly once, and nothing else was. */
    ghost predicate Valid()
      reads this
    {
      && (forall n :: n in builds <==> n in clusters)
      && (forall i, j :: 0 <= i < j < |builds| ==> builds[i] != builds[j])
    }

    ghost function Configs(): Cache
      reads this
    {
      map n | n in clusters :: clusters[n].config
    }

    constructor (namespace: string)
      ensures Valid() && this.namespace == namespace && clusters == map[]
    {
      this.namespace := namespace;
      clusters := map[];
      builds := [];
    }

    /** The steps of Get past the cache: Secret, kubeconfig, configuration, cluster. */
    static method Construct(id: SecretId, w: World) returns (r: Result<Cluster>)
      ensures match Build(w, id)
        case Err(e) => r == Err(e)
        case Ok(config) => r.Ok? && fresh(r.value) && r.value.config == config
      ensures r == Err(SecretNotFound) <==> w.secret(id).NotFound?
      ensures r == Err(SecretUnreadable) <==> w.secret(id).Unreadable?
      ensures r == Err(MissingKubeconfig) <==> w.secret(id) == Found("")
      ensures w.secret(id).Found? && w.secret(id).kubeconfig != "" ==>
        var config := w.load(w.secret(id).kubeconfig);
        && (r == Err(BadConfig) <==> config.None?)
        && (r == Err(ClusterFailed) <==> config.Some? && !w.connects(config.value))
        && (r.Ok? <==> config.Some? && w.connects(config.value))
        && (r.Ok? ==> config == Some(r.value.config))
    {
      var sec := w.secret(id);
      if sec.NotFound? {
        return Err(SecretNotFound);
      } else if sec.Unreadable? {
        return Err(SecretUnreadable);
      }
      if sec.kubeconfig == "" {
        return Err(MissingKubeconfig);
      }
      var config := w.load(sec.kubeconfig);
      if config.None? {
        return Err(BadConfig);
      }
      if !w.connects(config.value) {
        return Err(ClusterFailed);
      }
      var cl := new Cluster(config.value);
      return Ok(cl);
    }

    /** A cluster is cached under a name that has none. */
    method Remember(name: string, cl: Cluster)
      requires Valid() && name !in clusters
      modifies this`clusters, this`builds
      ensures Valid()
      ensures clusters == old(clusters)[name := cl] && builds == old(builds) + [name]
      ensures Configs() == old(Configs())[name := cl.config]
    {
      clusters := clusters[name := cl];
      builds := builds + [name];
    }

    method Get(name: string, w: World) returns (r: Result<Cluster>)
      requires Valid()
      modifies this`clusters, this`builds
      ensures Valid()
      ensures name in old(clusters) ==> r == Ok(old(clusters)[name]) && clusters == old(clusters)
      ensures name !in old(clusters) ==>
        match Build(w, ParseKey(namespace, name))
        case Err(e) => r == Err(e) && clusters == old(clusters)
        case Ok(config) => r.Ok? && fresh(r.value) && r.value.config == config && clusters == old(clusters)[name := r.value]
      ensures builds == old(builds) + (if name !in old(clusters) && r.Ok? then [name] else [])
      ensures Configs() == After(old(Configs()), name, ToOption(Build(w, ParseKey(namespace, name))))
      ensures ConfigOf(r)
              == Answer(old(Configs()), name, ToOption(Build(w, ParseKey(namespace, name))))
    {
      hide Build, ParseKey;
      if name in clusters {
        return Ok(clusters[name]);
      }
      r := Construct(ParseKey(namespace, name), w);
      if r.Ok? {
        Remember(name, r.value);
      }
    }

    /** Any sequence of Gets, one at a time under the lock. A name that has once got a cluster gets that very cluster
        ever after; and names, answers and cache are those of the specification below. */
    method Gets(requests: seq<Request>) returns (rs: seq<Result<Cluster>>)
      requires Valid()
      modifies this`clusters, this`builds
      ensures Valid() && |rs| == |requests|
      ensures Steady(requests, rs)
      ensures Configs() == CacheAfter(old(Configs()), Calls(namespace, requests))
      ensures AnswersOf(rs) == Answers(old(Configs()), Calls(namespace, requests))
    {
      rs := [];
      for k := 0 to |requests|
        invariant Valid() && |rs| == k && Steady(requests, rs) && Held(requests, rs)
        invariant Configs() == CacheAfter(old(Configs()), Calls(namespace, requests[..k]))
        invariant AnswersOf(rs) == Answers(old(Configs()), Calls(namespace, requests[..k]))
      {
        var r := GetNext(requests, rs);
        assert requests[..k + 1] == requests[..k] + [requests[k]];
        CallsAppend(namespace, requests[..k], requests[k]);
        OneMore(old(Configs()), Calls(namespace, requests[..k]), CallOf(namespace, requests[k]));
        AnswersOfAppend(rs, r);
        rs := rs + [r];
      }
      assert requests[..|requests|] == requests;
    }

    /** The clusters handed out are the ones cached. */
    ghost predicate Held(requests: seq<Request>, rs: seq<Result<Cluster>>)
      requires |rs| <= |requests|
      reads this
    {
      forall i :: 0 <= i < |rs| && rs[i].Ok? ==> requests[i].name in clusters && rs[i].value == clusters[requests[i].name]
    }

    method GetNext(requests: seq<Request>, rs: seq<Result<Cluster>>) returns (r: Result<Cluster>)
      requires Valid() && |rs| < |requests| && Steady(requests, rs) && Held(requests, rs)
      modifies this`clusters, this`builds
      ensures Valid() && Steady(requests, rs + [r]) && Held(requests, rs + [r])
      ensures var c := CallOf(namespace, requests[|rs|]);
        Configs() == After(old(Configs()), c.name, c.uncached) && ConfigOf(r) == Answer(old(Configs()), c.name, c.uncached)
    {
      hide Build, ParseKey, After, Answer;
      r := Get(requests[|rs|].name, requests[|rs|].world);
    }

    /** The names of the clusters built, each once, in no particular order. */
    method List() returns (out: seq<string>)
      ensures forall n :: n in out <==> n in clusters
      ensures forall i, j :: 0 <= i < j < |out| ==> out[i] != out[j]
      ensures |out| == |clusters|
    {
      out := [];
      var todo := clusters.Keys;
      while todo != {}
        invariant todo <= clusters.Keys
        invariant forall n :: n in out <==> n in clusters.Keys - todo
        invariant forall i, j :: 0 <= i < j < |out| ==> out[i] != out[j]
        invariant |out| + |todo| == |clusters.Keys|
        decreases todo
      {
        var n :| n in todo;
        assert n !in out;
        out := out + [n];
        todo := todo - {n};
      }
    }
  }

  /** A sequence of Gets, each with the answer an uncached lookup would give at that moment. */
  datatype Call = Call(name: string, uncached: Option<string>)

  datatype Request = Request(name: string, world: World)

  function CallOf(namespace: string, q: Request): Call {
    Call(q.name, ToOption(Build(q.world, ParseKey(namespace, q.name))))
  }

  function Calls(namespace: string, qs: seq<Request>): seq<Call>
    decreases |qs|
  {
    if qs == [] then [] else [CallOf(namespace, qs[0])] + Calls(namespace, qs[1..])
  }

  lemma {:induction false} CallsAppend(namespace: string, qs: seq<Request>, q: Request)
    ensures Calls(namespace, qs + [q]) == Calls(namespace, qs) + [CallOf(namespace, q)]
    decreases |qs|
  {
    if qs != [] {
      assert (qs + [q])[1..] == qs[1..] + [q];
      CallsAppend(namespace, qs[1..], q);
    }
  }

  function ConfigOf(r: Result<Cluster>): Option<string> {
    if r.Ok? then Some(r.value.config) else None
  }

  function AnswersOf(rs: seq<Result<Cluster>>): seq<Option<string>> {
    if rs == [] then [] else [ConfigOf(rs[0])] + AnswersOf(rs[1..])
  }

  lemma {:induction false} AnswersOfAppend(rs: seq<Result<Cluster>>, r: Result<Cluster>)
    ensures AnswersOf(rs + [r]) == AnswersOf(rs) + [ConfigOf(r)]
  {
    if rs != [] {
      assert (rs + [r])[1..] == rs[1..] + [r];
      AnswersOfAppend(rs[1..], r);
    }
  }

  /** A name that has got a cluster gets the same one ever after. */
  ghost predicate Steady(requests: seq<Request>, rs: seq<Result<Cluster>>)
    requires |rs| <= |requests|
  {
    forall i, j :: 0 <= i < j < |rs| && requests[i].name == requests[j].name && rs[i].Ok? ==> rs[j] == rs[i]
  }

  /** One more Get answers from the cache the others have left. */
  lemma {:induction false} OneMore(cache: Cache, calls: seq<Call>, c: Call)
    ensures CacheAfter(cache, calls + [c]) == After(CacheAfter(cache, calls), c.name, c.uncached)
    ensures Answers(cache, calls + [c]) == Answers(cache, calls) + [Answer(CacheAfter(cache, calls), c.name, c.uncached)]
    decreases calls
  {
    if calls == [] {
      assert [c][1..] == [];
    } else {
      assert (calls + [c])[1..] == calls[1..] + [c];
      OneMore(After(cache, calls[0].name, calls[0].uncached), calls[1..], c);
    }
  }

  function CacheAfter(cache: Cache, calls: seq<Call>): Cache
    decreases calls
  {
    if calls == [] then cache
    else CacheAfter(After(cache, calls[0].name, calls[0].uncached), calls[1..])
  }

  function Answers(cache: Cache, calls: seq<Call>): (r: seq<Option<string>>)
    ensures |r| == |calls|
    decreases calls
  {
    if calls == [] then []
    else [Answer(cache, calls[0].name, calls[0].uncached)]
         + Answers(After(cache, calls[0].name, calls[0].uncached), calls[1..])
  }

  /** The cache holds exactly what it held before and the names that answered with a cluster. */
  lemma {:induction false} CachedIffSucceeded(cache: Cache, calls: seq<Call>)
    ensures forall n :: n in CacheAfter(cache, calls) <==>
      n in cache || exists i :: 0 <= i < |calls| && calls[i].name == n && Answers(cache, calls)[i].Some?
    ensures forall n :: n in cache ==> n in CacheAfter(cache, calls) && CacheAfter(cache, calls)[n] == cache[n]
    decreases calls
  {
    if calls != [] {
      var next := After(cache, calls[0].name, calls[0].uncached);
      CachedIffSucceeded(next, calls[1..]);
      var all, rest := Answers(cache, calls), Answers(next, calls[1..]);
      forall n ensures n in CacheAfter(cache, calls) <==>
        n in cache || exists i :: 0 <= i < |calls| && calls[i].name == n && all[i].Some?
      {
        if n in CacheAfter(cache, calls) && n !in cache {
          if n in next {
            assert calls[0].name == n && all[0].Some?;
          } else {
            var i :| 0 <= i < |calls[1..]| && calls[1..][i].name == n && rest[i].Some?;
            assert calls[i + 1].name == n && all[i + 1].Some?;
          }
        }
        if i :| 0 <= i < |calls| && calls[i].name == n && all[i].Some? {
          if i > 0 {
            assert calls[1..][i - 1].name == n && rest[i - 1].Some?;
          }
        }
      }
    }
  }

  /** Once a name has answered with a cluster, every later Get of it answers with the same one. */
  lemma {:induction false} SameClusterForever(cache: Cache, calls: seq<Call>, i: nat, j: nat)
    requires i < j < |calls| && calls[i].name == calls[j].name
    requires Answers(cache, calls)[i].Some?
    ensures Answers(cache, calls)[j] == Answers(cache, calls)[i]
    decreases calls
  {
    var next := After(cache, calls[0].name, calls[0].uncached);
    if i > 0 {
      SameClusterForever(next, calls[1..], i - 1, j - 1);
    } else {
      CachedAnswers(next, calls[1..], j - 1);
    }
  }

  lemma {:induction false} CachedAnswers(cache: Cache, calls: seq<Call>, j: nat)
    requires j < |calls| && calls[j].name in cache
    ensures Answers(cache, calls)[j] == Some(cache[calls[j].name])
    decreases calls
  {
    if j > 0 {
      CachedAnswers(After(cache, calls[0].name, calls[0].uncached), calls[1..], j - 1);
    }
  }

  /** Failures are never cached: a name that has not succeeded yet answers as an uncached lookup does now. */
  lemma {:induction false} FailuresAreNotCached(cache: Cache, calls: seq<Call>, j: nat)
    requires j < |calls| && calls[j].name !in cache
    requires forall i :: 0 <= i < j && calls[i].name == calls[j].name ==> Answers(cache, calls)[i].None?
    ensures Answers(cache, calls)[j] == calls[j].uncached
    decreases calls
  {
    if j > 0 {
      var next := After(cache, calls[0].name, calls[0].uncached);
      assert Answers(cache, calls)[1..] == Answers(next, calls[1..]);
      assert calls[0].name == calls[j].name ==> Answers(cache, calls)[0].None?;
      FailuresAreNotCached(next, calls[1..], j - 1);
    }
  }

  /** While the Secrets do not change, the cache is invisible: every Get answers as the uncached lookup. */
  lemma {:induction false} CacheIsInvisible(cache: Cache, calls: seq<Call>, lookup: string -> Option<string>)
    requires forall n :: n in cache ==> lookup(n) == Some(cache[n])
    requires forall i :: 0 <= i < |calls| ==> calls[i].uncached == lookup(calls[i].name)
    ensures forall i :: 0 <= i < |calls| ==> Answers(cache, calls)[i] == lookup(calls[i].name)
    decreases calls
  {
    if calls != [] {
      var next := After(cache, calls[0].name, calls[0].uncached);
      assert calls[0].uncached == lookup(calls[0].name);
      assert forall i :: 0 <= i < |calls[1..]| ==> calls[1..][i] == calls[i + 1];
      CacheIsInvisible(next, calls[1..], lookup);
      assert forall i :: 0 < i < |calls| ==> calls[i] == calls[1..][i - 1];
    }
  }
}
