/** Status conditions, as the apimachinery helper sets them, and what makes a status coherent. */
module Conditions {
  import opened Wrappers
  import opened Resources

  /** One entry after the helper has written n over it: the transition time moves only when the status flips. */
  function Overwrite(c: Condition, n: Condition, now: int): Condition {
    Condition(c.kind, n.status, n.reason, n.message, n.observedGeneration,
              if c.status != n.status then now else c.lastTransition)
  }

  function SetCondition(cs: seq<Condition>, n: Condition, now: int): seq<Condition> {
    if cs == [] then [n.(lastTransition := now)]
    else if cs[0].kind == n.kind then [Overwrite(cs[0], n, now)] + cs[1..]
    else [cs[0]] + SetCondition(cs[1..], n, now)
  }

  /** The entries of one type. */
  function OfKind(cs: seq<Condition>, kind: string): (r: seq<Condition>)
    ensures forall c :: c in r <==> c in cs && c.kind == kind
  {
    if cs == [] then []
    else if cs[0].kind == kind then [cs[0]] + OfKind(cs[1..], kind)
    else OfKind(cs[1..], kind)
  }

  /** The entries of every other type. */
  function Others(cs: seq<Condition>, kind: string): (r: seq<Condition>)
    ensures forall c :: c in r <==> c in cs && c.kind != kind
  {
    if cs == [] then []
    else if cs[0].kind != kind then [cs[0]] + Others(cs[1..], kind)
    else Others(cs[1..], kind)
  }

  /** The position the helper writes to: the first entry of the type, or one past the end. */
  function IndexOfKind(cs: seq<Condition>, kind: string): (i: nat)
    ensures i <= |cs|
    ensures forall k :: 0 <= k < i ==> cs[k].kind != kind
    ensures i < |cs| ==> cs[i].kind == kind
  {
    if cs == [] || cs[0].kind == kind then 0 else 1 + IndexOfKind(cs[1..], kind)
  }

  /** e is what the helper leaves for n, where the entry before it, if any, was c: everything n says, at the time of the
      last change of status. */
  predicate IsEntryFor(e: Condition, n: Condition, c: Option<Condition>, now: int) {
    && e.kind == n.kind
    && e.status == n.status
    && e.reason == n.reason
    && e.message == n.message
    && e.observedGeneration == n.observedGeneration
    && e.lastTransition == (if c.Some? && c.value.status == n.status then c.value.lastTransition else now)
  }

  /** The helper is one overwrite at that position, or one append. */
  lemma {:induction false} SetConditionAt(cs: seq<Condition>, n: Condition, now: int)
    ensures var i, cs' := IndexOfKind(cs, n.kind), SetCondition(cs, n, now);
      if i < |cs| then cs' == cs[i := Overwrite(cs[i], n, now)] && IsEntryFor(cs'[i], n, Some(cs[i]), now)
      else cs' == cs + [n.(lastTransition := now)] && IsEntryFor(cs'[i], n, None, now)
  {
    if cs != [] && cs[0].kind != n.kind {
      SetConditionAt(cs[1..], n, now);
    }
  }

  /** Other types are untouched, in order; the type written keeps its count if present and has one entry if not. */
  lemma {:induction false} SetConditionEffect(cs: seq<Condition>, n: Condition, now: int)
    ensures var cs' := SetCondition(cs, n, now);
      && Others(cs', n.kind) == Others(cs, n.kind)
      && (forall kind :: kind != n.kind ==> OfKind(cs', kind) == OfKind(cs, kind))
      && var was, is' := OfKind(cs, n.kind), OfKind(cs', n.kind);
         if was == [] then |is'| == 1 && IsEntryFor(is'[0], n, None, now)
         else |is'| == |was| && IsEntryFor(is'[0], n, Some(was[0]), now) && is'[1..] == was[1..]
  {
    if cs != [] {
      var cs' := SetCondition(cs, n, now);
      if cs[0].kind == n.kind {
        assert cs'[1..] == cs[1..];
      } else {
        SetConditionEffect(cs[1..], n, now);
        assert cs'[1..] == SetCondition(cs[1..], n, now);
      }
    }
  }

  /** Reporting the same again changes nothing, whenever it happens. */
  lemma {:induction false} SetConditionTwice(cs: seq<Condition>, n: Condition, now: int, later: int)
    ensures SetCondition(SetCondition(cs, n, now), n, later) == SetCondition(cs, n, now)
  {
    if cs != [] && cs[0].kind != n.kind {
      SetConditionTwice(cs[1..], n, now, later);
      assert SetCondition(cs, n, now)[1..] == SetCondition(cs[1..], n, now);
    }
  }

  /** Phase is Ready iff the single Ready condition is True. */
  predicate Coherent(s: Status) {
    var ready := OfKind(s.conditions, READY);
    && |ready| <= 1
    && (s.phase == PhaseReady <==> (|ready| == 1 && ready[0].status == ConditionTrue))
  }

  /** The status a reconcile leaves in its working copy. */
  function Report(dep: Deployment, phase: Phase, status: ConditionStatus, reason: Reason, message: Message, now: int): Status {
    dep.status.(
      phase := phase,
      lastMessage := message,
      conditions := SetCondition(dep.status.conditions,
                                 Condition(READY, status, reason, message, dep.generation, 0), now))
  }

  /** An exit that is not Ready: an error, or work still pending. */
  function Unready(dep: Deployment, phase: Phase, reason: Reason, message: Message, now: int): Deployment
    requires phase != PhaseReady
  {
    dep.(status := Report(dep, phase, ConditionFalse, reason, message, now))
  }

  /** The Ready exit, which alone records the chart. */
  function NowReady(dep: Deployment, chart: Chart, now: int): Deployment {
    dep.(status := Report(dep, PhaseReady, ConditionTrue, Deployed, SuccessfullyDeployed(dep.spec.region.name), now)
                     .(lastAppliedChart := ChartRef(chart)))
  }

  /** How a written status s' relates to the status s of the copy the reconcile read at generation g. */
  predicate Follows(s: Status, s': Status, g: int, now: int) {
    var was, written := OfKind(s.conditions, READY), OfKind(s'.conditions, READY);
    && Coherent(s')
    && Others(s'.conditions, READY) == Others(s.conditions, READY)
    && |written| == 1
    && written[0].observedGeneration == g
    && written[0].message == s'.lastMessage
    && written[0].lastTransition ==
         (if |was| == 1 && was[0].status == written[0].status then was[0].lastTransition else now)
    && (s'.phase != PhaseReady ==> s'.lastAppliedChart == s.lastAppliedChart)
  }

  lemma ReportFollows(dep: Deployment, phase: Phase, reason: Reason, message: Message, now: int)
    requires Coherent(dep.status) && phase != PhaseReady
    ensures Follows(dep.status, Unready(dep, phase, reason, message, now).status, dep.generation, now)
  {
    SetConditionEffect(dep.status.conditions, Condition(READY, ConditionFalse, reason, message, dep.generation, 0), now);
  }

  lemma ReadyFollows(dep: Deployment, chart: Chart, now: int)
    requires Coherent(dep.status)
    ensures Follows(dep.status, NowReady(dep, chart, now).status, dep.generation, now)
  {
    SetConditionEffect(dep.status.conditions,
      Condition(READY, ConditionTrue, Deployed, SuccessfullyDeployed(dep.spec.region.name), dep.generation, 0), now);
  }
}
