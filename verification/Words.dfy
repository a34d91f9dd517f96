/** The words of a status: what they tell apart, and how they read. */
module Words {
  import opened Wrappers
  import opened Resources

  predicate FreeOf(s: string, c: char) {
    forall i :: 0 <= i < |s| ==> s[i] != c
  }

  /** Text after the last occurrence of a separator determines itself. */
  lemma LastSeparator(x: string, a: string, y: string, b: string, c: char)
    requires FreeOf(a, c) && FreeOf(b, c) && x + [c] + a == y + [c] + b
    ensures x == y && a == b
  {
    var s, t := x + [c] + a, y + [c] + b;
    assert s[|x|] == c && t[|y|] == c;
    assert forall k :: |x| < k < |s| ==> s[k] == a[k - |x| - 1] != c;
    assert forall k :: |y| < k < |t| ==> t[k] == b[k - |y| - 1] != c;
    assert |x| == |y|;
    assert x == s[..|x|] && y == t[..|y|];
    assert a == s[|x| + 1..] && b == t[|y| + 1..];
  }

  /** The applied chart is recorded without loss: repository, name and version can be read back, for chart names without
      a slash and versions without a colon. */
  lemma ChartRefIsExact(c: Chart, d: Chart)
    requires FreeOf(c.name, '/') && FreeOf(d.name, '/') && FreeOf(c.version, ':') && FreeOf(d.version, ':')
    ensures ChartRef(c) == ChartRef(d) <==> c == d
  {
    if ChartRef(c) == ChartRef(d) {
      var x, y := c.repo + "/" + c.name, d.repo + "/" + d.name;
      assert ChartRef(c) == x + [':'] + c.version && ChartRef(d) == y + [':'] + d.version;
      LastSeparator(x, c.version, y, d.version, ':');
      assert x == c.repo + ['/'] + c.name && y == d.repo + ['/'] + d.name;
      LastSeparator(c.repo, c.name, d.repo, d.name, '/');
    }
  }

  /** Reading a decimal number. */
  function Value(s: string): int {
    if s == "" then 0 else Value(s[..|s| - 1]) * 10 + (s[|s| - 1] as int - '0' as int)
  }

  lemma {:induction false} DigitsRead(n: nat)
    ensures |Digits(n)| > 0 && forall i :: 0 <= i < |Digits(n)| ==> '0' <= Digits(n)[i] <= '9'
    ensures Value(Digits(n)) == n
    decreases n
  {
    assert forall d: nat :: d < 10 ==> "0123456789"[d] as int == '0' as int + d;
    if n >= 10 {
      DigitsRead(n / 10);
      assert Digits(n)[..|Digits(n)| - 1] == Digits(n / 10);
    } else {
      assert Digits(n)[..0] == "";
    }
  }

  /** Replica counts are printed in decimal: the value read back is the one printed, with its sign. */
  lemma ItoaReads(n: int)
    ensures n >= 0 ==> Itoa(n) == Digits(n) && Value(Digits(n)) == n
    ensures n < 0 ==> Itoa(n) == "-" + Digits(-n) && Value(Digits(-n)) == -n
  {
    DigitsRead(if n < 0 then -n else n);
  }

  /** The line for a Deployment short of replicas. */
  lemma WorkloadReads(name: string, available: int, desired: int)
    ensures DescribeWorkload(Workload(name, Some(desired), available))
            == "Deployment/" + name + " (" + Itoa(available) + "/" + Itoa(desired) + " available)"
    ensures DescribeWorkload(Workload(name, None, available))
            == "Deployment/" + name + " (" + Itoa(available) + "/" + Itoa(1) + " available)"
  {
  }

  /** How the messages read, error texts passed on to the end. */
  lemma MessagesRead(text: string, a: string, b: string)
    ensures Text(AccountNameMissing) == "Spec.account.name must be set"
    ensures Text(EdgeNotAvailable(a)) == "Edge cluster " + a + " not available"
    ensures Text(SuccessfullyDeployed(a)) == "Successfully deployed to region " + a
    ensures Text(Repaired([a, b])) == "Detected missing resources, triggered repair: " + (a + ", " + b)
    ensures Text(WorkloadsUnlisted(text)) == "Workloads not yet ready: list-error:" + text
  {
    assert [a, b][1..] == [b];
    assert Join([a, b], ", ") == a + ", " + b;
  }

  lemma FailuresRead(text: string)
    ensures Text(HelmDeploymentFailing(HelmInstall(text))) == "Helm deployment failed: " + ("helm install failed: " + text)
    ensures Text(HelmDeploymentFailing(ChartUnusable(text))) == "Helm deployment failed: " + text
  {
    assert CauseText(HelmInstall(text)) == "helm install failed: " + text;
  }

  lemma HealthFailuresRead(text: string)
    ensures Text(HealthCheckFailing(HelmInit(text))) == "Health check failed: " + ("helm init failed: " + text)
    ensures Text(HealthCheckFailing(HelmGet(text))) == "Health check failed: " + ("helm get failed: " + text)
    ensures Text(HealthCheckFailing(RepairInstall(HelmInstall(text))))
            == "Health check failed: " + ("repair install failed: " + ("helm install failed: " + text))
    ensures Text(HealthCheckFailing(RepairUpgrade(HelmUpgrade(text))))
            == "Health check failed: " + ("repair upgrade failed: " + ("helm upgrade failed: " + text))
  {
    assert CauseText(HelmInstall(text)) == "helm install failed: " + text;
    assert CauseText(HelmUpgrade(text)) == "helm upgrade failed: " + text;
  }
}
