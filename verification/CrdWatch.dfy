/** Installing the resource definition at start-up: a bounded retry loop against an unreliable API server. */
module CrdWatch {
  import opened Wrappers

  datatype GetReply = Exists | NotFound | GetError(message: string)

  datatype CreateReply = Created | AlreadyExists | CreateError(message: string)

  /** The manifest embedded in the binary, as the decoder sees it. */
  datatype Embedded = Undecodable | OfKind(kind: string)

  /** What the API server would answer in each attempt. */
  datatype Script = Script(get: nat -> GetReply, create: nat -> CreateReply)

  datatype Outcome =
    | Nil
    | GetFailed | CreateFailed | DecodeFailed | WrongKind
    | GetTransient(attempt: nat) | CreateTransient(attempt: nat)
    | Exhausted

  predicate Contains(s: string, t: string) {
    t <= s || (s != "" && Contains(s[1..], t))
  }

  lemma {:induction false} ContainsIsExact(s: string, t: string)
    ensures Contains(s, t) <==> exists a, b :: s == a + t + b
  {
    if s != "" {
      ContainsIsExact(s[1..], t);
    }
    if Contains(s, t) {
      if t <= s {
        assert s == "" + t + s[|t|..];
      } else {
        var a, b :| s[1..] == a + t + b;
        assert s == ([s[0]] + a) + t + b;
      }
    }
    if a, b :| s == a + t + b {
      if a == "" {
        assert s[..|t|] == t;
      } else {
        assert s[1..] == a[1..] + t + b;
      }
    }
  }

  /** A message is transient iff it contains one of three texts somewhere. */
  lemma TransientIsExact(s: string)
    ensures TransientText(s) <==>
      || (exists a, b :: s == a + "connection refused" + b)
      || (exists a, b :: s == a + "context canceled" + b)
      || (exists a, b :: s == a + "Client.Timeout" + b)
  {
    ContainsIsExact(s, "connection refused");
    ContainsIsExact(s, "context canceled");
    ContainsIsExact(s, "Client.Timeout");
  }

  predicate TransientText(s: string) {
    Contains(s, "connection refused") || Contains(s, "context canceled") || Contains(s, "Client.Timeout")
  }

  const DEFINITION := "CustomResourceDefinition"

  predicate Usable(e: Embedded) {
    e.OfKind? && e.kind == DEFINITION
  }

  /** Attempt k is lost to a transient failure, so that the loop goes on. */
  predicate Retried(s: Script, e: Embedded, k: nat) {
    match s.get(k)
    case Exists => false
    case GetError(m) => TransientText(m)
    case NotFound => Usable(e) && s.create(k).CreateError? && TransientText(s.create(k).message)
  }

  /** Attempt k finds or establishes the definition. */
  predicate Settled(s: Script, e: Embedded, k: nat) {
    s.get(k).Exists? || (s.get(k).NotFound? && Usable(e) && !s.create(k).CreateError?)
  }

  ghost predicate AllRetried(s: Script, e: Embedded, n: nat) {
    forall j: nat :: j < n ==> Retried(s, e, j)
  }

  /** What settles an attempt, and what loses it, from the API's answers. */
  lemma AttemptsByAnswer(s: Script, e: Embedded, k: nat)
    ensures Settled(s, e, k) <==>
      || s.get(k).Exists?
      || (s.get(k).NotFound? && e == OfKind("CustomResourceDefinition") && (s.create(k).Created? || s.create(k).AlreadyExists?))
    ensures Retried(s, e, k) <==>
      || (s.get(k).GetError? && TransientText(s.get(k).message))
      || (s.get(k).NotFound? && e == OfKind("CustomResourceDefinition")
          && s.create(k).CreateError? && TransientText(s.create(k).message))
  {
  }

  /** The milliseconds slept over the first n attempts: 200 for each attempt so far after a failed read, 300 after a
      failed creation. */
  function Slept(s: Script, n: nat): nat {
    if n == 0 then 0 else Slept(s, n - 1) + n * (if s.get(n - 1).GetError? then 200 else 300)
  }

  /** The creations tried in the first n attempts. */
  function Tried(s: Script, e: Embedded, n: nat): nat {
    if n == 0 then 0 else Tried(s, e, n - 1) + (if s.get(n - 1).NotFound? && Usable(e) then 1 else 0)
  }

  /** An attempt that is not retried is the last one, and decides the outcome alone. */
  lemma LastAttempt(s: Script, e: Embedded, n: nat)
    requires n < 5 && AllRetried(s, e, n) && !Retried(s, e, n)
    ensures !AllRetried(s, e, 5)
    ensures Settled(s, e, n) <==> exists k: nat :: k < 5 && Settled(s, e, k) && AllRetried(s, e, k)
  {
    forall k: nat | k < 5 && k != n ensures !(Settled(s, e, k) && AllRetried(s, e, k)) {
      assert k < n ==> Retried(s, e, k);
    }
  }

  method EnsureKryptonDeploymentCRD(s: Script, e: Embedded)
    returns (out: Outcome, gets: nat, creates: nat, created: nat, slept: nat)
    ensures out == Nil <==> exists k: nat :: k < 5 && Settled(s, e, k) && AllRetried(s, e, k)
    ensures out != Exhausted
    ensures out.GetTransient? || out.CreateTransient? <==> AllRetried(s, e, 5)
    ensures out.GetTransient? ==> out.attempt == 5 && s.get(4).GetError?
    ensures out.CreateTransient? ==> out.attempt == 5 && s.get(4).NotFound?
    ensures 1 <= gets <= 5 && creates <= gets
    ensures out != Nil && !out.GetTransient? && !out.CreateTransient? ==>
      !Retried(s, e, gets - 1) && !Settled(s, e, gets - 1) && AllRetried(s, e, gets - 1)
    ensures created <= 1 && (created == 1 ==> out == Nil)
    ensures created == 1 <==> out == Nil && s.get(gets - 1).NotFound? && s.create(gets - 1).Created?
    ensures creates == Tried(s, e, gets)
    ensures slept == Slept(s, if out.GetTransient? || out.CreateTransient? then 5 else gets - 1) <= 4500
    ensures out == GetFailed <==> !out.GetTransient? && !out.CreateTransient? && s.get(gets - 1).GetError?
    ensures out == DecodeFailed <==>
      !out.GetTransient? && !out.CreateTransient? && s.get(gets - 1).NotFound? && e.Undecodable?
    ensures out == WrongKind <==>
      && !out.GetTransient? && !out.CreateTransient? && s.get(gets - 1).NotFound?
      && e.OfKind? && e.kind != DEFINITION
  {
    hide TransientText, DEFINITION;
    gets, creates, created, slept := 0, 0, 0, 0;
    var lastErr: Option<Outcome> := None;
    for attempt := 0 to 5
      invariant gets == attempt && creates <= gets && created == 0
      invariant AllRetried(s, e, attempt)
      invariant attempt > 0 ==> lastErr.Some? && (lastErr.value.GetTransient? || lastErr.value.CreateTransient?)
      invariant attempt > 0 && lastErr.value.GetTransient? ==> lastErr.value.attempt == attempt && s.get(attempt - 1).GetError?
      invariant attempt > 0 && lastErr.value.CreateTransient? ==> lastErr.value.attempt == attempt && s.get(attempt - 1).NotFound?
      invariant slept == Slept(s, attempt) <= 150 * attempt * (attempt + 1)
      invariant creates == Tried(s, e, attempt)
    {
      var got := s.get(attempt);
      gets := gets + 1;
      match got {
        case NotFound =>
        case GetError(message) =>
          if TransientText(message) {
            lastErr := Some(GetTransient(attempt + 1));
            slept := slept + (attempt + 1) * 200;
            continue;
          }
          LastAttempt(s, e, attempt);
          return GetFailed, gets, creates, created, slept;
        case Exists =>
          LastAttempt(s, e, attempt);
          return Nil, gets, creates, created, slept;
      }
      if e.Undecodable? {
        LastAttempt(s, e, attempt);
        return DecodeFailed, gets, creates, created, slept;
      }
      if e.kind != DEFINITION {
        LastAttempt(s, e, attempt);
        return WrongKind, gets, creates, created, slept;
      }
      var answer := s.create(attempt);
      creates := creates + 1;
      if answer.Created? || answer.AlreadyExists? {
        LastAttempt(s, e, attempt);
        created := if answer.Created? then created + 1 else created;
        return Nil, gets, creates, created, slept;
      }
      if TransientText(answer.message) {
        lastErr := Some(CreateTransient(attempt + 1));
        slept := slept + (attempt + 1) * 300;
        continue;
      }
      LastAttempt(s, e, attempt);
      return CreateFailed, gets, creates, created, slept;
    }
    forall k: nat | k < 5 ensures !Settled(s, e, k) {
      assert Retried(s, e, k);
    }
    if lastErr.Some? {
      return lastErr.value, gets, creates, created, slept;
    }
    return Exhausted, gets, creates, created, slept;
  }
}
