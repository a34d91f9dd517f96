/** The periodic check interval: read once from the environment, then latched for the life of the process. */
module CheckInterval {
  import opened Wrappers
  import opened Resources
  import opened Manifest

  const MAX_INT64: int := 0x7FFF_FFFF_FFFF_FFFF
  const MAX_SECONDS: int := 9223372036

  type int64 = x: int | -MAX_INT64 - 1 <= x <= MAX_INT64

  /** Go's int64 arithmetic wraps around. */
  function Wrap64(x: int): (r: int64)
    ensures (x - r) % (2 * (MAX_INT64 + 1)) == 0
  {
    (x + MAX_INT64 + 1) % (2 * (MAX_INT64 + 1)) - MAX_INT64 - 1
  }

  function TrimSpace(s: string): (r: string)
    ensures r == "" <==> Blank(s)
  {
    if s == "" then s
    else if IsSpace(s[0]) then
      assert s == [s[0]] + s[1..];
      TrimSpace(s[1..])
    else if IsSpace(s[|s| - 1]) then
      assert !Blank(s[..|s| - 1]) by {
        assert s[..|s| - 1][0] == s[0];
      }
      TrimSpace(s[..|s| - 1])
    else s
  }

  /** s[i..j] is what stands between white space, and there is none at either end of it. */
  predicate IsCore(s: string, i: nat, j: nat) {
    && i <= j <= |s|
    && Blank(s[..i]) && Blank(s[j..])
    && (i < j ==> !IsSpace(s[i]) && !IsSpace(s[j - 1]))
  }

  lemma CoreAfter(c: char, t: string, i: nat, j: nat)
    requires IsSpace(c) && IsCore(t, i, j)
    ensures IsCore([c] + t, i + 1, j + 1) && ([c] + t)[i + 1..j + 1] == t[i..j]
  {
    hide IsSpace;
    var s := [c] + t;
    assert s[..i + 1] == [c] + t[..i] && s[j + 1..] == t[j..];
  }

  lemma CoreBefore(t: string, c: char, i: nat, j: nat)
    requires IsSpace(c) && IsCore(t, i, j)
    ensures IsCore(t + [c], i, j) && (t + [c])[i..j] == t[i..j]
  {
    hide IsSpace;
    var s := t + [c];
    assert s[..i] == t[..i] && s[j..] == t[j..] + [c];
  }

  lemma {:induction false} TrimSpaceIsExact(s: string) returns (i: nat, j: nat)
    ensures IsCore(s, i, j) && TrimSpace(s) == s[i..j]
    decreases |s|
  {
    hide IsSpace;
    i, j := 0, |s|;
    if s != "" && IsSpace(s[0]) {
      i, j := TrimSpaceIsExact(s[1..]);
      CoreAfter(s[0], s[1..], i, j);
      assert s == [s[0]] + s[1..];
      i, j := i + 1, j + 1;
    } else if s != "" && IsSpace(s[|s| - 1]) {
      i, j := TrimSpaceIsExact(s[..|s| - 1]);
      CoreBefore(s[..|s| - 1], s[|s| - 1], i, j);
      assert s == s[..|s| - 1] + [s[|s| - 1]];
    }
  }

  /** time.ParseDuration and strconv.Atoi; None is their error. */
  datatype Parsers = Parsers(duration: string -> Option<int64>, integer: string -> Option<int64>)

  /** The value is read as a number of seconds. */
  predicate ReadsSeconds(p: Parsers, v: string) {
    && v != ""
    && !(p.duration(v).Some? && p.duration(v).value > 0)
    && p.integer(v).Some? && p.integer(v).value > 0
  }

  /** The interval a setting asks for, in exact arithmetic. */
  function Requested(p: Parsers, env: string): (d: int)
    ensures d > 0
  {
    var v := TrimSpace(env);
    if ReadsSeconds(p, v) then p.integer(v).value * SECOND
    else if v != "" && p.duration(v).Some? && p.duration(v).value > 0 then p.duration(v).value
    else 60 * SECOND
  }

  /** What the first call latches: the multiplication of seconds wraps around. */
  function Latched(p: Parsers, env: string): (d: int)
    ensures d == Requested(p, env) <==> !(ReadsSeconds(p, TrimSpace(env)) && p.integer(TrimSpace(env)).value > MAX_SECONDS)
  {
    var v := TrimSpace(env);
    if ReadsSeconds(p, v) then
      SecondsFit(p.integer(v).value);
      Wrap64(p.integer(v).value * SECOND)
    else Requested(p, env)
  }

  /** The setting is a number of seconds whose nanoseconds, taken modulo 2^64, are zero or beyond the largest int64. */
  predicate Overflows(p: Parsers, env: string) {
    var v := TrimSpace(env);
    ReadsSeconds(p, v) && !(0 < p.integer(v).value * SECOND % (2 * (MAX_INT64 + 1)) <= MAX_INT64)
  }

  lemma WrapIsPositive(x: int)
    ensures Wrap64(x) > 0 <==> 0 < x % (2 * (MAX_INT64 + 1)) <= MAX_INT64
  {
    var m := 2 * (MAX_INT64 + 1);
    var r := x % m;
    if r <= MAX_INT64 {
      assert (x + MAX_INT64 + 1) % m == r + MAX_INT64 + 1;
    } else {
      assert (x + MAX_INT64 + 1) % m == r - MAX_INT64 - 1;
    }
  }

  /** The interval latched is positive exactly for a setting that does not overflow; no duration does, nor the default,
      nor a number of seconds up to MAX_SECONDS. */
  lemma LatchedIsPositive(p: Parsers, env: string)
    ensures Latched(p, env) > 0 <==> !Overflows(p, env)
    ensures !ReadsSeconds(p, TrimSpace(env)) || p.integer(TrimSpace(env)).value <= MAX_SECONDS ==> !Overflows(p, env)
  {
    var v := TrimSpace(env);
    if ReadsSeconds(p, v) {
      WrapIsPositive(p.integer(v).value * SECOND);
      SecondsFit(p.integer(v).value);
    }
  }

  class Latch {
    var once: bool
    var interval: int

    constructor ()
      ensures !once
    {
      once, interval := false, 0;
    }

    method GetCheckInterval(p: Parsers, env: string) returns (d: int)
      modifies this
      ensures once && interval == d
      ensures old(once) ==> d == old(interval)
      ensures !old(once) ==> d == Latched(p, env)
      ensures !old(once) ==>
        var v := TrimSpace(env);
        var asDuration, asInteger := p.duration(v), p.integer(v);
        && (v == "" ==> d == 60_000_000_000)
        && (v != "" && asDuration.Some? && asDuration.value > 0 ==> d == asDuration.value)
        && (v != "" && (asDuration.None? || asDuration.value <= 0) && asInteger.Some? && 0 < asInteger.value <= 9_223_372_036 ==>
              d == asInteger.value * 1_000_000_000)
        && (v != "" && (asDuration.None? || asDuration.value <= 0) && (asInteger.None? || asInteger.value <= 0) ==>
              d == 60_000_000_000)
      ensures !old(once) ==>
        (d == Requested(p, env) <==> !(ReadsSeconds(p, TrimSpace(env)) && p.integer(TrimSpace(env)).value > MAX_SECONDS))
    {
      if !once {
        once := true;
        var v := TrimSpace(env);
        var asDuration := p.duration(v);
        var asInteger := p.integer(v);
        if v == "" {
          interval := 60 * SECOND;
        } else if asDuration.Some? && asDuration.value > 0 {
          interval := asDuration.value;
        } else if asInteger.Some? && asInteger.value > 0 {
          interval := Wrap64(asInteger.value * SECOND);
        } else {
          interval := 60 * SECOND;
        }
      }
      d := interval;
    }
  }

  /** A whole number of seconds survives the multiplication iff it is at most MAX_SECONDS. */
  lemma SecondsFit(s: int64)
    requires s > 0
    ensures Wrap64(s * SECOND) == s * SECOND <==> s <= MAX_SECONDS
  {
    assert MAX_SECONDS * SECOND <= MAX_INT64 < (MAX_SECONDS + 1) * SECOND;
    if s > MAX_SECONDS {
      assert s * SECOND > MAX_INT64;
    }
  }

  /** One second more than fits becomes a negative interval, and 2^55 seconds becomes zero: neither requeues. */
  lemma LargeSecondsAreLost()
    ensures Wrap64((MAX_SECONDS + 1) * SECOND) < 0
    ensures Wrap64(0x80_0000_0000_0000 * SECOND) == 0
  {
  }
}
