/** The token bucket of internal/ratelimit: its arithmetic, the Limiter object,
    and what any run of it admits and refuses.

    Time is an integer number of nanoseconds; tokens and rates are exact reals
    where the program uses float64. */
module TokenBucket {

  const SECOND: int := 1_000_000_000

  /** What both limiters are configured with; `Valid` is what New demands before it builds one. */
  datatype Limits = Limits(rate: real, burst: int) {
    predicate Valid() {
      rate > 0.0 && burst > 0
    }
  }

  datatype Bucket = Bucket(tokens: real, last: int)

  datatype Taken = Taken(bucket: Bucket, ok: bool, retry: int)

  /** Tokens earned in `ns` nanoseconds. */
  function Earned(l: Limits, ns: int): real {
    ns as real / SECOND as real * l.rate
  }

  lemma EarnedIsLinear(l: Limits, a: int, b: int)
    requires l.Valid()
    ensures Earned(l, a + b) == Earned(l, a) + Earned(l, b)
    ensures a <= b ==> Earned(l, a) <= Earned(l, b)
    ensures a < b ==> Earned(l, a) < Earned(l, b)
    ensures Earned(l, 0) == 0.0
  {
    var x, y, s := a as real / SECOND as real, b as real / SECOND as real, l.rate;
    assert (a + b) as real / SECOND as real == x + y;
    assert (x + y) * s == x * s + y * s;
    if a < b {
      assert x < y;
      assert (y - x) * s > 0.0;
      assert (y - x) * s == y * s - x * s;
    }
  }

  /** A bucket that newAt would build at `now`: full. */
  function Fresh(l: Limits, now: int): Bucket {
    Bucket(l.burst as real, now)
  }

  /** The effect of advanceLocked. */
  function Advance(l: Limits, b: Bucket, now: int): Bucket {
    var elapsed := now - b.last;
    if elapsed <= 0 then
      Bucket(b.tokens, now)
    else
      var tokens := b.tokens + Earned(l, elapsed);
      Bucket(if tokens > l.burst as real then l.burst as real else tokens, now)
  }

  /** The nanoseconds until one token is there, before any truncation. */
  function ExactWait(l: Limits, tokens: real): real
    requires l.Valid()
  {
    (1.0 - tokens) / l.rate * SECOND as real
  }

  function RetryAfter(l: Limits, tokens: real): int
    requires l.Valid()
  {
    var wait := ExactWait(l, tokens).Floor;
    if wait < SECOND then SECOND else wait
  }

  /** The effect and the answer of Limiter.Allow at clock reading `now`. */
  function Take(l: Limits, b: Bucket, now: int): Taken
    requires l.Valid()
  {
    var a := Advance(l, b, now);
    if a.tokens >= 1.0 then
      Taken(Bucket(a.tokens - 1.0, a.last), true, 0)
    else
      Taken(a, false, RetryAfter(l, a.tokens))
  }

  /** The level a bucket never leaves. */
  predicate Sound(l: Limits, b: Bucket) {
    0.0 <= b.tokens <= l.burst as real
  }

  lemma TakeIsSound(l: Limits, b: Bucket, now: int)
    requires l.Valid() && Sound(l, b)
    ensures Sound(l, Advance(l, b, now)) && Sound(l, Take(l, b, now).bucket)
    ensures Advance(l, b, now).tokens >= b.tokens
    ensures Take(l, b, now).bucket.last == now
  {
    EarnedIsLinear(l, 0, now - b.last);
  }

  /** Refilling in two steps is refilling in one: what makes a sweep's touch invisible. */
  lemma AdvanceTwice(l: Limits, b: Bucket, t: int, u: int)
    requires l.Valid() && Sound(l, b) && b.last <= t <= u
    ensures Advance(l, Advance(l, b, t), u) == Advance(l, b, u)
  {
    EarnedIsLinear(l, t - b.last, u - t);
    EarnedIsLinear(l, 0, u - t);
    assert (t - b.last) + (u - t) == u - b.last;
  }

  // ---------------------------------------------------------------- the object

  /** One token bucket. Each method takes the clock reading it would make. */
  class Limiter {
    const limits: Limits
    var tokens: real
    var last: int

    ghost predicate Valid()
      reads this
    {
      limits.Valid() && Sound(limits, State())
    }

    function State(): Bucket
      reads this
    {
      Bucket(tokens, last)
    }

    constructor At(limits: Limits, now: int)
      requires limits.Valid()
      ensures Valid() && this.limits == limits && State() == Fresh(limits, now)
    {
      this.limits := limits;
      tokens := limits.burst as real;
      last := now;
    }

    method AdvanceTo(now: int)
      requires Valid()
      modifies this
      ensures Valid() && State() == Advance(limits, old(State()), now)
    {
      TakeIsSound(limits, State(), now);
      var elapsed := now - last;
      if elapsed <= 0 {
        last := now;
        return;
      }
      last := now;
      tokens := tokens + Earned(limits, elapsed);
      if tokens > limits.burst as real {
        tokens := limits.burst as real;
      }
    }

    method Allow(now: int) returns (ok: bool, retry: int)
      requires Valid()
      modifies this
      ensures Valid() && Taken(State(), ok, retry) == Take(limits, old(State()), now)
    {
      AdvanceTo(now);
      if tokens >= 1.0 {
        tokens := tokens - 1.0;
        return true, 0;
      }
      var wait := ((1.0 - tokens) / limits.rate * SECOND as real).Floor;
      if wait < SECOND {
        wait := SECOND;
      }
      return false, wait;
    }

    method FullAt(now: int) returns (full: bool)
      requires Valid()
      modifies this
      ensures Valid() && State() == Advance(limits, old(State()), now)
      ensures full <==> State().tokens == limits.burst as real
    {
      AdvanceTo(now);
      full := tokens >= limits.burst as real;
    }
  }

  /** New: null is the always-allowing limiter, and is what a non-positive bound gives. */
  method New(rate: real, burst: int, now: int) returns (l: Limiter?)
    ensures l == null <==> rate <= 0.0 || burst <= 0
    ensures l != null ==> fresh(l) && l.Valid() && l.limits == Limits(rate, burst) && l.State() == Fresh(l.limits, now)
  {
    if rate <= 0.0 || burst <= 0 {
      return null;
    }
    l := new Limiter.At(Limits(rate, burst), now);
  }

  // ---------------------------------------------------------------- whole runs

  /** The bucket after calls at the clock readings `times`. */
  function After(l: Limits, b: Bucket, times: seq<int>): Bucket
    requires l.Valid()
  {
    if times == [] then b else Take(l, After(l, b, times[..|times| - 1]), times[|times| - 1]).bucket
  }

  /** The level call `j` finds after refilling. */
  function LevelAt(l: Limits, b: Bucket, times: seq<int>, j: nat): real
    requires l.Valid() && j < |times|
  {
    Advance(l, After(l, b, times[..j]), times[j]).tokens
  }

  predicate AdmittedAt(l: Limits, b: Bucket, times: seq<int>, j: nat)
    requires l.Valid() && j < |times|
  {
    Take(l, After(l, b, times[..j]), times[j]).ok
  }

  /** How many of the calls `i`, ..., `j - 1` were admitted. */
  function Admitted(l: Limits, b: Bucket, times: seq<int>, i: nat, j: nat): (n: nat)
    requires l.Valid() && i <= j <= |times|
    decreases j
  {
    if i == j then 0
    else Admitted(l, b, times, i, j - 1) + (if AdmittedAt(l, b, times, j - 1) then 1 else 0)
  }

  /** How far the clock moved forward between readings `i` and `j`; steps back count nothing. */
  function Forward(times: seq<int>, i: nat, j: nat): nat
    requires i <= j < |times|
    decreases j
  {
    if i == j then 0
    else Forward(times, i, j - 1) + (if times[j] > times[j - 1] then times[j] - times[j - 1] else 0)
  }

  predicate Monotone(times: seq<int>) {
    forall i, j :: 0 <= i <= j < |times| ==> times[i] <= times[j]
  }

  /** When the clock never steps back, its forward movement is the time elapsed. */
  lemma {:induction false} ForwardIsElapsed(times: seq<int>, i: nat, j: nat)
    requires i <= j < |times| && Monotone(times)
    ensures Forward(times, i, j) == times[j] - times[i]
    decreases j
  {
    if i < j {
      ForwardIsElapsed(times, i, j - 1);
    }
  }

  lemma AfterSteps(l: Limits, b: Bucket, times: seq<int>, j: nat)
    requires l.Valid() && Sound(l, b) && j < |times|
    ensures After(l, b, times[..j + 1]) == Take(l, After(l, b, times[..j]), times[j]).bucket
    ensures After(l, b, times[..j + 1]).last == times[j]
  {
    assert times[..j + 1][..j] == times[..j];
    AfterIsSound(l, b, times[..j]);
    TakeIsSound(l, After(l, b, times[..j]), times[j]);
  }

  lemma AfterIsSound(l: Limits, b: Bucket, times: seq<int>)
    requires l.Valid() && Sound(l, b)
    ensures Sound(l, After(l, b, times))
  {
    if times != [] {
      AfterIsSound(l, b, times[..|times| - 1]);
      TakeIsSound(l, After(l, b, times[..|times| - 1]), times[|times| - 1]);
    }
  }

  /** What a call spends was in the bucket, or was earned by the clock's movement up to the call. */
  lemma TakeSpends(l: Limits, b: Bucket, now: int)
    requires l.Valid() && Sound(l, b)
    ensures var t := Take(l, b, now);
      && t.bucket.tokens + (if t.ok then 1.0 else 0.0) <= l.burst as real
      && t.bucket.tokens + (if t.ok then 1.0 else 0.0) <= b.tokens + Earned(l, if now > b.last then now - b.last else 0)
  {
    EarnedIsLinear(l, 0, 0);
  }

  /** How far the clock moved forward just before call `j`. */
  function StepForward(times: seq<int>, j: nat): nat
    requires 0 < j < |times|
  {
    if times[j] > times[j - 1] then times[j] - times[j - 1] else 0
  }

  lemma SpendsAt(l: Limits, b: Bucket, times: seq<int>, j: nat)
    requires l.Valid() && Sound(l, b) && j < |times|
    ensures var spent := After(l, b, times[..j + 1]).tokens + (if AdmittedAt(l, b, times, j) then 1.0 else 0.0);
      && spent <= l.burst as real && After(l, b, times[..j + 1]).tokens >= 0.0
      && (j > 0 ==> spent <= After(l, b, times[..j]).tokens + Earned(l, StepForward(times, j)))
  {
    AfterIsSound(l, b, times[..j]);
    AfterIsSound(l, b, times[..j + 1]);
    AfterSteps(l, b, times, j);
    TakeSpends(l, After(l, b, times[..j]), times[j]);
    if j > 0 {
      AfterSteps(l, b, times, j - 1);
    }
  }

  /** Between any two calls of any run, whatever the clock does, admissions never exceed the
      burst plus what the clock's forward movement earns. */
  lemma {:induction false} AdmissionsAreBounded(l: Limits, b: Bucket, times: seq<int>, i: nat, j: nat)
    requires l.Valid() && Sound(l, b) && i <= j < |times|
    ensures Admitted(l, b, times, i, j + 1) as real + After(l, b, times[..j + 1]).tokens
            <= l.burst as real + Earned(l, Forward(times, i, j))
    ensures Admitted(l, b, times, i, j + 1) as real <= l.burst as real + Earned(l, Forward(times, i, j))
    decreases j
  {
    SpendsAt(l, b, times, j);
    EarnedIsLinear(l, 0, 0);
    if i < j {
      AdmissionsAreBounded(l, b, times, i, j - 1);
      EarnedIsLinear(l, Forward(times, i, j - 1), StepForward(times, j));
    }
  }

  /** What is left, when call `j` comes, of the bound on the window that opens with call `i`. */
  function Slack(l: Limits, b: Bucket, times: seq<int>, i: nat, j: nat): real
    requires l.Valid() && i <= j < |times|
  {
    l.burst as real + Earned(l, times[j] - times[i]) - Admitted(l, b, times, i, j) as real
  }

  /** One more admission at call `j` would put more than burst + rate * time into the window
      that opens with call `i`. */
  predicate WouldExceed(l: Limits, b: Bucket, times: seq<int>, i: nat, j: nat)
    requires l.Valid() && i <= j < |times|
  {
    Admitted(l, b, times, i, j) as real + 1.0 > l.burst as real + Earned(l, times[j] - times[i])
  }

  lemma LevelSteps(l: Limits, b: Bucket, times: seq<int>, j: nat)
    requires l.Valid() && Sound(l, b) && 0 < j < |times| && times[j - 1] <= times[j]
    ensures var level := LevelAt(l, b, times, j - 1) - (if AdmittedAt(l, b, times, j - 1) then 1.0 else 0.0)
                         + Earned(l, times[j] - times[j - 1]);
      LevelAt(l, b, times, j) == if level > l.burst as real then l.burst as real else level
  {
    AfterIsSound(l, b, times[..j]);
    AfterSteps(l, b, times, j - 1);
    EarnedIsLinear(l, 0, 0);
  }

  lemma {:induction false} SlackSteps(l: Limits, b: Bucket, times: seq<int>, i: nat, j: nat)
    requires l.Valid() && i < j < |times|
    ensures Slack(l, b, times, i, j) == Slack(l, b, times, i, j - 1)
              - (if AdmittedAt(l, b, times, j - 1) then 1.0 else 0.0) + Earned(l, times[j] - times[j - 1])
  {
    EarnedIsLinear(l, times[j - 1] - times[i], times[j] - times[j - 1]);
  }

  /** The min-plus formula: the level is the least slack over the windows that end now. */
  lemma {:induction false} LevelIsLeastSlack(l: Limits, start: int, times: seq<int>, j: nat) returns (k: nat)
    requires l.Valid() && j < |times| && Monotone(times)
    ensures k <= j && LevelAt(l, Fresh(l, start), times, j) == Slack(l, Fresh(l, start), times, k, j)
    ensures forall i: nat :: i <= j ==> LevelAt(l, Fresh(l, start), times, j) <= Slack(l, Fresh(l, start), times, i, j)
    decreases j
  {
    var b := Fresh(l, start);
    EarnedIsLinear(l, 0, 0);
    assert Slack(l, b, times, j, j) == l.burst as real;
    if j == 0 {
      EarnedIsLinear(l, 0, times[0] - start);
      k := 0;
    } else {
      k := LevelIsLeastSlack(l, start, times, j - 1);
      LevelSteps(l, b, times, j);
      forall i: nat | i < j
        ensures LevelAt(l, b, times, j) <= Slack(l, b, times, i, j)
      {
        SlackSteps(l, b, times, i, j);
      }
      SlackSteps(l, b, times, k, j);
      if LevelAt(l, b, times, j) == l.burst as real {
        k := j;
      }
    }
  }

  /** A limiter made by New is exact: a call is refused if and only if admitting it would break
      the bound burst + rate * time over some window ending with it. */
  lemma RefusedIffBoundWouldBreak(l: Limits, start: int, times: seq<int>, j: nat)
    requires l.Valid() && j < |times| && Monotone(times)
    ensures !AdmittedAt(l, Fresh(l, start), times, j) <==>
            exists i: nat :: i <= j && WouldExceed(l, Fresh(l, start), times, i, j)
  {
    var k := LevelIsLeastSlack(l, start, times, j);
    if !AdmittedAt(l, Fresh(l, start), times, j) {
      assert WouldExceed(l, Fresh(l, start), times, k, j);
    } else {
      forall i: nat | i <= j
        ensures !WouldExceed(l, Fresh(l, start), times, i, j)
      {
        assert 1.0 <= Slack(l, Fresh(l, start), times, i, j);
      }
    }
  }

  /** How many of the first `n` answers of a policy are admissions. */
  function Yes(policy: seq<bool>, n: nat): nat
    requires n <= |policy|
  {
    if n == 0 then 0 else Yes(policy, n - 1) + (if policy[n - 1] then 1 else 0)
  }

  /** A policy that keeps the bound over every window. */
  predicate KeepsBound(l: Limits, times: seq<int>, policy: seq<bool>)
    requires |policy| == |times|
  {
    forall i, j :: 0 <= i <= j < |times| ==>
      (Yes(policy, j + 1) - Yes(policy, i)) as real <= l.burst as real + Earned(l, times[j] - times[i])
  }

  lemma {:induction false} AdmittedSplits(l: Limits, b: Bucket, times: seq<int>, i: nat, j: nat)
    requires l.Valid() && i <= j <= |times|
    ensures Admitted(l, b, times, 0, j) == Admitted(l, b, times, 0, i) + Admitted(l, b, times, i, j)
    decreases j
  {
    if i < j {
      AdmittedSplits(l, b, times, i, j - 1);
    }
  }

  /** No policy that keeps the bound admits more, by any point of the run, than the bucket does. */
  lemma {:induction false} NoPolicyAdmitsMore(l: Limits, start: int, times: seq<int>, policy: seq<bool>, n: nat)
    requires l.Valid() && Monotone(times) && |policy| == |times| && n <= |times|
    requires KeepsBound(l, times, policy)
    ensures Yes(policy, n) <= Admitted(l, Fresh(l, start), times, 0, n)
    decreases n
  {
    if n > 0 {
      var j := n - 1;
      var b := Fresh(l, start);
      NoPolicyAdmitsMore(l, start, times, policy, j);
      RefusedIffBoundWouldBreak(l, start, times, j);
      if policy[j] && !AdmittedAt(l, b, times, j) {
        var i: nat :| i <= j && WouldExceed(l, b, times, i, j);
        NoPolicyAdmitsMore(l, start, times, policy, i);
        AdmittedSplits(l, b, times, i, j);
        assert Yes(policy, j + 1) == Yes(policy, j) + 1;
        assert (Yes(policy, j + 1) - Yes(policy, i)) as real <= l.burst as real + Earned(l, times[j] - times[i]);
      }
    }
  }

  // ---------------------------------------------------------------- Retry-After

  /** The Retry-After header: the delay in seconds, rounded up. */
  function HeaderSeconds(retry: int): int {
    -((-retry) / SECOND)
  }

  /** Whether the next call, made `delay` after a refusal at `now`, is admitted. */
  predicate RetryAdmitted(l: Limits, b: Bucket, now: int, delay: nat)
    requires l.Valid()
  {
    Take(l, Take(l, b, now).bucket, now + delay).ok
  }

  lemma EarnsTokenAt(l: Limits, tokens: real, delay: int)
    requires l.Valid() && tokens < 1.0
    ensures tokens + Earned(l, delay) >= 1.0 <==> delay as real >= ExactWait(l, tokens)
    ensures tokens + Earned(l, delay) > 1.0 <==> delay as real > ExactWait(l, tokens)
  {
    var s := SECOND as real;
    var x := ExactWait(l, tokens) / s;
    assert x * l.rate == 1.0 - tokens;
    var d := delay as real / s;
    assert (d - x) * l.rate == d * l.rate - x * l.rate;
    if d > x {
      assert (d - x) * l.rate > 0.0;
    } else if d < x {
      assert (x - d) * l.rate > 0.0;
    }
  }

  /** A call after a refusal is admitted exactly when it comes no sooner than the exact wait. */
  lemma RetryAdmittedIff(l: Limits, b: Bucket, now: int, delay: nat)
    requires l.Valid() && Sound(l, b) && !Take(l, b, now).ok
    ensures RetryAdmitted(l, b, now, delay) <==> delay as real >= ExactWait(l, Advance(l, b, now).tokens)
  {
    var a := Advance(l, b, now);
    EarnsTokenAt(l, a.tokens, delay);
    EarnedIsLinear(l, 0, delay);
  }

  /** The reported delay is at most one nanosecond short; and unless the one-second floor
      lengthened it, no retry before it succeeds. */
  lemma {:induction false} RetryAfterIsTight(l: Limits, b: Bucket, now: int, early: nat)
    requires l.Valid() && Sound(l, b) && !Take(l, b, now).ok
    ensures var retry := Take(l, b, now).retry;
      && retry >= SECOND
      && RetryAdmitted(l, b, now, retry + 1)
      && 1.0 - (Take(l, b, now).bucket.tokens + Earned(l, retry)) < Earned(l, 1)
      && (retry > SECOND && early < retry ==> !RetryAdmitted(l, b, now, early))
  {
    var tokens := Advance(l, b, now).tokens;
    var retry := Take(l, b, now).retry;
    RetryAdmittedIff(l, b, now, retry + 1);
    RetryAdmittedIff(l, b, now, early);
    var wait := ExactWait(l, tokens);
    assert wait < wait.Floor as real + 1.0;
    EarnsTokenAt(l, tokens, retry + 1);
    EarnedIsLinear(l, retry, 1);
  }

  /** The exact waits that the header cuts short: a second or more, not a whole number of
      nanoseconds, and a whole number of seconds once the rest is dropped. */
  predicate CutShort(wait: real) {
    wait >= SECOND as real && wait != wait.Floor as real && wait.Floor % SECOND == 0
  }

  /** A client that waits the header's seconds is admitted on its next attempt, unless the exact wait
      is one that the header cuts short. */
  lemma HeaderHonouredIff(l: Limits, b: Bucket, now: int)
    requires l.Valid() && Sound(l, b) && !Take(l, b, now).ok
    ensures var retry := Take(l, b, now).retry;
      && retry <= HeaderSeconds(retry) * 1_000_000_000 < retry + 1_000_000_000
      && (RetryAdmitted(l, b, now, HeaderSeconds(retry) * SECOND)
          <==> !CutShort(ExactWait(l, Advance(l, b, now).tokens)))
  {
    var retry := Take(l, b, now).retry;
    var wait := ExactWait(l, Advance(l, b, now).tokens);
    assert wait < wait.Floor as real + 1.0;
    RetryAdmittedIff(l, b, now, HeaderSeconds(retry) * SECOND);
  }

  /** One token, refilled every 2.0000000005 seconds. */
  const SLOW := Limits(2_000_000_000.0 / 4_000_000_001.0, 1)

  /** The exception happens: of three calls to a new bucket the first spends its token, the second is
      refused with Retry-After: 2, and the third, two seconds later, is refused again. */
  lemma HeaderHonouredFails()
    ensures SLOW.Valid() && Take(SLOW, Fresh(SLOW, 0), 0).ok
    ensures var b := Take(SLOW, Fresh(SLOW, 0), 0).bucket;
      && !Take(SLOW, b, 0).ok && HeaderSeconds(Take(SLOW, b, 0).retry) == 2
      && !RetryAdmitted(SLOW, b, 0, 2 * SECOND)
  {
    var b := Take(SLOW, Fresh(SLOW, 0), 0).bucket;
    assert b == Bucket(0.0, 0) && Advance(SLOW, b, 0) == b;
    assert ExactWait(SLOW, 0.0) == 2_000_000_000.5;
    assert Take(SLOW, b, 0).retry == 2 * SECOND;
    HeaderHonouredIff(SLOW, b, 0);
  }
}
