/** Telling two buckets apart: what later calls can see of a difference between them. */
module Apart {
  import opened Eviction
  import opened KeyedLimiter
  import opened TokenBucket

  /** Readings from `clock` on that do not step back. */
  predicate From(clock: int, times: seq<int>)
    decreases |times|
  {
    times != [] ==> clock <= times[0] && From(times[0], times[1..])
  }

  /** The answer to the last of these readings. */
  function LastAnswer(l: Limits, b: Bucket, times: seq<int>): Taken
    requires l.Valid() && times != []
    decreases |times|
  {
    var t := Take(l, b, times[0]);
    if |times| == 1 then t else LastAnswer(l, t.bucket, times[1..])
  }

  /** The readings at the end of which the first bucket admits and the second refuses. */
  predicate Tell(l: Limits, a: Bucket, b: Bucket, clock: int, times: seq<int>)
    requires l.Valid()
  {
    times != [] && From(clock, times) && LastAnswer(l, a, times).ok && !LastAnswer(l, b, times).ok
  }

  /** Buckets that are the same from some reading on answer alike for ever. */
  lemma {:induction false} SameAnswers(p: Policy, a: Bucket, b: Bucket, clock: int, times: seq<int>)
    requires p.Valid() && SameFrom(p, a, b, clock) && times != [] && From(clock, times)
    ensures LastAnswer(p.limits, a, times) == LastAnswer(p.limits, b, times)
    decreases |times|
  {
    SameLater(p, a, b, clock, times[0]);
    assert Take(p.limits, a, times[0]) == Take(p.limits, b, times[0]);
    if |times| > 1 {
      TakeIsSound(p.limits, a, times[0]);
      SameAnswers(p, Take(p.limits, a, times[0]).bucket, Take(p.limits, b, times[0]).bucket, times[0], times[1..]);
    }
  }

  // ---------------------------------------------------------------- by their levels

  /** Two levels that are not the same number of whole tokens: at most as many calls as the fuller
      bucket has tokens, all of them at once, tell them apart. */
  lemma {:induction false} ApartAtOnce(l: Limits, a: Bucket, b: Bucket, clock: int) returns (times: seq<int>)
    requires l.Valid() && Sound(l, a) && Sound(l, b)
    requires Advance(l, a, clock).tokens.Floor > Advance(l, b, clock).tokens.Floor
    ensures 0 < |times| <= l.burst && Tell(l, a, b, clock, times) && forall i :: 0 <= i < |times| ==> times[i] == clock
    ensures |times| == Advance(l, b, clock).tokens.Floor + 1
    decreases Advance(l, b, clock).tokens.Floor
  {
    TakeIsSound(l, a, clock);
    TakeIsSound(l, b, clock);
    var u, v := Advance(l, a, clock).tokens, Advance(l, b, clock).tokens;
    if v < 1.0 {
      times := [clock];
    } else {
      var a', b' := Take(l, a, clock).bucket, Take(l, b, clock).bucket;
      assert Advance(l, a', clock) == a' && Advance(l, b', clock) == b';
      assert (u - 1.0).Floor == u.Floor - 1 && (v - 1.0).Floor == v.Floor - 1;
      var rest := ApartAtOnce(l, a', b', clock);
      times := [clock] + rest;
      assert times[1..] == rest;
    }
  }

  /** Two levels apart by what a nanosecond earns, or more: some readings tell them apart. */
  lemma {:induction false} ApartInTime(l: Limits, a: Bucket, b: Bucket, clock: int) returns (times: seq<int>)
    requires l.Valid() && Sound(l, a) && Sound(l, b)
    requires Advance(l, a, clock).tokens >= Advance(l, b, clock).tokens + Earned(l, 1)
    ensures Tell(l, a, b, clock, times)
    decreases Advance(l, b, clock).tokens.Floor
  {
    TakeIsSound(l, a, clock);
    TakeIsSound(l, b, clock);
    EarnedIsLinear(l, 0, 1);
    var u, v := Advance(l, a, clock).tokens, Advance(l, b, clock).tokens;
    var a', b' := Take(l, a, clock).bucket, Take(l, b, clock).bucket;
    if u < 1.0 {
      var at := NextToken(l, a', b', clock);
      times := [clock, at];
      assert times[1..] == [at];
    } else if v < 1.0 {
      times := [clock];
    } else {
      assert Advance(l, a', clock) == a' && Advance(l, b', clock) == b';
      assert (v - 1.0).Floor == v.Floor - 1;
      var rest := ApartInTime(l, a', b', clock);
      times := [clock] + rest;
      assert times[1..] == rest;
    }
  }

  /** The first nanosecond at which the fuller of two empty buckets has a token. */
  lemma NextToken(l: Limits, a: Bucket, b: Bucket, clock: int) returns (at: int)
    requires l.Valid() && Sound(l, a) && Sound(l, b) && a.last == b.last == clock
    requires 1.0 > a.tokens >= b.tokens + Earned(l, 1)
    ensures clock <= at && Take(l, a, at).ok && !Take(l, b, at).ok
  {
    var wait := ExactWait(l, a.tokens);
    var delay := -((-wait).Floor);
    EarnsTokenAt(l, a.tokens, 0);
    EarnedIsLinear(l, 0, 0);
    EarnsTokenAt(l, a.tokens, delay);
    EarnsTokenAt(l, a.tokens, delay - 1);
    EarnedIsLinear(l, delay - 1, 1);
    at := clock + delay;
  }

  /** Levels of which some calls can tell. */
  predicate LevelsApart(l: Limits, u: real, v: real) {
    u.Floor > v.Floor || u >= v + Earned(l, 1)
  }

  lemma LevelsTell(l: Limits, a: Bucket, b: Bucket, clock: int) returns (times: seq<int>)
    requires l.Valid() && Sound(l, a) && Sound(l, b)
    requires LevelsApart(l, Advance(l, a, clock).tokens, Advance(l, b, clock).tokens)
    ensures Tell(l, a, b, clock, times)
  {
    if Advance(l, a, clock).tokens.Floor > Advance(l, b, clock).tokens.Floor {
      times := ApartAtOnce(l, a, b, clock);
    } else {
      times := ApartInTime(l, a, b, clock);
    }
  }

  // ---------------------------------------------------------------- by what they have earned

  function Capped(l: Limits, tokens: real): real {
    if tokens > l.burst as real then l.burst as real else tokens
  }

  /** `a` has the level of `b` and what `k` nanoseconds more have earned, at least for the time that
      it is ahead. */
  predicate AheadBy(l: Limits, a: Bucket, b: Bucket, k: nat) {
    a.last - b.last <= k && a.tokens == Capped(l, b.tokens + Earned(l, k))
  }

  /** Whatever sweeps do to a bucket, beside one that they leave alone, this is how it stands. */
  ghost predicate Ahead(l: Limits, a: Bucket, b: Bucket) {
    a.tokens == l.burst as real || exists k: nat :: AheadBy(l, a, b, k)
  }

  lemma AheadOfItself(l: Limits, b: Bucket)
    requires l.Valid() && Sound(l, b)
    ensures Ahead(l, b, b)
  {
    EarnedIsLinear(l, 0, 0);
    assert AheadBy(l, b, b, 0);
  }

  /** A sweep's touch, at whatever reading, keeps it so. */
  lemma AheadAdvance(l: Limits, a: Bucket, b: Bucket, now: int)
    requires l.Valid() && Sound(l, a) && Sound(l, b) && Ahead(l, a, b)
    ensures Ahead(l, Advance(l, a, now), b)
  {
    TakeIsSound(l, a, now);
    if a.tokens < l.burst as real {
      var k: nat :| AheadBy(l, a, b, k);
      if now > a.last {
        EarnedIsLinear(l, k, now - a.last);
        assert AheadBy(l, Advance(l, a, now), b, k + (now - a.last));
      } else {
        assert AheadBy(l, Advance(l, a, now), b, k);
      }
    }
  }

  /** The two levels at a reading. */
  lemma LevelsAt(l: Limits, a: Bucket, b: Bucket, k: nat, clock: int)
    requires l.Valid() && Sound(l, a) && Sound(l, b) && AheadBy(l, a, b, k)
    ensures var e := k + (if clock > a.last then clock - a.last else 0);
      var f := if clock > b.last then clock - b.last else 0;
      && e >= f
      && Advance(l, a, clock).tokens == Capped(l, b.tokens + Earned(l, e))
      && Advance(l, b, clock).tokens == Capped(l, b.tokens + Earned(l, f))
      && Earned(l, e) == Earned(l, f) + Earned(l, e - f)
      && (e > f ==> Earned(l, e) >= Earned(l, f) + Earned(l, 1)) && Earned(l, 1) > 0.0
  {
    var e := k + (if clock > a.last then clock - a.last else 0);
    var f := if clock > b.last then clock - b.last else 0;
    EarnedIsLinear(l, 0, 1);
    EarnedIsLinear(l, f, e - f);
    EarnedIsLinear(l, k, e - k);
    if e > f {
      EarnedIsLinear(l, 1, e - f - 1);
      EarnedIsLinear(l, 0, e - f - 1);
    }
  }

  /** Its level is never the lower one, and where it is higher calls can tell. */
  lemma AheadIsHigher(l: Limits, a: Bucket, b: Bucket, clock: int)
    requires l.Valid() && Sound(l, a) && Sound(l, b) && Ahead(l, a, b)
    ensures var u, v := Advance(l, a, clock).tokens, Advance(l, b, clock).tokens;
      u >= v && (u > v ==> LevelsApart(l, u, v))
  {
    TakeIsSound(l, a, clock);
    TakeIsSound(l, b, clock);
    if a.tokens < l.burst as real {
      var k: nat :| AheadBy(l, a, b, k);
      LevelsAt(l, a, b, k, clock);
    }
  }

  /** So it is the same from a reading on, or some calls from there on can tell. */
  lemma AheadTells(p: Policy, a: Bucket, b: Bucket, clock: int) returns (times: seq<int>)
    requires p.Valid() && Sound(p.limits, a) && Sound(p.limits, b) && Ahead(p.limits, a, b)
    requires !SameFrom(p, a, b, clock)
    ensures Tell(p.limits, a, b, clock, times)
  {
    var l := p.limits;
    AheadIsHigher(l, a, b, clock);
    if Advance(l, a, clock).tokens > Advance(l, b, clock).tokens {
      times := LevelsTell(l, a, b, clock);
    } else {
      LevelLater(p, a, b, clock);
      AheadIsHigher(l, a, b, b.last);
      times := LevelsTell(l, a, b, b.last);
    }
  }

  /** Of the same level now, and yet not the same: the clock has to come back to the last use of the
      one before the difference shows. */
  lemma LevelLater(p: Policy, a: Bucket, b: Bucket, clock: int)
    requires p.Valid() && Sound(p.limits, a) && Sound(p.limits, b) && Ahead(p.limits, a, b)
    requires !SameFrom(p, a, b, clock) && Advance(p.limits, a, clock).tokens == Advance(p.limits, b, clock).tokens
    ensures clock < b.last && Advance(p.limits, a, b.last).tokens > Advance(p.limits, b, b.last).tokens
  {
    var l := p.limits;
    TakeIsSound(l, a, clock);
    TakeIsSound(l, b, clock);
    assert a.tokens < l.burst as real;
    var k: nat :| AheadBy(l, a, b, k);
    LevelsAt(l, a, b, k, clock);
    EarnedIsLinear(l, 0, 0);
    LevelsAt(l, a, b, k, b.last);
  }
}
