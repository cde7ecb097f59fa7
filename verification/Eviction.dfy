/** Eviction is exact for calls that do not overlap: over any run whose clock never steps back to
    before the last sweep, the swept table answers every key as a private limiter that is never
    evicted would. For calls that overlap, and for any clock, Overlap says exactly when. */
module Eviction {
  import opened TokenBucket
  import opened KeyedLimiter

  /** What `never evicted` means: one limiter a key, built on its first call. */
  type Private = map<Key, Bucket>

  function Enter(p: Policy, q: Private, key: Key, made: int): Private {
    if key in q then q else q[key := Fresh(p.limits, made)]
  }

  // ---------------------------------------------------------------- the simulation relation

  /** From `clock` on the two buckets cannot be told apart: they refill to the same level, and either
      that is full, or both were last used by then, or they are one and the same. */
  predicate SameFrom(p: Policy, a: Bucket, b: Bucket, clock: int) {
    && Sound(p.limits, a) && Sound(p.limits, b)
    && Advance(p.limits, a, clock) == Advance(p.limits, b, clock)
    && (a == b || (a.last <= clock && b.last <= clock)
        || Advance(p.limits, a, clock).tokens == p.limits.burst as real)
  }

  predicate Matches(p: Policy, t: Table, q: Private, clock: int) {
    && t.buckets.Keys <= q.Keys
    && forall k :: k in q ==>
         SameFrom(p, if k in t.buckets then t.buckets[k] else Fresh(p.limits, clock), q[k], clock)
  }

  lemma SameLater(p: Policy, a: Bucket, b: Bucket, clock: int, later: int)
    requires p.Valid() && SameFrom(p, a, b, clock) && clock <= later
    ensures SameFrom(p, a, b, later)
  {
    if Advance(p.limits, a, clock).tokens == p.limits.burst as real {
      FullStaysFull(p.limits, a, clock, later);
      FullStaysFull(p.limits, b, clock, later);
    } else if a != b {
      AdvanceTwice(p.limits, a, clock, later);
      AdvanceTwice(p.limits, b, clock, later);
    }
    TakeIsSound(p.limits, a, later);
  }

  lemma FullStaysFull(l: Limits, b: Bucket, clock: int, later: int)
    requires l.Valid() && Sound(l, b) && clock <= later && Advance(l, b, clock).tokens == l.burst as real
    ensures Advance(l, b, later) == Fresh(l, later)
  {
    EarnedIsLinear(l, 0, later - b.last);
    EarnedIsLinear(l, clock - b.last, later - clock);
  }

  lemma FullLater(p: Policy, b: Bucket, clock: int, later: int)
    requires p.Valid() && SameFrom(p, Fresh(p.limits, clock), b, clock) && clock <= later
    ensures SameFrom(p, Fresh(p.limits, later), b, later)
  {
    SameLater(p, Fresh(p.limits, clock), b, clock, later);
    EarnedIsLinear(p.limits, 0, later - clock);
  }

  lemma MatchesLater(p: Policy, t: Table, q: Private, clock: int, later: int)
    requires p.Valid() && Matches(p, t, q, clock) && clock <= later
    ensures Matches(p, t, q, later)
  {
    forall k | k in q
      ensures SameFrom(p, if k in t.buckets then t.buckets[k] else Fresh(p.limits, later), q[k], later)
    {
      if k in t.buckets {
        SameLater(p, t.buckets[k], q[k], clock, later);
      } else {
        FullLater(p, q[k], clock, later);
      }
    }
  }

  /** A sweep drops only full buckets and its touch shows nowhere. */
  lemma SweepMatches(p: Policy, t: Table, q: Private, now: int)
    requires p.Valid() && Matches(p, t, q, now)
    ensures Matches(p, Sweep(p, t, now), q, now)
  {
    var s := Sweep(p, t, now);
    forall k | k in q
      ensures SameFrom(p, if k in s.buckets then s.buckets[k] else Fresh(p.limits, now), q[k], now)
    {
      if k in t.buckets {
        TakeIsSound(p.limits, t.buckets[k], now);
        if Stale(p, t.buckets[k], now) {
          AdvanceTwice(p.limits, t.buckets[k], now, now);
        }
      }
    }
  }

  /** A new bucket is full whenever it was made. */
  lemma {:induction false} LookupMatches(p: Policy, t: Table, q: Private, key: Key, now: int, made: int)
    requires p.Valid() && Matches(p, t, q, t.swept)
    ensures var t1 := Lookup(p, t, key, now, made); Matches(p, t1, Enter(p, q, key, made), t1.swept)
  {
    var t0 := if SweepDue(p, t, now) then Sweep(p, t, now) else t;
    if SweepDue(p, t, now) {
      MatchesLater(p, t, q, t.swept, now);
      SweepMatches(p, t, q, now);
    }
    NewIsFull(p.limits, made, t0.swept);
  }

  lemma NewIsFull(l: Limits, made: int, clock: int)
    requires l.Valid()
    ensures Advance(l, Fresh(l, made), clock) == Fresh(l, clock)
  {
    EarnedIsLinear(l, 0, clock - made);
  }

  /** The same answer, and still matching. */
  lemma {:induction false} TakeMatches(p: Policy, t: Table, q: Private, clock: int, key: Key, taken: int)
    requires p.Valid() && Matches(p, t, q, clock) && clock <= taken && key in t.buckets
    ensures var mine, alone := Take(p.limits, t.buckets[key], taken), Take(p.limits, q[key], taken);
      && mine == alone
      && Matches(p, t.(buckets := t.buckets[key := mine.bucket]), q[key := alone.bucket], clock)
  {
    SameLater(p, t.buckets[key], q[key], clock, taken);
    TakeIsSound(p.limits, q[key], taken);
  }

  // ---------------------------------------------------------------- runs of whole calls

  /** The clock never steps back: within a call, between calls, and not before the table was made. */
  predicate Ordered(start: int, calls: seq<Call>) {
    && (forall i :: 0 <= i < |calls| ==> start <= calls[i].now <= calls[i].made <= calls[i].taken)
    && (forall i, j :: 0 <= i < j < |calls| ==> calls[i].taken <= calls[j].now)
  }

  function TableAfter(p: Policy, start: int, calls: seq<Call>): Table
    requires p.Valid()
  {
    if calls == [] then Table(map[], start)
    else AfterCall(p, TableAfter(p, start, calls[..|calls| - 1]), calls[|calls| - 1])
  }

  /** The private limiters after one more call. */
  function AfterPrivate(p: Policy, q: Private, c: Call): Private
    requires p.Valid()
  {
    var q1 := Enter(p, q, c.key, c.made);
    q1[c.key := Take(p.limits, q1[c.key], c.taken).bucket]
  }

  /** The private limiters after the same calls. */
  function PrivateAfter(p: Policy, calls: seq<Call>): Private
    requires p.Valid()
  {
    if calls == [] then map[]
    else AfterPrivate(p, PrivateAfter(p, calls[..|calls| - 1]), calls[|calls| - 1])
  }

  function PrivateAnswer(p: Policy, calls: seq<Call>, c: Call): Taken
    requires p.Valid()
  {
    Take(p.limits, Enter(p, PrivateAfter(p, calls), c.key, c.made)[c.key], c.taken)
  }

  /** No call uses its bucket at a reading before that of the last sweep. */
  predicate Timely(p: Policy, start: int, calls: seq<Call>)
    requires p.Valid()
  {
    calls != [] ==>
      var before, c := calls[..|calls| - 1], calls[|calls| - 1];
      Timely(p, start, before) && AfterCall(p, TableAfter(p, start, before), c).swept <= c.taken
  }

  lemma {:induction false} OrderedIsTimely(p: Policy, start: int, calls: seq<Call>)
    requires p.Valid() && Ordered(start, calls)
    ensures Timely(p, start, calls)
    ensures TableAfter(p, start, calls).swept <= (if calls == [] then start else calls[|calls| - 1].taken)
  {
    if calls != [] {
      OrderedIsTimely(p, start, calls[..|calls| - 1]);
    }
  }

  lemma CallMatches(p: Policy, t: Table, q: Private, c: Call)
    requires p.Valid() && Matches(p, t, q, t.swept) && AfterCall(p, t, c).swept <= c.taken
    ensures Answer(p, t, c) == Take(p.limits, Enter(p, q, c.key, c.made)[c.key], c.taken)
    ensures Matches(p, AfterCall(p, t, c), AfterPrivate(p, q, c), AfterCall(p, t, c).swept)
  {
    LookupMatches(p, t, q, c.key, c.now, c.made);
    var t1 := Lookup(p, t, c.key, c.now, c.made);
    TakeMatches(p, t1, Enter(p, q, c.key, c.made), t1.swept, c.key, c.taken);
  }

  lemma {:induction false} RunMatches(p: Policy, start: int, calls: seq<Call>)
    requires p.Valid() && Timely(p, start, calls)
    ensures Matches(p, TableAfter(p, start, calls), PrivateAfter(p, calls), TableAfter(p, start, calls).swept)
  {
    if calls != [] {
      var before, c := calls[..|calls| - 1], calls[|calls| - 1];
      RunMatches(p, start, before);
      CallMatches(p, TableAfter(p, start, before), PrivateAfter(p, before), c);
    }
  }

  /** What is said of all calls is said of the first ones. */
  lemma {:induction false} TimelyAt(p: Policy, start: int, calls: seq<Call>, i: nat)
    requires p.Valid() && Timely(p, start, calls) && i < |calls|
    ensures Timely(p, start, calls[..i])
    ensures AfterCall(p, TableAfter(p, start, calls[..i]), calls[i]).swept <= calls[i].taken
    decreases |calls|
  {
    if i < |calls| - 1 {
      var before := calls[..|calls| - 1];
      TimelyAt(p, start, before, i);
      assert before[..i] == calls[..i];
    }
  }

  /** Every answer of the table, the delay included, is the private limiter's answer, also if the clock
      steps back, as long as it does not step back to before the last sweep. */
  lemma EvictionIsExact(p: Policy, start: int, calls: seq<Call>, i: nat)
    requires p.Valid() && Timely(p, start, calls) && i < |calls|
    ensures var got := Answer(p, TableAfter(p, start, calls[..i]), calls[i]);
      var want := PrivateAnswer(p, calls[..i], calls[i]);
      got.ok == want.ok && got.retry == want.retry
  {
    TimelyAt(p, start, calls, i);
    RunMatches(p, start, calls[..i]);
    CallMatches(p, TableAfter(p, start, calls[..i]), PrivateAfter(p, calls[..i]), calls[i]);
  }

  const A: Key := [97]
  const B: Key := [98]

  const ONE_A_SECOND := Policy(Limits(1.0, 1), SECOND)

  /** Key A spends its token at 0, key B triggers a sweep at 1 s, and A calls again with
      the clock back at 0. */
  const STEP_BACK := [Call(A, 0, 0, 0), Call(B, SECOND, SECOND, SECOND), Call(A, 0, 0, 0)]

  lemma AfterOneMore(p: Policy, start: int, calls: seq<Call>, c: Call)
    requires p.Valid()
    ensures TableAfter(p, start, calls + [c]) == AfterCall(p, TableAfter(p, start, calls), c)
    ensures PrivateAfter(p, calls + [c]) == AfterPrivate(p, PrivateAfter(p, calls), c)
  {
    assert (calls + [c])[..|calls|] == calls;
  }

  lemma StepBackTable()
    ensures Answer(ONE_A_SECOND, TableAfter(ONE_A_SECOND, 0, STEP_BACK[..2]), STEP_BACK[2]).ok
  {
    var p := ONE_A_SECOND;
    assert Earned(p.limits, SECOND) == 1.0;
    AfterOneMore(p, 0, [], STEP_BACK[0]);
    AfterOneMore(p, 0, STEP_BACK[..1], STEP_BACK[1]);
    assert [] + [STEP_BACK[0]] == STEP_BACK[..1] && STEP_BACK[..1] + [STEP_BACK[1]] == STEP_BACK[..2];
    var t1 := AfterCall(p, Table(map[], 0), STEP_BACK[0]);
    assert t1 == Table(map[A := Bucket(0.0, 0)], 0);
    assert Sweep(p, t1, SECOND).buckets == map[];
    var t2 := AfterCall(p, t1, STEP_BACK[1]);
    assert t2.buckets.Keys == {B} && t2.swept == SECOND;
    assert Lookup(p, t2, A, 0, 0).buckets[A] == Fresh(p.limits, 0);
  }

  lemma StepBackPrivate()
    ensures !PrivateAnswer(ONE_A_SECOND, STEP_BACK[..2], STEP_BACK[2]).ok
  {
    var p := ONE_A_SECOND;
    AfterOneMore(p, 0, [], STEP_BACK[0]);
    AfterOneMore(p, 0, STEP_BACK[..1], STEP_BACK[1]);
    assert [] + [STEP_BACK[0]] == STEP_BACK[..1] && STEP_BACK[..1] + [STEP_BACK[1]] == STEP_BACK[..2];
    assert PrivateAfter(p, STEP_BACK[..2])[A] == Bucket(0.0, 0);
  }

  /** With a clock that steps back to before the last sweep it is not: a bucket dropped as full is
      handed out full again, where the private one would have held its level. */
  lemma EvictionNeedsTheClock()
    ensures ONE_A_SECOND.Valid()
    ensures Answer(ONE_A_SECOND, TableAfter(ONE_A_SECOND, 0, STEP_BACK[..2]), STEP_BACK[2]).ok
    ensures !PrivateAnswer(ONE_A_SECOND, STEP_BACK[..2], STEP_BACK[2]).ok
  {
    StepBackTable();
    StepBackPrivate();
  }
}
