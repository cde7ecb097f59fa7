/** The table does not grow without bound: over any run whose clock never steps back, every key
    it holds was used recently. A sweep's own refill never counts as use. */
module TableSize {
  import opened TokenBucket
  import opened KeyedLimiter
  import opened Eviction

  /** When each key was last used. */
  function LastUse(calls: seq<Call>): map<Key, int> {
    if calls == [] then map[]
    else LastUse(calls[..|calls| - 1])[calls[|calls| - 1].key := calls[|calls| - 1].taken]
  }

  function Clock(start: int, calls: seq<Call>): int {
    if calls == [] then start else calls[|calls| - 1].taken
  }

  /** What a sweep keeps: a key used less than `idle` ago, or less than the time an empty bucket
      takes to fill. */
  predicate Survives(p: Policy, age: int) {
    age < p.idle || Earned(p.limits, age) < p.limits.burst as real
  }

  /** The bucket holds all it earned since the key's last use; if it was refilled since then, a
      sweep did it, no later than the last one. */
  predicate Accounted(p: Policy, b: Bucket, swept: int, use: int) {
    && Sound(p.limits, b)
    && (b.last <= use || b.last <= swept)
    && b.tokens >= Earned(p.limits, b.last - use)
    && (use < swept ==> Survives(p, swept - use))
  }

  predicate Inv(p: Policy, t: Table, uses: map<Key, int>) {
    forall k :: k in t.buckets ==> k in uses && Accounted(p, t.buckets[k], t.swept, uses[k])
  }

  /** A bucket that outlives a sweep, at least `idle` after the one before. */
  lemma SurvivorIsAccounted(p: Policy, b: Bucket, swept: int, use: int, now: int)
    requires p.Valid() && Accounted(p, b, swept, use) && now >= swept + p.idle && now >= b.last
    requires !Evicted(p, b, now)
    ensures Accounted(p, Touched(p, b, now), now, use)
  {
    EarnedIsLinear(p.limits, b.last - use, now - b.last);
    TakeIsSound(p.limits, b, now);
    assert (b.last - use) + (now - b.last) == now - use;
    if Stale(p, b, now) {
      EarnedIsLinear(p.limits, 0, now - b.last);
      assert Advance(p.limits, b, now).tokens < p.limits.burst as real;
    }
  }

  /** The buckets are accounted for and none was touched after the clock. */
  predicate Upto(p: Policy, t: Table, uses: map<Key, int>, clock: int) {
    Inv(p, t, uses) && t.swept <= clock && forall k :: k in t.buckets ==> t.buckets[k].last <= clock
  }

  lemma SweepIsAccounted(p: Policy, t: Table, uses: map<Key, int>, clock: int, now: int)
    requires p.Valid() && Upto(p, t, uses, clock) && clock <= now && SweepDue(p, t, now)
    ensures Upto(p, Sweep(p, t, now), uses, now)
  {
    forall k | k in Sweep(p, t, now).buckets
      ensures Accounted(p, Sweep(p, t, now).buckets[k], now, uses[k]) && Sweep(p, t, now).buckets[k].last <= now
    {
      SurvivorIsAccounted(p, t.buckets[k], t.swept, uses[k], now);
    }
  }

  /** A bucket just used has nothing to answer for. */
  lemma UsedIsAccounted(p: Policy, b: Bucket, swept: int, taken: int)
    requires p.Valid() && Sound(p.limits, b) && swept <= taken
    ensures Accounted(p, Take(p.limits, b, taken).bucket, swept, taken) && Take(p.limits, b, taken).bucket.last == taken
  {
    TakeIsSound(p.limits, b, taken);
    EarnedIsLinear(p.limits, 0, 0);
  }

  lemma CallIsAccounted(p: Policy, t: Table, uses: map<Key, int>, clock: int, c: Call)
    requires p.Valid() && Upto(p, t, uses, clock) && clock <= c.now <= c.made <= c.taken
    ensures Upto(p, AfterCall(p, t, c), uses[c.key := c.taken], c.taken)
    ensures c.now - AfterCall(p, t, c).swept < p.idle
  {
    var t1 := if SweepDue(p, t, c.now) then Sweep(p, t, c.now) else t;
    if SweepDue(p, t, c.now) {
      SweepIsAccounted(p, t, uses, clock, c.now);
    }
    UsedIsAccounted(p, Lookup(p, t, c.key, c.now, c.made).buckets[c.key], t1.swept, c.taken);
  }

  lemma {:induction false} RunIsAccounted(p: Policy, start: int, calls: seq<Call>)
    requires p.Valid() && Ordered(start, calls)
    ensures Upto(p, TableAfter(p, start, calls), LastUse(calls), Clock(start, calls))
    ensures calls != [] ==> calls[|calls| - 1].now - TableAfter(p, start, calls).swept < p.idle
  {
    if calls != [] {
      var before, c := calls[..|calls| - 1], calls[|calls| - 1];
      RunIsAccounted(p, start, before);
      CallIsAccounted(p, TableAfter(p, start, before), LastUse(before), Clock(start, before), c);
    }
  }

  lemma {:induction false} LastUseIsACall(calls: seq<Call>, key: Key) returns (i: nat)
    requires key in LastUse(calls)
    ensures i < |calls| && calls[i].key == key && calls[i].taken == LastUse(calls)[key]
  {
    var last := |calls| - 1;
    if calls[last].key == key {
      i := last;
    } else {
      i := LastUseIsACall(calls[..last], key);
    }
  }

  /** How long after its last use a key can still be held: `idle` more than a sweep spares it. */
  predicate StillHeld(p: Policy, age: int) {
    age < 2 * p.idle || Earned(p.limits, age - p.idle) < p.limits.burst as real
  }

  /** After any call, every key held was used less than idle + max(idle, burst / rate) before it. */
  lemma HeldKeysAreRecent(p: Policy, start: int, calls: seq<Call>, key: Key) returns (i: nat)
    requires p.Valid() && Ordered(start, calls) && calls != []
    requires key in TableAfter(p, start, calls).buckets
    ensures i < |calls| && calls[i].key == key
    ensures StillHeld(p, calls[|calls| - 1].now - calls[i].taken)
  {
    RunIsAccounted(p, start, calls);
    i := LastUseIsACall(calls, key);
    AccountedIsHeld(p, TableAfter(p, start, calls).buckets[key], TableAfter(p, start, calls).swept, calls[i].taken,
                    calls[|calls| - 1].now);
  }

  /** What was kept by the last sweep, less than `idle` ago. */
  lemma AccountedIsHeld(p: Policy, b: Bucket, swept: int, use: int, now: int)
    requires p.Valid() && Accounted(p, b, swept, use) && now - swept < p.idle
    ensures StillHeld(p, now - use)
  {
    EarnedIsLinear(p.limits, now - use - p.idle, swept - use);
  }

  /** The calls that lie in that window. */
  function Window(p: Policy, calls: seq<Call>, now: int): set<nat> {
    set i: nat | i < |calls| && StillHeld(p, now - calls[i].taken)
  }

  lemma ImageIsNoLarger(s: set<nat>, calls: seq<Call>)
    requires forall i :: i in s ==> i < |calls|
    ensures |set i | i in s :: calls[i].key| <= |s|
  {
    if s != {} {
      var i :| i in s;
      ImageIsNoLarger(s - {i}, calls);
      assert (set j | j in s :: calls[j].key) == (set j | j in s - {i} :: calls[j].key) + {calls[i].key};
    }
  }

  lemma SubsetIsNoLarger(a: set<Key>, b: set<Key>)
    requires a <= b
    ensures |a| <= |b|
  {
    if a != {} {
      var k :| k in a;
      SubsetIsNoLarger(a - {k}, b - {k});
    }
  }

  /** Keys of which each has a call in the window are no more than those calls. */
  lemma KeysInWindow(p: Policy, calls: seq<Call>, now: int, keys: set<Key>)
    requires forall k :: k in keys ==> exists i :: i in Window(p, calls, now) && calls[i].key == k
    ensures |keys| <= |Window(p, calls, now)|
  {
    var used := set i | i in Window(p, calls, now) :: calls[i].key;
    SubsetIsNoLarger(keys, used);
    ImageIsNoLarger(Window(p, calls, now), calls);
  }

  /** So the table never holds more buckets than there were calls in that window. */
  lemma TableSizeIsBounded(p: Policy, start: int, calls: seq<Call>)
    requires p.Valid() && Ordered(start, calls) && calls != []
    ensures |TableAfter(p, start, calls).buckets| <= |Window(p, calls, calls[|calls| - 1].now)|
  {
    var held, now := TableAfter(p, start, calls).buckets, calls[|calls| - 1].now;
    forall k | k in held.Keys
      ensures exists i :: i in Window(p, calls, now) && calls[i].key == k
    {
      var i := HeldKeysAreRecent(p, start, calls, k);
      assert i in Window(p, calls, now);
    }
    KeysInWindow(p, calls, now, held.Keys);
    assert |held| == |held.Keys|;
  }
}
