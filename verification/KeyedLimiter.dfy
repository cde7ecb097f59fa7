/** The per-caller table of internal/ratelimit: one bucket per key, created on first use and
    dropped by sweeps.

    The program says eviction is exact. It is, for calls that do not overlap, if the clock never
    steps back to before the last sweep (Eviction.EvictionIsExact); for calls that overlap, and
    whatever the clock does, Overlap.OverlappingAnswersAreExactIff says when. */
module KeyedLimiter {
  import ByteStrings
  import opened TokenBucket

  type Key = ByteStrings.Bytes

  const DEFAULT_IDLE: int := 600 * SECOND

  /** What the table is configured with. */
  datatype Policy = Policy(limits: Limits, idle: int) {
    predicate Valid() {
      limits.Valid() && idle > 0
    }
  }

  datatype Table = Table(buckets: map<Key, Bucket>, swept: int)

  // ---------------------------------------------------------------- one call

  predicate Stale(p: Policy, b: Bucket, now: int) {
    now - b.last >= p.idle
  }

  predicate Evicted(p: Policy, b: Bucket, now: int) {
    Stale(p, b, now) && Advance(p.limits, b, now).tokens >= p.limits.burst as real
  }

  /** What a sweep leaves of a bucket that it keeps: a stale one is refilled on the way. */
  function Touched(p: Policy, b: Bucket, now: int): Bucket {
    if Stale(p, b, now) then Advance(p.limits, b, now) else b
  }

  function Sweep(p: Policy, t: Table, now: int): Table {
    Table(map k | k in t.buckets && !Evicted(p, t.buckets[k], now) :: Touched(p, t.buckets[k], now), now)
  }

  /** One turn of the sweep's loop. */
  function Visited(p: Policy, buckets: map<Key, Bucket>, key: Key, now: int): map<Key, Bucket>
    requires key in buckets
  {
    if Evicted(p, buckets[key], now) then buckets - {key}
    else buckets[key := Touched(p, buckets[key], now)]
  }

  /** The table when the sweep's loop has still to visit `keys`. */
  function PartlySwept(p: Policy, was: map<Key, Bucket>, keys: set<Key>, now: int): map<Key, Bucket> {
    map k | k in was && (k in keys || !Evicted(p, was[k], now)) :: if k in keys then was[k] else Touched(p, was[k], now)
  }

  lemma VisitSteps(p: Policy, was: map<Key, Bucket>, keys: set<Key>, key: Key, now: int)
    requires key in keys && keys <= was.Keys
    ensures Visited(p, PartlySwept(p, was, keys, now), key, now) == PartlySwept(p, was, keys - {key}, now)
    ensures keys - {key} <= PartlySwept(p, was, keys - {key}, now).Keys
  {
  }

  predicate SweepDue(p: Policy, t: Table, now: int) {
    now - t.swept >= p.idle
  }

  /** The table part of Keyed.Allow: sweep if one is due, then find or create the bucket.
      `made` is the second clock reading, the one newAt takes. */
  function Lookup(p: Policy, t: Table, key: Key, now: int, made: int): Table {
    var t1 := if SweepDue(p, t, now) then Sweep(p, t, now) else t;
    if key in t1.buckets then t1 else t1.(buckets := t1.buckets[key := Fresh(p.limits, made)])
  }

  /** One call of Keyed.Allow with the three clock readings it makes. */
  datatype Call = Call(key: Key, now: int, made: int, taken: int)

  function Answer(p: Policy, t: Table, c: Call): Taken
    requires p.Valid()
  {
    Take(p.limits, Lookup(p, t, c.key, c.now, c.made).buckets[c.key], c.taken)
  }

  function AfterCall(p: Policy, t: Table, c: Call): Table
    requires p.Valid()
  {
    var t1 := Lookup(p, t, c.key, c.now, c.made);
    t1.(buckets := t1.buckets[c.key := Answer(p, t, c).bucket])
  }

  // ---------------------------------------------------------------- the object

  class Keyed {
    const policy: Policy
    var buckets: map<Key, Limiter>
    var swept: int

    ghost predicate Valid()
      reads this, buckets.Values
    {
      && policy.Valid()
      && (forall k :: k in buckets ==> buckets[k].Valid() && buckets[k].limits == policy.limits)
      && (forall k, k' :: k in buckets && k' in buckets && k != k' ==> buckets[k] != buckets[k'])
    }

    ghost function View(): Table
      reads this, buckets.Values
    {
      Table(map k | k in buckets :: buckets[k].State(), swept)
    }

    constructor At(limits: Limits, idle: int, now: int)
      requires limits.Valid()
      ensures Valid() && View() == Table(map[], now)
      ensures policy == Policy(limits, if idle <= 0 then 600_000_000_000 else idle)
    {
      policy := Policy(limits, if idle <= 0 then DEFAULT_IDLE else idle);
      buckets := map[];
      swept := now;
    }

    /** The body of the sweep's loop, for one key. */
    method Visit(key: Key, now: int)
      requires Valid() && key in buckets
      modifies this`buckets, buckets[key]
      ensures Valid()
      ensures View().buckets == Visited(policy, old(View().buckets), key, now)
      ensures forall k :: k in buckets ==> k in old(buckets) && buckets[k] == old(buckets)[k]
    {
      ghost var was := View().buckets;
      var b := buckets[key];
      if now - b.last >= policy.idle {
        var full := b.FullAt(now);
        if full {
          buckets := buckets - {key};
          assert View().buckets == was - {key};
          return;
        }
      }
      assert View().buckets == was[key := Touched(policy, was[key], now)];
    }

    method SweepLocked(now: int)
      requires Valid()
      modifies this`buckets, this`swept, buckets.Values
      ensures Valid() && View() == Sweep(policy, old(View()), now)
      ensures forall k :: k in buckets ==> k in old(buckets) && buckets[k] == old(buckets)[k]
    {
      ghost var was := View().buckets;
      swept := now;
      var keys := buckets.Keys;
      assert View().buckets == PartlySwept(policy, was, keys, now);
      while keys != {}
        invariant Valid() && swept == now
        invariant keys <= buckets.Keys
        invariant forall k :: k in buckets ==> k in old(buckets) && buckets[k] == old(buckets)[k]
        invariant keys <= was.Keys && View().buckets == PartlySwept(policy, was, keys, now)
        decreases keys
      {
        var key :| key in keys;
        VisitSteps(policy, was, keys, key, now);
        Visit(key, now);
        keys := keys - {key};
      }
    }

    method Create(key: Key, made: int)
      requires Valid() && key !in buckets
      modifies this`buckets
      ensures Valid() && View().buckets == old(View().buckets)[key := Fresh(policy.limits, made)]
      ensures buckets.Keys == old(buckets).Keys + {key} && fresh(buckets[key])
      ensures forall k :: k in old(buckets) ==> buckets[k] == old(buckets)[k]
    {
      ghost var was := View().buckets;
      var b := new Limiter.At(policy.limits, made);
      buckets := buckets[key := b];
      assert View().buckets == was[key := Fresh(policy.limits, made)];
    }

    /** The part of Allow under the table's lock. */
    method FindOrCreate(key: Key, now: int, made: int) returns (b: Limiter)
      requires Valid()
      modifies this`buckets, this`swept, buckets.Values
      ensures Valid() && View() == Lookup(policy, old(View()), key, now, made)
      ensures key in buckets && b == buckets[key]
      ensures forall k :: k in buckets ==> (k in old(buckets) && buckets[k] == old(buckets)[k]) || fresh(buckets[k])
    {
      if now - swept >= policy.idle {
        SweepLocked(now);
      }
      if key !in buckets {
        Create(key, made);
      }
      b := buckets[key];
    }

    method Allow(key: Key, now: int, made: int, taken: int) returns (ok: bool, retry: int)
      requires Valid()
      modifies this`buckets, this`swept, buckets.Values
      ensures Valid()
      ensures var c := Call(key, now, made, taken);
        && View() == AfterCall(policy, old(View()), c)
        && ok == Answer(policy, old(View()), c).ok
        && retry == Answer(policy, old(View()), c).retry
      ensures forall k :: k in buckets ==> (k in old(buckets) && buckets[k] == old(buckets)[k]) || fresh(buckets[k])
    {
      var b := FindOrCreate(key, now, made);
      ok, retry := Use(key, b, taken);
    }

    /** The rest of Allow, under the bucket's own lock. */
    method Use(key: Key, b: Limiter, taken: int) returns (ok: bool, retry: int)
      requires Valid() && key in buckets && b == buckets[key]
      modifies b
      ensures Valid()
      ensures var t := Take(policy.limits, old(View().buckets[key]), taken);
        && View() == old(View()).(buckets := old(View()).buckets[key := t.bucket])
        && ok == t.ok && retry == t.retry
    {
      ghost var was := View().buckets;
      ok, retry := b.Allow(taken);
      assert View().buckets == was[key := b.State()];
    }
  }

  /** NewKeyed: null is the always-allowing limiter. */
  method NewKeyed(rate: real, burst: int, idle: int, now: int) returns (k: Keyed?)
    ensures k == null <==> rate <= 0.0 || burst <= 0
    ensures k != null ==>
      && fresh(k) && k.Valid() && k.View() == Table(map[], now)
      && k.policy == Policy(Limits(rate, burst), if idle <= 0 then 600_000_000_000 else idle)
  {
    if rate <= 0.0 || burst <= 0 {
      return null;
    }
    k := new Keyed.At(Limits(rate, burst), idle, now);
  }
}
