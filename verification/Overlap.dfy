/** Calls of Keyed.Allow that overlap, lock by lock. The table's lock is held from the lookup's
    clock reading to the lookup's end, and a sweep in between looks at each bucket twice: once for
    its age and, if that is stale, once more for its level. No lock is held between those two looks
    on the bucket, nor on anything between the lookup and the use of the bucket, so calls that have
    looked up their buckets can use them at any of these points. The clock may step back. */
module Overlap {
  import opened Apart
  import opened Eviction
  import opened KeyedLimiter
  import opened Options
  import opened TokenBucket

  /** Which bucket a call holds: a key's buckets are numbered in the order they are dropped. */
  datatype Held = Held(key: Key, number: nat)

  /** Who holds the table's lock: the call, the key it looks up, its clock reading, the keys its
      sweep has still to visit, and the one it has found stale. */
  datatype Holder = Nobody | By(call: nat, key: Key, now: int, todo: set<Key>, found: Option<Key>)

  datatype Machine = Machine(
    table: Table,                   // the buckets in the map
    drops: map<Key, nat>,           // how many buckets each key has lost to sweeps
    orphans: map<Held, Bucket>,     // the dropped ones, which calls may still hold
    pending: map<nat, Held>,        // the calls between their lookup and their use
    holder: Holder)

  datatype Event =
    | Open(call: nat, key: Key, now: int)
    | Look(key: Key)
    | Weigh
    | Close(made: int)
    | Finish(call: nat, taken: int)

  function Drops(m: Machine, key: Key): nat {
    if key in m.drops then m.drops[key] else 0
  }

  predicate InTable(m: Machine, h: Held) {
    h.key in m.table.buckets && Drops(m, h.key) == h.number
  }

  predicate Legal(m: Machine, e: Event) {
    match e
    case Open(call, _, _) => m.holder.Nobody? && call !in m.pending
    case Look(key) => m.holder.By? && m.holder.found.None? && key in m.holder.todo && key in m.table.buckets
    case Weigh => m.holder.By? && m.holder.found.Some? && m.holder.found.value in m.table.buckets
    case Close(_) => m.holder.By? && m.holder.found.None? && m.holder.todo == {}
    case Finish(call, _) => call in m.pending && (InTable(m, m.pending[call]) || m.pending[call] in m.orphans)
  }

  function HeldBucket(m: Machine, h: Held): Bucket
    requires InTable(m, h) || h in m.orphans
  {
    if InTable(m, h) then m.table.buckets[h.key] else m.orphans[h]
  }

  /** The lock is taken and the clock read; a sweep begins if one is due. */
  function OpenStep(p: Policy, m: Machine, call: nat, key: Key, now: int): Machine {
    if SweepDue(p, m.table, now) then
      m.(table := m.table.(swept := now), holder := By(call, key, now, m.table.buckets.Keys, None))
    else
      m.(holder := By(call, key, now, {}, None))
  }

  /** The sweep's first look at a bucket. */
  function LookStep(p: Policy, m: Machine, key: Key): Machine
    requires m.holder.By? && key in m.table.buckets
  {
    if Stale(p, m.table.buckets[key], m.holder.now) then m.(holder := m.holder.(found := Some(key)))
    else m.(holder := m.holder.(todo := m.holder.todo - {key}))
  }

  /** The sweep's second look, with the reading the sweep began with: fullAt, and the deletion. */
  function WeighStep(p: Policy, m: Machine): Machine
    requires Legal(m, Weigh)
  {
    var key := m.holder.found.value;
    var b := Advance(p.limits, m.table.buckets[key], m.holder.now);
    var m1 := m.(holder := m.holder.(todo := m.holder.todo - {key}, found := None));
    if b.tokens >= p.limits.burst as real then
      m1.(table := m.table.(buckets := m.table.buckets - {key}),
          drops := m.drops[key := Drops(m, key) + 1],
          orphans := m.orphans[Held(key, Drops(m, key)) := b])
    else
      m1.(table := m.table.(buckets := m.table.buckets[key := b]))
  }

  /** The bucket is found or created, and the lock released. */
  function CloseStep(p: Policy, m: Machine, made: int): Machine
    requires m.holder.By?
  {
    var key := m.holder.key;
    var buckets := if key in m.table.buckets then m.table.buckets else m.table.buckets[key := Fresh(p.limits, made)];
    m.(table := m.table.(buckets := buckets), pending := m.pending[m.holder.call := Held(key, Drops(m, key))],
       holder := Nobody)
  }

  /** The bucket is used, under its own lock. */
  function FinishStep(m: Machine, call: nat, b: Bucket): Machine
    requires call in m.pending
  {
    var h := m.pending[call];
    var m1 := m.(pending := m.pending - {call});
    if InTable(m, h) then m1.(table := m.table.(buckets := m.table.buckets[h.key := b]))
    else m1.(orphans := m.orphans[h := b])
  }

  /** The machine beside the private limiters, fed the same calls in the same order; and the latest
      clock reading. */
  datatype World = World(m: Machine, q: Private, clock: int)

  function Start(made: int): World {
    World(Machine(Table(map[], made), map[], map[], map[], Nobody), map[], made)
  }

  /** The answer a call that finishes now gets, and the one its private limiter gives. */
  function Got(p: Policy, w: World, call: nat, taken: int): Taken
    requires p.Valid() && Legal(w.m, Finish(call, taken))
  {
    Take(p.limits, HeldBucket(w.m, w.m.pending[call]), taken)
  }

  function Wanted(p: Policy, w: World, call: nat, taken: int): Taken
    requires p.Valid() && call in w.m.pending
  {
    var key := w.m.pending[call].key;
    Take(p.limits, if key in w.q then w.q[key] else Fresh(p.limits, taken), taken)
  }

  function Step(p: Policy, w: World, e: Event): World
    requires p.Valid() && Legal(w.m, e)
  {
    match e
    case Open(call, key, now) => World(OpenStep(p, w.m, call, key, now), w.q, now)
    case Look(key) => w.(m := LookStep(p, w.m, key))
    case Weigh => w.(m := WeighStep(p, w.m))
    case Close(made) => World(CloseStep(p, w.m, made), Enter(p, w.q, w.m.holder.key, made), made)
    case Finish(call, taken) =>
      World(FinishStep(w.m, call, Got(p, w, call, taken).bucket),
            w.q[w.m.pending[call].key := Wanted(p, w, call, taken).bucket], taken)
  }

  // ---------------------------------------------------------------- exactly when a step is exact

  /** The bucket a key's next call will use at this reading: the table's, or a new one. */
  function BucketAt(p: Policy, m: Machine, key: Key, reading: int): Bucket {
    if key in m.table.buckets then m.table.buckets[key] else Fresh(p.limits, reading)
  }

  function NextBucket(p: Policy, w: World, key: Key): Bucket {
    BucketAt(p, w.m, key, w.clock)
  }

  /** No key's later calls can tell the table from the private limiter, while the clock does not step
      back any further. */
  ghost predicate Exact(p: Policy, w: World)
    requires p.Valid()
  {
    forall key, times :: key in w.q && times != [] && From(w.clock, times) ==>
      LastAnswer(p.limits, NextBucket(p, w, key), times) == LastAnswer(p.limits, w.q[key], times)
  }

  /** The step answers as the private limiter does, and leaves nothing that a later call could tell. */
  ghost predicate ExactStep(p: Policy, w: World, e: Event)
    requires p.Valid() && Legal(w.m, e)
  {
    && (e.Finish? ==>
          var got, want := Got(p, w, e.call, e.taken), Wanted(p, w, e.call, e.taken);
          got.ok == want.ok && got.retry == want.retry)
    && Exact(p, Step(p, w, e))
  }

  /** A reading before the latest one finds every key's bucket at the level that the bucket which its
      last use left is at, and full, or untouched since the reading or since that use. */
  predicate Withstands(p: Policy, w: World, reading: int) {
    w.clock <= reading || forall key :: key in w.q ==> SameFrom(p, BucketAt(p, w.m, key, reading), w.q[key], reading)
  }

  /** The use of a key's own bucket sets it to the reading, so that the level decides for that key. */
  predicate WithstandsUse(p: Policy, w: World, used: Key, reading: int) {
    w.clock <= reading || forall key :: key in w.q ==>
      var a, b := BucketAt(p, w.m, key, reading), w.q[key];
      if key == used then Advance(p.limits, a, reading) == Advance(p.limits, b, reading)
      else SameFrom(p, a, b, reading)
  }

  /** What a step must not do: read a clock that has stepped back to where a sweep's touch shows; touch
      a bucket, unless it is full by now, that was used at a later reading than the sweep's, or at a
      reading which the clock has stepped back from; or use a bucket that was dropped. */
  predicate Harmless(p: Policy, w: World, e: Event)
    requires Legal(w.m, e)
  {
    match e
    case Open(_, _, now) => Withstands(p, w, now)
    case Look(_) => true
    case Weigh =>
      var b, now := w.m.table.buckets[w.m.holder.found.value], w.m.holder.now;
      b.last == now || b.last <= now <= w.clock || Advance(p.limits, b, w.clock).tokens == p.limits.burst as real
    case Close(made) => Withstands(p, w, made)
    case Finish(call, taken) =>
      InTable(w.m, w.m.pending[call]) && WithstandsUse(p, w, w.m.pending[call].key, taken)
  }

  ghost predicate Tracks(p: Policy, m: Machine, b: Bucket, key: Key, clock: int) {
    && SameFrom(p, BucketAt(p, m, key, clock), b, clock)
    && (key in m.table.buckets ==> Ahead(p.limits, m.table.buckets[key], b))
  }

  ghost predicate Inv(p: Policy, w: World) {
    && w.m.table.buckets.Keys <= w.q.Keys
    && (forall key :: key in w.q ==> Tracks(p, w.m, w.q[key], key, w.clock))
    && (forall c :: c in w.m.pending ==> w.m.pending[c].key in w.q)
    && (forall h :: h in w.m.orphans ==> w.m.orphans[h].tokens == p.limits.burst as real)
  }

  lemma StartKeepsInv(p: Policy, made: int)
    requires p.Valid()
    ensures Inv(p, Start(made))
  {
  }

  lemma InvIsExact(p: Policy, w: World)
    requires p.Valid() && Inv(p, w)
    ensures Exact(p, w)
  {
    forall key, times | key in w.q && times != [] && From(w.clock, times)
      ensures LastAnswer(p.limits, NextBucket(p, w, key), times) == LastAnswer(p.limits, w.q[key], times)
    {
      assert Tracks(p, w.m, w.q[key], key, w.clock);
      SameAnswers(p, NextBucket(p, w, key), w.q[key], w.clock, times);
    }
  }

  /** What a key's next call finds is ahead of the private limiter, in the table or new. */
  lemma NextIsAhead(p: Policy, w: World, key: Key, reading: int)
    requires p.Valid() && Inv(p, w) && key in w.q
    ensures var a := BucketAt(p, w.m, key, reading);
      Ahead(p.limits, a, w.q[key]) && Sound(p.limits, a) && Sound(p.limits, w.q[key])
  {
    assert Tracks(p, w.m, w.q[key], key, w.clock);
  }

  /** Two buckets that differ from the clock on make the world inexact. */
  lemma DifferenceShows(p: Policy, w: World, key: Key)
    requires p.Valid() && key in w.q
    requires var a, b := NextBucket(p, w, key), w.q[key];
      Sound(p.limits, a) && Sound(p.limits, b) && Ahead(p.limits, a, b) && !SameFrom(p, a, b, w.clock)
    ensures !Exact(p, w)
  {
    var times := AheadTells(p, NextBucket(p, w, key), w.q[key], w.clock);
  }

  // ---------------------------------------------------------------- clock readings

  lemma SameAtReading(p: Policy, m: Machine, b: Bucket, key: Key, clock: int, reading: int)
    requires p.Valid() && SameFrom(p, BucketAt(p, m, key, clock), b, clock) && clock <= reading
    ensures SameFrom(p, BucketAt(p, m, key, reading), b, reading)
  {
    if key in m.table.buckets {
      SameLater(p, m.table.buckets[key], b, clock, reading);
    } else {
      FullLater(p, b, clock, reading);
    }
  }

  lemma ReadingKeepsInv(p: Policy, w: World, reading: int)
    requires p.Valid() && Inv(p, w) && Withstands(p, w, reading)
    ensures Inv(p, w.(clock := reading))
  {
    forall key | key in w.q
      ensures Tracks(p, w.m, w.q[key], key, reading)
    {
      assert Tracks(p, w.m, w.q[key], key, w.clock);
      if w.clock <= reading {
        SameAtReading(p, w.m, w.q[key], key, w.clock, reading);
      }
    }
  }

  lemma OpenKeepsInv(p: Policy, w: World, call: nat, key: Key, now: int)
    requires p.Valid() && Inv(p, w) && Legal(w.m, Open(call, key, now)) && Withstands(p, w, now)
    ensures Inv(p, Step(p, w, Open(call, key, now)))
  {
    ReadingKeepsInv(p, w, now);
    var w' := Step(p, w, Open(call, key, now));
    forall k | k in w'.q
      ensures Tracks(p, w'.m, w'.q[k], k, now)
    {
      assert Tracks(p, w.m, w.q[k], k, now);
    }
  }

  lemma CloseKeepsInv(p: Policy, w: World, made: int)
    requires p.Valid() && Inv(p, w) && Legal(w.m, Close(made)) && Withstands(p, w, made)
    ensures Inv(p, Step(p, w, Close(made)))
  {
    ReadingKeepsInv(p, w, made);
    var w' := Step(p, w, Close(made));
    forall k | k in w'.q
      ensures Tracks(p, w'.m, w'.q[k], k, made)
    {
      if k in w.q {
        assert Tracks(p, w.m, w.q[k], k, made);
      }
    }
  }

  /** A reading that shows, whatever else the lookup does there. */
  lemma LookupReadingShows(p: Policy, w: World, e: Event)
    requires p.Valid() && Inv(p, w) && Legal(w.m, e) && (e.Open? || e.Close?) && !Harmless(p, w, e)
    ensures !Exact(p, Step(p, w, e))
  {
    var reading := if e.Open? then e.now else e.made;
    var key :| key in w.q && !SameFrom(p, BucketAt(p, w.m, key, reading), w.q[key], reading);
    NextIsAhead(p, w, key, reading);
    assert NextBucket(p, Step(p, w, e), key) == BucketAt(p, w.m, key, reading);
    DifferenceShows(p, Step(p, w, e), key);
  }

  // ---------------------------------------------------------------- the sweep's touch

  /** What the key's next call finds once the sweep has touched this bucket. */
  function Weighed(p: Policy, b: Bucket, now: int, clock: int): Bucket {
    var a := Advance(p.limits, b, now);
    if a.tokens >= p.limits.burst as real then Fresh(p.limits, clock) else a
  }

  lemma WeighKeepsSame(p: Policy, b: Bucket, alone: Bucket, now: int, clock: int)
    requires p.Valid() && SameFrom(p, b, alone, clock)
    requires b.last == now || b.last <= now <= clock || Advance(p.limits, b, clock).tokens == p.limits.burst as real
    ensures SameFrom(p, Weighed(p, b, now, clock), alone, clock)
  {
    var l := p.limits;
    TakeIsSound(l, b, now);
    NewIsFull(l, clock, clock);
    EarnedIsLinear(l, 0, clock - now);
    if b.last == now {
      assert Advance(l, b, now) == b;
      TakeIsSound(l, b, clock);
    } else if Advance(l, b, clock).tokens == l.burst as real {
      FullAnyway(l, b, now, clock);
    } else {
      AdvanceTwice(l, b, now, clock);
    }
  }

  /** A bucket that is full by now is so whatever a sweep has made of it. */
  lemma FullAnyway(l: Limits, b: Bucket, now: int, clock: int)
    requires l.Valid() && Sound(l, b) && Advance(l, b, clock).tokens == l.burst as real
    ensures Advance(l, Advance(l, b, now), clock).tokens == l.burst as real
  {
    TakeIsSound(l, b, now);
    TakeIsSound(l, Advance(l, b, now), clock);
    EarnedIsLinear(l, 0, 0);
    if b.last <= now <= clock {
      AdvanceTwice(l, b, now, clock);
    } else if b.last <= clock {
      EarnedIsLinear(l, clock - b.last, b.last - now);
      EarnedIsLinear(l, clock - b.last, now - clock);
    }
  }

  /** Any other touch leaves a difference. */
  lemma WeighShows(p: Policy, b: Bucket, alone: Bucket, now: int, clock: int)
    requires p.Valid() && SameFrom(p, b, alone, clock)
    requires b.last != now && !(b.last <= now <= clock) && Advance(p.limits, b, clock).tokens < p.limits.burst as real
    ensures !SameFrom(p, Weighed(p, b, now, clock), alone, clock)
  {
    var l := p.limits;
    TakeIsSound(l, b, now);
    TakeIsSound(l, b, clock);
    NewIsFull(l, clock, clock);
    if now < b.last {
      EarnedIsLinear(l, clock - b.last, b.last - now);
    } else {
      EarnedIsLinear(l, clock - b.last, now - clock);
      EarnedIsLinear(l, 0, now - b.last);
    }
  }

  lemma WeighKeepsInv(p: Policy, w: World)
    requires p.Valid() && Inv(p, w) && Legal(w.m, Weigh) && Harmless(p, w, Weigh)
    ensures Inv(p, Step(p, w, Weigh))
  {
    var key := w.m.holder.found.value;
    assert Tracks(p, w.m, w.q[key], key, w.clock);
    WeighKeepsSame(p, w.m.table.buckets[key], w.q[key], w.m.holder.now, w.clock);
    AheadAdvance(p.limits, w.m.table.buckets[key], w.q[key], w.m.holder.now);
    TakeIsSound(p.limits, w.m.table.buckets[key], w.m.holder.now);
    var w' := Step(p, w, Weigh);
    forall k | k in w'.q
      ensures Tracks(p, w'.m, w'.q[k], k, w'.clock)
    {
      assert Tracks(p, w.m, w.q[k], k, w.clock);
    }
  }

  lemma HarmfulWeighShows(p: Policy, w: World)
    requires p.Valid() && Inv(p, w) && Legal(w.m, Weigh) && !Harmless(p, w, Weigh)
    ensures !Exact(p, Step(p, w, Weigh))
  {
    var key, now := w.m.holder.found.value, w.m.holder.now;
    var b := w.m.table.buckets[key];
    assert Tracks(p, w.m, w.q[key], key, w.clock);
    TakeIsSound(p.limits, b, w.clock);
    TakeIsSound(p.limits, b, now);
    WeighShows(p, b, w.q[key], now, w.clock);
    AheadAdvance(p.limits, b, w.q[key], now);
    assert NextBucket(p, Step(p, w, Weigh), key) == Weighed(p, b, now, w.clock);
    DifferenceShows(p, Step(p, w, Weigh), key);
  }

  // ---------------------------------------------------------------- the use of a bucket

  lemma FinishKeepsInv(p: Policy, w: World, call: nat, taken: int)
    requires p.Valid() && Inv(p, w) && Legal(w.m, Finish(call, taken)) && Harmless(p, w, Finish(call, taken))
    ensures Inv(p, Step(p, w, Finish(call, taken)))
    ensures Got(p, w, call, taken) == Wanted(p, w, call, taken)
  {
    var used := w.m.pending[call].key;
    assert Tracks(p, w.m, w.q[used], used, w.clock);
    if w.clock <= taken {
      SameAtReading(p, w.m, w.q[used], used, w.clock, taken);
    }
    TakeIsSound(p.limits, w.q[used], taken);
    var w' := Step(p, w, Finish(call, taken));
    AheadOfItself(p.limits, w'.q[used]);
    forall key | key in w'.q
      ensures Tracks(p, w'.m, w'.q[key], key, taken)
    {
      if key != used {
        assert Tracks(p, w.m, w.q[key], key, w.clock);
        if w.clock <= taken {
          SameAtReading(p, w.m, w.q[key], key, w.clock, taken);
        }
      }
    }
  }

  /** Levels that calls can tell apart stay so when both pay for a call. */
  lemma PaidApart(p: Policy, w: World, key: Key, a: Bucket, b: Bucket)
    requires p.Valid() && Sound(p.limits, a) && Sound(p.limits, b) && key in w.q
    requires var u, v := Advance(p.limits, a, w.clock).tokens, Advance(p.limits, b, w.clock).tokens;
      LevelsApart(p.limits, u, v)
    requires Take(p.limits, a, w.clock).ok == Take(p.limits, b, w.clock).ok
    requires NextBucket(p, w, key) == Take(p.limits, a, w.clock).bucket
    requires w.q[key] == Take(p.limits, b, w.clock).bucket
    ensures !Exact(p, w)
  {
    TakeIsSound(p.limits, a, w.clock);
    TakeIsSound(p.limits, b, w.clock);
    var u, v := Advance(p.limits, a, w.clock).tokens, Advance(p.limits, b, w.clock).tokens;
    assert (u - 1.0).Floor == u.Floor - 1 && (v - 1.0).Floor == v.Floor - 1;
    var times := LevelsTell(p.limits, NextBucket(p, w, key), w.q[key], w.clock);
  }

  /** A use at a reading that shows. */
  lemma UseReadingShows(p: Policy, w: World, call: nat, taken: int)
    requires p.Valid() && Inv(p, w) && Legal(w.m, Finish(call, taken)) && InTable(w.m, w.m.pending[call])
    requires !WithstandsUse(p, w, w.m.pending[call].key, taken)
    ensures !ExactStep(p, w, Finish(call, taken))
  {
    var used, w' := w.m.pending[call].key, Step(p, w, Finish(call, taken));
    NextIsAhead(p, w, used, taken);
    if Advance(p.limits, w.m.table.buckets[used], taken) == Advance(p.limits, w.q[used], taken) {
      var key :| key in w.q && key != used && !SameFrom(p, BucketAt(p, w.m, key, taken), w.q[key], taken);
      NextIsAhead(p, w, key, taken);
      DifferenceShows(p, w', key);
    } else {
      AheadIsHigher(p.limits, w.m.table.buckets[used], w.q[used], taken);
      if Got(p, w, call, taken).ok == Wanted(p, w, call, taken).ok {
        PaidApart(p, w', used, w.m.table.buckets[used], w.q[used]);
      }
    }
  }

  /** A dropped bucket takes the charge of the call that holds it along: either this call is admitted
      where the private limiter refuses, or at most `burst` more calls, at the same reading, end with
      one that is. */
  lemma DroppedInFlightIsNotCharged(p: Policy, w: World, call: nat, taken: int) returns (times: seq<int>)
    requires p.Valid() && Inv(p, w) && Legal(w.m, Finish(call, taken)) && !InTable(w.m, w.m.pending[call])
    ensures Got(p, w, call, taken).ok
    ensures var key, w' := w.m.pending[call].key, Step(p, w, Finish(call, taken));
      Wanted(p, w, call, taken).ok ==>
        && key in w'.q && 0 < |times| <= p.limits.burst
        && (forall i :: 0 <= i < |times| ==> times[i] == taken)
        && Tell(p.limits, NextBucket(p, w', key), w'.q[key], taken, times)
  {
    var l, key := p.limits, w.m.pending[call].key;
    var w' := Step(p, w, Finish(call, taken));
    EarnedIsLinear(l, 0, taken - w.m.orphans[w.m.pending[call]].last);
    times := [];
    if Wanted(p, w, call, taken).ok {
      var a, b := NextBucket(p, w', key), w'.q[key];
      NextIsAhead(p, w, key, taken);
      AheadIsHigher(l, a, w.q[key], taken);
      TakeIsSound(l, w.q[key], taken);
      assert b.tokens == Advance(l, w.q[key], taken).tokens - 1.0 && Advance(l, b, taken) == b;
      assert (b.tokens + 1.0).Floor == b.tokens.Floor + 1;
      times := ApartAtOnce(l, a, b, taken);
    }
  }

  // ---------------------------------------------------------------- any step

  lemma HarmlessKeepsInv(p: Policy, w: World, e: Event)
    requires p.Valid() && Inv(p, w) && Legal(w.m, e) && Harmless(p, w, e)
    ensures Inv(p, Step(p, w, e)) && ExactStep(p, w, e)
  {
    match e {
      case Open(call, key, now) => OpenKeepsInv(p, w, call, key, now);
      case Look(_) => LookKeepsInv(p, w, e.key);
      case Weigh => WeighKeepsInv(p, w);
      case Close(made) => CloseKeepsInv(p, w, made);
      case Finish(call, taken) => FinishKeepsInv(p, w, call, taken);
    }
    InvIsExact(p, Step(p, w, e));
  }

  lemma LookKeepsInv(p: Policy, w: World, key: Key)
    requires p.Valid() && Inv(p, w) && Legal(w.m, Look(key))
    ensures Inv(p, Step(p, w, Look(key)))
  {
    var w' := Step(p, w, Look(key));
    forall k | k in w'.q
      ensures Tracks(p, w'.m, w'.q[k], k, w'.clock)
    {
      assert Tracks(p, w.m, w.q[k], k, w.clock);
    }
  }

  lemma HarmfulIsNotExact(p: Policy, w: World, e: Event)
    requires p.Valid() && Inv(p, w) && Legal(w.m, e) && !Harmless(p, w, e)
    ensures !ExactStep(p, w, e)
  {
    match e {
      case Open(_, _, _) => LookupReadingShows(p, w, e);
      case Close(_) => LookupReadingShows(p, w, e);
      case Weigh => HarmfulWeighShows(p, w);
      case Finish(call, taken) =>
        if InTable(w.m, w.m.pending[call]) {
          UseReadingShows(p, w, call, taken);
        } else {
          var times := DroppedInFlightIsNotCharged(p, w, call, taken);
        }
    }
  }

  // ---------------------------------------------------------------- runs

  /** A run: every event is legal, and reads whatever clock there is. */
  predicate Run(p: Policy, w: World, events: seq<Event>)
    requires p.Valid()
    decreases |events|
  {
    events == [] || (Legal(w.m, events[0]) && Run(p, Step(p, w, events[0]), events[1..]))
  }

  function AfterRun(p: Policy, w: World, events: seq<Event>): World
    requires p.Valid() && Run(p, w, events)
    decreases |events|
  {
    if events == [] then w else AfterRun(p, Step(p, w, events[0]), events[1..])
  }

  predicate HarmlessRun(p: Policy, w: World, events: seq<Event>)
    requires p.Valid() && Run(p, w, events)
    decreases |events|
  {
    events == [] || (Harmless(p, w, events[0]) && HarmlessRun(p, Step(p, w, events[0]), events[1..]))
  }

  ghost predicate ExactRun(p: Policy, w: World, events: seq<Event>)
    requires p.Valid() && Run(p, w, events)
    decreases |events|
  {
    events == [] || (ExactStep(p, w, events[0]) && ExactRun(p, Step(p, w, events[0]), events[1..]))
  }

  /** Overlapping calls get the private limiters' answers, delays included, and nothing that a later
      call could tell is left behind, if and only if every step is harmless: whatever the clock does. */
  lemma {:induction false} OverlappingAnswersAreExactIff(p: Policy, w: World, events: seq<Event>)
    requires p.Valid() && Inv(p, w) && Run(p, w, events)
    ensures HarmlessRun(p, w, events) <==> ExactRun(p, w, events)
    ensures HarmlessRun(p, w, events) ==> Inv(p, AfterRun(p, w, events))
    decreases |events|
  {
    if events != [] {
      if Harmless(p, w, events[0]) {
        HarmlessKeepsInv(p, w, events[0]);
        OverlappingAnswersAreExactIff(p, Step(p, w, events[0]), events[1..]);
      } else {
        HarmfulIsNotExact(p, w, events[0]);
      }
    }
  }

  // ---------------------------------------------------------------- a condition on readings and lookups

  /** No clock reading is before that of the last sweep. */
  predicate SinceSweep(m: Machine, e: Event) {
    match e
    case Open(_, _, now) => m.table.swept <= now
    case Close(made) => m.table.swept <= made
    case Finish(_, taken) => m.table.swept <= taken
    case _ => true
  }

  /** When a sweep is due, no call that has yet to use its bucket has left it untouched for `idle`. */
  predicate Sparing(p: Policy, m: Machine, e: Event) {
    e.Open? && SweepDue(p, m.table, e.now) ==>
      forall c :: c in m.pending && m.pending[c].key in m.table.buckets ==>
        !Stale(p, m.table.buckets[m.pending[c].key], e.now)
  }

  predicate SparingRun(p: Policy, w: World, events: seq<Event>)
    requires p.Valid() && Run(p, w, events)
    decreases |events|
  {
    events == []
    || (SinceSweep(w.m, events[0]) && Sparing(p, w.m, events[0]) && SparingRun(p, Step(p, w, events[0]), events[1..]))
  }

  predicate Unheld(m: Machine, key: Key) {
    forall c :: c in m.pending ==> m.pending[c].key != key
  }

  /** The sweep under way, if there is one, has nothing to do with the buckets that calls hold. */
  ghost predicate Spared(p: Policy, m: Machine, clock: int) {
    && m.table.swept <= clock
    && (forall c :: c in m.pending ==> InTable(m, m.pending[c]))
    && (m.holder.By? && (m.holder.todo != {} || m.holder.found.Some?) ==>
          && m.holder.now == m.table.swept && m.holder.todo <= m.table.buckets.Keys
          && (forall k :: k in m.holder.todo && Stale(p, m.table.buckets[k], m.holder.now) ==> Unheld(m, k))
          && (m.holder.found.Some? ==>
                && m.holder.found.value in m.holder.todo
                && Stale(p, m.table.buckets[m.holder.found.value], m.holder.now)))
  }

  /** Every key's bucket is the private one from the last sweep's reading on. */
  ghost predicate AtSweep(p: Policy, w: World) {
    forall key :: key in w.q ==> SameFrom(p, BucketAt(p, w.m, key, w.m.table.swept), w.q[key], w.m.table.swept)
  }

  lemma SparedLookup(p: Policy, w: World, e: Event)
    requires p.Valid() && Spared(p, w.m, w.clock) && Legal(w.m, e) && SinceSweep(w.m, e) && Sparing(p, w.m, e)
    requires e.Open? || e.Look? || e.Close?
    ensures Spared(p, Step(p, w, e).m, Step(p, w, e).clock)
  {
  }

  lemma SparedWeigh(p: Policy, w: World)
    requires p.Valid() && Spared(p, w.m, w.clock) && Legal(w.m, Weigh)
    ensures Spared(p, Step(p, w, Weigh).m, w.clock) && Unheld(w.m, w.m.holder.found.value)
  {
    assert Unheld(w.m, w.m.holder.found.value);
  }

  lemma SparedFinish(p: Policy, w: World, call: nat, taken: int)
    requires p.Valid() && Spared(p, w.m, w.clock) && Legal(w.m, Finish(call, taken)) && w.m.table.swept <= taken
    ensures Spared(p, Step(p, w, Finish(call, taken)).m, taken) && InTable(w.m, w.m.pending[call])
  {
    var m, used := Step(p, w, Finish(call, taken)).m, w.m.pending[call].key;
    assert forall k :: k in m.table.buckets && k != used ==> m.table.buckets[k] == w.m.table.buckets[k];
    assert !Unheld(w.m, used);
  }

  lemma SparedStep(p: Policy, w: World, e: Event)
    requires p.Valid() && Spared(p, w.m, w.clock) && Legal(w.m, e) && SinceSweep(w.m, e) && Sparing(p, w.m, e)
    ensures Spared(p, Step(p, w, e).m, Step(p, w, e).clock)
    ensures e.Finish? ==> InTable(w.m, w.m.pending[e.call])
  {
    match e {
      case Weigh => SparedWeigh(p, w);
      case Finish(call, taken) => SparedFinish(p, w, call, taken);
      case _ => SparedLookup(p, w, e);
    }
  }

  /** Buckets that agree from the last sweep's reading on withstand every reading from then on. */
  lemma AtSweepWithstands(p: Policy, w: World, reading: int)
    requires p.Valid() && AtSweep(p, w) && w.m.table.swept <= reading
    ensures forall key :: key in w.q ==> SameFrom(p, BucketAt(p, w.m, key, reading), w.q[key], reading)
  {
    forall key | key in w.q
      ensures SameFrom(p, BucketAt(p, w.m, key, reading), w.q[key], reading)
    {
      SameAtReading(p, w.m, w.q[key], key, w.m.table.swept, reading);
    }
  }

  lemma SparingStepIsHarmless(p: Policy, w: World, e: Event)
    requires p.Valid() && Inv(p, w) && AtSweep(p, w) && Spared(p, w.m, w.clock)
    requires Legal(w.m, e) && SinceSweep(w.m, e) && Sparing(p, w.m, e)
    ensures Harmless(p, w, e)
  {
    SparedStep(p, w, e);
    match e {
      case Open(_, _, now) => AtSweepWithstands(p, w, now);
      case Look(_) =>
      case Weigh =>
      case Close(made) => AtSweepWithstands(p, w, made);
      case Finish(_, taken) => AtSweepWithstands(p, w, taken);
    }
  }

  lemma OpenAtSweep(p: Policy, w: World, e: Event)
    requires p.Valid() && AtSweep(p, w) && Legal(w.m, e) && SinceSweep(w.m, e) && e.Open?
    ensures AtSweep(p, Step(p, w, e))
  {
    AtSweepWithstands(p, w, Step(p, w, e).m.table.swept);
  }

  lemma LookAtSweep(p: Policy, w: World, key: Key)
    requires p.Valid() && AtSweep(p, w) && Legal(w.m, Look(key))
    ensures AtSweep(p, Step(p, w, Look(key)))
  {
    assert Step(p, w, Look(key)).m.table == w.m.table;
  }

  lemma CloseAtSweep(p: Policy, w: World, made: int)
    requires p.Valid() && Inv(p, w) && AtSweep(p, w) && Legal(w.m, Close(made))
    ensures AtSweep(p, Step(p, w, Close(made)))
  {
    var w', swept := Step(p, w, Close(made)), w.m.table.swept;
    NewIsFull(p.limits, made, swept);
    NewIsFull(p.limits, swept, swept);
    forall key | key in w'.q
      ensures SameFrom(p, BucketAt(p, w'.m, key, swept), w'.q[key], swept)
    {
      assert key in w.q ==> SameFrom(p, BucketAt(p, w.m, key, swept), w.q[key], swept);
    }
  }

  lemma WeighAtSweep(p: Policy, w: World)
    requires p.Valid() && Inv(p, w) && AtSweep(p, w) && Spared(p, w.m, w.clock) && Legal(w.m, Weigh)
    ensures AtSweep(p, Step(p, w, Weigh))
  {
    var key, w', swept := w.m.holder.found.value, Step(p, w, Weigh), w.m.table.swept;
    WeighKeepsSame(p, w.m.table.buckets[key], w.q[key], swept, swept);
    TakeIsSound(p.limits, w.m.table.buckets[key], swept);
    forall k | k in w'.q
      ensures SameFrom(p, BucketAt(p, w'.m, k, swept), w'.q[k], swept)
    {
      assert SameFrom(p, BucketAt(p, w.m, k, swept), w.q[k], swept);
    }
  }

  lemma FinishAtSweep(p: Policy, w: World, call: nat, taken: int)
    requires p.Valid() && Inv(p, w) && AtSweep(p, w) && Legal(w.m, Finish(call, taken))
    requires InTable(w.m, w.m.pending[call]) && w.m.table.swept <= taken
    ensures AtSweep(p, Step(p, w, Finish(call, taken)))
  {
    var used, w', swept := w.m.pending[call].key, Step(p, w, Finish(call, taken)), w.m.table.swept;
    AtSweepWithstands(p, w, taken);
    TakeIsSound(p.limits, w.q[used], taken);
    forall k | k in w'.q
      ensures SameFrom(p, BucketAt(p, w'.m, k, swept), w'.q[k], swept)
    {
      if k != used {
        assert SameFrom(p, BucketAt(p, w.m, k, swept), w.q[k], swept);
      }
    }
  }

  lemma AtSweepStep(p: Policy, w: World, e: Event)
    requires p.Valid() && Inv(p, w) && AtSweep(p, w) && Spared(p, w.m, w.clock)
    requires Legal(w.m, e) && SinceSweep(w.m, e) && Sparing(p, w.m, e)
    ensures AtSweep(p, Step(p, w, e))
  {
    match e {
      case Weigh => WeighAtSweep(p, w);
      case Finish(call, taken) =>
        SparedStep(p, w, e);
        FinishAtSweep(p, w, call, taken);
      case Open(_, _, _) => OpenAtSweep(p, w, e);
      case Look(key) => LookAtSweep(p, w, key);
      case Close(made) => CloseAtSweep(p, w, made);
    }
  }

  lemma {:induction false} SparingIsHarmless(p: Policy, w: World, events: seq<Event>)
    requires p.Valid() && Inv(p, w) && AtSweep(p, w) && Spared(p, w.m, w.clock)
    requires Run(p, w, events) && SparingRun(p, w, events)
    ensures HarmlessRun(p, w, events)
    decreases |events|
  {
    if events != [] {
      SparingStepIsHarmless(p, w, events[0]);
      HarmlessKeepsInv(p, w, events[0]);
      SparedStep(p, w, events[0]);
      AtSweepStep(p, w, events[0]);
      SparingIsHarmless(p, Step(p, w, events[0]), events[1..]);
    }
  }

  /** So overlapping calls are answered exactly if the clock never steps back to before the last sweep
      and every due sweep finds the buckets that calls still have to use touched within `idle`. */
  lemma OverlappingAnswersAreExact(p: Policy, made: int, events: seq<Event>)
    requires p.Valid() && Run(p, Start(made), events) && SparingRun(p, Start(made), events)
    ensures ExactRun(p, Start(made), events)
  {
    StartKeepsInv(p, made);
    SparingIsHarmless(p, Start(made), events);
    OverlappingAnswersAreExactIff(p, Start(made), events);
  }

  // ---------------------------------------------------------------- calls that do not overlap

  /** The clock never steps back from one reading to the next, whoever makes them. */
  predicate InOrder(clock: int, e: Event) {
    match e
    case Open(_, _, now) => clock <= now
    case Close(made) => clock <= made
    case Finish(_, taken) => clock <= taken
    case _ => true
  }

  predicate RunInOrder(p: Policy, w: World, events: seq<Event>)
    requires p.Valid() && Run(p, w, events)
    decreases |events|
  {
    events == [] || (InOrder(w.clock, events[0]) && RunInOrder(p, Step(p, w, events[0]), events[1..]))
  }

  lemma {:induction false} RunAppend(p: Policy, w: World, a: seq<Event>, b: seq<Event>)
    requires p.Valid() && Run(p, w, a) && Run(p, AfterRun(p, w, a), b)
    ensures Run(p, w, a + b) && AfterRun(p, w, a + b) == AfterRun(p, AfterRun(p, w, a), b)
    ensures RunInOrder(p, w, a) && RunInOrder(p, AfterRun(p, w, a), b) ==> RunInOrder(p, w, a + b)
    decreases |a|
  {
    if a == [] {
      assert a + b == b;
    } else {
      RunAppend(p, Step(p, w, a[0]), a[1..], b);
      assert (a + b)[0] == a[0] && (a + b)[1..] == a[1..] + b;
    }
  }

  lemma RunOne(p: Policy, w: World, e: Event)
    requires p.Valid() && Legal(w.m, e)
    ensures Run(p, w, [e]) && AfterRun(p, w, [e]) == Step(p, w, e)
    ensures InOrder(w.clock, e) ==> RunInOrder(p, w, [e])
  {
    assert Run(p, Step(p, w, e), [e][1..]);
  }

  /** The looks of a sweep that visits the keys in this order. */
  function Visits(p: Policy, was: map<Key, Bucket>, now: int, order: seq<Key>): seq<Event>
    requires forall k :: k in order ==> k in was
  {
    if order == [] then []
    else (if Stale(p, was[order[0]], now) then [Look(order[0]), Weigh] else [Look(order[0])])
         + Visits(p, was, now, order[1..])
  }

  /** A sweep with `keys` still to visit. */
  predicate Midway(p: Policy, w: World, was: map<Key, Bucket>, keys: set<Key>) {
    && w.m.holder.By? && w.m.holder.found.None? && w.m.holder.todo == keys && keys <= was.Keys
    && w.m.table.buckets == PartlySwept(p, was, keys, w.m.holder.now)
  }

  /** What a sweep leaves alone. */
  predicate SameBut(w: World, w': World) {
    && w'.q == w.q && w'.clock == w.clock && w'.m.pending == w.m.pending && w'.m.table.swept == w.m.table.swept
    && w.m.holder.By? && w'.m.holder.By?
    && w'.m.holder == w.m.holder.(todo := w'.m.holder.todo, found := w'.m.holder.found)
  }

  lemma VisitOne(p: Policy, w: World, was: map<Key, Bucket>, keys: set<Key>, key: Key)
    requires p.Valid() && Midway(p, w, was, keys) && key in keys
    ensures var es := if Stale(p, was[key], w.m.holder.now) then [Look(key), Weigh] else [Look(key)];
      && Run(p, w, es)
      && Midway(p, AfterRun(p, w, es), was, keys - {key}) && SameBut(w, AfterRun(p, w, es))
  {
    var now := w.m.holder.now;
    VisitSteps(p, was, keys, key, now);
    assert w.m.table.buckets[key] == was[key];
    var w1 := Step(p, w, Look(key));
    RunOne(p, w, Look(key));
    if Stale(p, was[key], now) {
      RunOne(p, w1, Weigh);
      RunAppend(p, w, [Look(key)], [Weigh]);
      assert [Look(key)] + [Weigh] == [Look(key), Weigh];
    }
  }

  predicate NoRepeats(order: seq<Key>) {
    forall i, j :: 0 <= i < j < |order| ==> order[i] != order[j]
  }

  function KeysOf(order: seq<Key>): set<Key> {
    set k | k in order
  }

  lemma {:induction false} SweepAlone(p: Policy, w: World, was: map<Key, Bucket>, order: seq<Key>)
    requires p.Valid() && NoRepeats(order) && Midway(p, w, was, KeysOf(order))
    ensures forall k :: k in order ==> k in was
    ensures var es := Visits(p, was, w.m.holder.now, order);
      Run(p, w, es) && Midway(p, AfterRun(p, w, es), was, {}) && SameBut(w, AfterRun(p, w, es))
    decreases |order|
  {
    assert forall k :: k in order ==> k in KeysOf(order);
    if order != [] {
      var key, rest := order[0], order[1..];
      var es := if Stale(p, was[key], w.m.holder.now) then [Look(key), Weigh] else [Look(key)];
      VisitOne(p, w, was, KeysOf(order), key);
      assert order == [key] + rest;
      assert KeysOf(order) - {key} == KeysOf(rest);
      SweepAlone(p, AfterRun(p, w, es), was, rest);
      RunAppend(p, w, es, Visits(p, was, w.m.holder.now, rest));
    }
  }

  /** The steps of a call's lookup, its sweep, if one is due, visiting the keys in this order. */
  function LookupSteps(p: Policy, t: Table, call: nat, c: Call, order: seq<Key>): seq<Event>
    requires SweepDue(p, t, c.now) ==> KeysOf(order) == t.buckets.Keys
  {
    assert forall k :: k in order ==> k in KeysOf(order);
    [Open(call, c.key, c.now)] + (if SweepDue(p, t, c.now) then Visits(p, t.buckets, c.now, order) else [])
    + [Close(c.made)]
  }

  /** After the lock is taken and the sweep is through. */
  lemma LookupOpens(p: Policy, w: World, call: nat, c: Call, order: seq<Key>)
    requires p.Valid() && w.m.holder.Nobody? && call !in w.m.pending
    requires NoRepeats(order) && (SweepDue(p, w.m.table, c.now) ==> KeysOf(order) == w.m.table.buckets.Keys)
    ensures forall k :: k in order ==> k in KeysOf(order)
    ensures var es := [Open(call, c.key, c.now)]
                      + (if SweepDue(p, w.m.table, c.now) then Visits(p, w.m.table.buckets, c.now, order) else []);
      && Run(p, w, es)
      && var w' := AfterRun(p, w, es);
      && w'.m.table == (if SweepDue(p, w.m.table, c.now) then Sweep(p, w.m.table, c.now) else w.m.table)
      && w'.m.holder == By(call, c.key, c.now, {}, None)
      && w'.clock == c.now && w'.q == w.q && w'.m.pending == w.m.pending
  {
    assert forall k :: k in order ==> k in KeysOf(order);
    var e := Open(call, c.key, c.now);
    var w1 := Step(p, w, e);
    RunOne(p, w, e);
    if SweepDue(p, w.m.table, c.now) {
      assert w1.m.table.buckets == PartlySwept(p, w.m.table.buckets, KeysOf(order), c.now);
      SweepAlone(p, w1, w.m.table.buckets, order);
      var es := Visits(p, w.m.table.buckets, c.now, order);
      RunAppend(p, w, [e], es);
      assert Sweep(p, w.m.table, c.now).buckets == PartlySwept(p, w.m.table.buckets, {}, c.now);
    } else {
      assert [e] + [] == [e];
    }
  }

  /** A call whose steps are not interrupted, in whatever order its sweep visits the keys, is the call
      of KeyedLimiter: the same table and the same answer. */
  lemma UninterruptedIsAtomic(p: Policy, w: World, call: nat, c: Call, order: seq<Key>)
    requires p.Valid() && w.m.holder.Nobody? && call !in w.m.pending
    requires NoRepeats(order) && (SweepDue(p, w.m.table, c.now) ==> KeysOf(order) == w.m.table.buckets.Keys)
    ensures var es := LookupSteps(p, w.m.table, call, c, order);
      && Run(p, w, es)
      && var w' := AfterRun(p, w, es);
      && Legal(w'.m, Finish(call, c.taken))
      && Got(p, w', call, c.taken) == Answer(p, w.m.table, c)
      && Step(p, w', Finish(call, c.taken)).m.table == AfterCall(p, w.m.table, c)
  {
    LookupOpens(p, w, call, c, order);
    var es := [Open(call, c.key, c.now)]
              + (if SweepDue(p, w.m.table, c.now) then Visits(p, w.m.table.buckets, c.now, order) else []);
    RunOne(p, AfterRun(p, w, es), Close(c.made));
    RunAppend(p, w, es, [Close(c.made)]);
  }

  // ---------------------------------------------------------------- runs that are not exact

  const ONE_EACH_SECOND := Policy(Limits(1.0, 1), 2 * SECOND)

  const HALF: int := SECOND / 2

  /** A call looks up A; two seconds later a call for B sweeps and finds A's bucket stale. */
  const SWEEP_BEGINS: seq<Event> := [Open(0, A, 0), Close(0), Open(1, B, 2 * SECOND), Look(A)]

  /** A's call uses the bucket before the sweep's second look; A calls again at three seconds. */
  const USED_IN_BETWEEN: seq<Event> :=
    [Finish(0, 2 * SECOND + HALF), Weigh, Close(2 * SECOND + HALF), Open(2, A, 3 * SECOND), Close(3 * SECOND)]

  /** A's call uses the bucket after the sweep has dropped it; A calls again at once. */
  const USED_AFTERWARDS: seq<Event> :=
    [Weigh, Close(2 * SECOND), Finish(0, 2 * SECOND), Open(2, A, 2 * SECOND), Close(2 * SECOND)]

  lemma OneMore(p: Policy, w: World, before: seq<Event>, e: Event)
    requires p.Valid() && Run(p, w, before) && RunInOrder(p, w, before)
    requires Legal(AfterRun(p, w, before).m, e) && InOrder(AfterRun(p, w, before).clock, e)
    ensures Run(p, w, before + [e]) && AfterRun(p, w, before + [e]) == Step(p, AfterRun(p, w, before), e)
    ensures RunInOrder(p, w, before + [e])
  {
    RunOne(p, AfterRun(p, w, before), e);
    RunAppend(p, w, before, [e]);
  }

  /** Five events from one state to the next. */
  lemma FiveSteps(p: Policy, w: World, a: Event, b: Event, c: Event, d: Event, e: Event,
                  w1: World, w2: World, w3: World, w4: World, w5: World)
    requires p.Valid()
    requires Legal(w.m, a) && InOrder(w.clock, a) && w1 == Step(p, w, a)
    requires Legal(w1.m, b) && InOrder(w1.clock, b) && w2 == Step(p, w1, b)
    requires Legal(w2.m, c) && InOrder(w2.clock, c) && w3 == Step(p, w2, c)
    requires Legal(w3.m, d) && InOrder(w3.clock, d) && w4 == Step(p, w3, d)
    requires Legal(w4.m, e) && InOrder(w4.clock, e) && w5 == Step(p, w4, e)
    ensures Run(p, w, [a, b, c, d, e]) && AfterRun(p, w, [a, b, c, d, e]) == w5 && RunInOrder(p, w, [a, b, c, d, e])
  {
    RunOne(p, w, a);
    OneMore(p, w, [a], b);
    assert [a] + [b] == [a, b];
    OneMore(p, w, [a, b], c);
    assert [a, b] + [c] == [a, b, c];
    OneMore(p, w, [a, b, c], d);
    assert [a, b, c] + [d] == [a, b, c, d];
    OneMore(p, w, [a, b, c, d], e);
    assert [a, b, c, d] + [e] == [a, b, c, d, e];
  }

  /** The world when B's sweep has found A's bucket stale. */
  const FOUND_STALE := World(
    Machine(Table(map[A := Bucket(1.0, 0)], 2 * SECOND), map[], map[], map[0 := Held(A, 0)],
            By(1, B, 2 * SECOND, {A}, Some(A))),
    map[A := Bucket(1.0, 0)], 2 * SECOND)

  lemma SweepBegins()
    ensures Run(ONE_EACH_SECOND, Start(0), SWEEP_BEGINS)
    ensures AfterRun(ONE_EACH_SECOND, Start(0), SWEEP_BEGINS) == FOUND_STALE
    ensures RunInOrder(ONE_EACH_SECOND, Start(0), SWEEP_BEGINS)
  {
    var p, w0 := ONE_EACH_SECOND, Start(0);
    var w1 := Step(p, w0, Open(0, A, 0));
    var w2 := Step(p, w1, Close(0));
    assert w2.m.table.buckets == map[A := Bucket(1.0, 0)];
    var w3 := Step(p, w2, Open(1, B, 2 * SECOND));
    var w4 := Step(p, w3, Look(A));
    assert w3.m.table == Table(map[A := Bucket(1.0, 0)], 2 * SECOND) && w3.m.holder.todo == {A};
    assert w4.m.holder == FOUND_STALE.m.holder && w4.m.pending == FOUND_STALE.m.pending;
    assert w4.q == FOUND_STALE.q && w4.m.table == FOUND_STALE.m.table;
    assert w4 == FOUND_STALE;
    RunOne(p, w0, Open(0, A, 0));
    OneMore(p, w0, [Open(0, A, 0)], Close(0));
    assert [Open(0, A, 0)] + [Close(0)] == SWEEP_BEGINS[..2];
    OneMore(p, w0, SWEEP_BEGINS[..2], Open(1, B, 2 * SECOND));
    assert SWEEP_BEGINS[..2] + [Open(1, B, 2 * SECOND)] == SWEEP_BEGINS[..3];
    OneMore(p, w0, SWEEP_BEGINS[..3], Look(A));
    assert SWEEP_BEGINS[..3] + [Look(A)] == SWEEP_BEGINS;
  }

  /** A's bucket is back at the sweep's reading; its private one is as it was used. */
  const BACKDATED := World(
    Machine(Table(map[A := Bucket(0.0, 2 * SECOND), B := Bucket(1.0, 2 * SECOND + HALF)], 2 * SECOND),
            map[], map[], map[1 := Held(B, 0), 2 := Held(A, 0)], Nobody),
    map[A := Bucket(0.0, 2 * SECOND + HALF), B := Bucket(1.0, 2 * SECOND + HALF)], 3 * SECOND)

  lemma UseInBetween()
    ensures Run(ONE_EACH_SECOND, FOUND_STALE, USED_IN_BETWEEN)
    ensures RunInOrder(ONE_EACH_SECOND, FOUND_STALE, USED_IN_BETWEEN)
    ensures AfterRun(ONE_EACH_SECOND, FOUND_STALE, USED_IN_BETWEEN) == BACKDATED
  {
    var p, w, late := ONE_EACH_SECOND, FOUND_STALE, 2 * SECOND + HALF;
    assert Earned(p.limits, late) == 2.5;
    var w1 := Step(p, w, Finish(0, late));
    assert w1.m.table.buckets == map[A := Bucket(0.0, late)] && w1.q == map[A := Bucket(0.0, late)];
    var w2 := Step(p, w1, Weigh);
    assert w2.m.table.buckets == map[A := Bucket(0.0, 2 * SECOND)] && w2.m.holder.todo == {};
    var w3 := Step(p, w2, Close(late));
    var w4 := Step(p, w3, Open(2, A, 3 * SECOND));
    var w5 := Step(p, w4, Close(3 * SECOND));
    assert w5.m.table.buckets == BACKDATED.m.table.buckets && w5.q == BACKDATED.q;
    assert w5.m.pending == BACKDATED.m.pending;
    FiveSteps(p, w, USED_IN_BETWEEN[0], USED_IN_BETWEEN[1], USED_IN_BETWEEN[2], USED_IN_BETWEEN[3], USED_IN_BETWEEN[4],
              w1, w2, w3, w4, w5);
  }

  /** A run in which no bucket is dropped and the clock never steps back, and the table yet admits a
      call that the private limiter refuses: the sweep has dated A's bucket back. */
  lemma SweepCanBackdate()
    ensures var p, events, again := ONE_EACH_SECOND, SWEEP_BEGINS + USED_IN_BETWEEN, Finish(2, 3 * SECOND);
      && Run(p, Start(0), events) && RunInOrder(p, Start(0), events)
      && var w := AfterRun(p, Start(0), events);
      && w.m.orphans == map[] && Legal(w.m, again) && InOrder(w.clock, again)
      && Got(p, w, 2, 3 * SECOND).ok && !Wanted(p, w, 2, 3 * SECOND).ok
  {
    var p := ONE_EACH_SECOND;
    assert Earned(p.limits, SECOND) == 1.0 && Earned(p.limits, HALF) == 0.5;
    SweepBegins();
    UseInBetween();
    RunAppend(p, Start(0), SWEEP_BEGINS, USED_IN_BETWEEN);
  }

  /** A's bucket is a new one; its private one is as it was used. */
  const UNCHARGED := World(
    Machine(Table(map[A := Bucket(1.0, 2 * SECOND), B := Bucket(1.0, 2 * SECOND)], 2 * SECOND),
            map[A := 1], map[Held(A, 0) := Bucket(0.0, 2 * SECOND)], map[1 := Held(B, 0), 2 := Held(A, 1)], Nobody),
    map[A := Bucket(0.0, 2 * SECOND), B := Bucket(1.0, 2 * SECOND)], 2 * SECOND)

  /** A's bucket is dropped while call 0 holds it. */
  const DROPPED := World(
    Machine(Table(map[], 2 * SECOND), map[A := 1], map[Held(A, 0) := Bucket(1.0, 2 * SECOND)],
            map[0 := Held(A, 0)], By(1, B, 2 * SECOND, {}, None)),
    map[A := Bucket(1.0, 0)], 2 * SECOND)

  lemma DropsHeld()
    ensures Step(ONE_EACH_SECOND, FOUND_STALE, Weigh) == DROPPED
  {
    var p, w := ONE_EACH_SECOND, Step(ONE_EACH_SECOND, FOUND_STALE, Weigh);
    assert Earned(p.limits, 2 * SECOND) == 2.0;
    assert w.m.table.buckets == map[] && w.m.holder.todo == {};
    assert w.m.drops == DROPPED.m.drops && w.m.orphans == DROPPED.m.orphans;
  }

  /** Its use has gone by the table. */
  const MISSED := World(
    Machine(Table(map[B := Bucket(1.0, 2 * SECOND)], 2 * SECOND), map[A := 1],
            map[Held(A, 0) := Bucket(0.0, 2 * SECOND)], map[1 := Held(B, 0)], Nobody),
    map[A := Bucket(0.0, 2 * SECOND), B := Bucket(1.0, 2 * SECOND)], 2 * SECOND)

  lemma UseMisses()
    ensures var p, w := ONE_EACH_SECOND, Step(ONE_EACH_SECOND, DROPPED, Close(2 * SECOND));
      Legal(w.m, Finish(0, 2 * SECOND)) && Step(p, w, Finish(0, 2 * SECOND)) == MISSED
  {
    var p, w := ONE_EACH_SECOND, Step(ONE_EACH_SECOND, DROPPED, Close(2 * SECOND));
    assert Earned(p.limits, 2 * SECOND) == 2.0;
    assert w.m.table.buckets == map[B := Bucket(1.0, 2 * SECOND)] && Held(A, 0) in w.m.orphans;
    var w' := Step(p, w, Finish(0, 2 * SECOND));
    assert w'.m.orphans == MISSED.m.orphans && w'.m.pending == MISSED.m.pending && w'.q == MISSED.q;
  }

  lemma UseAfterwards()
    ensures Run(ONE_EACH_SECOND, FOUND_STALE, USED_AFTERWARDS)
    ensures RunInOrder(ONE_EACH_SECOND, FOUND_STALE, USED_AFTERWARDS)
    ensures AfterRun(ONE_EACH_SECOND, FOUND_STALE, USED_AFTERWARDS) == UNCHARGED
  {
    var p, w, now := ONE_EACH_SECOND, FOUND_STALE, 2 * SECOND;
    DropsHeld();
    UseMisses();
    var w1 := DROPPED;
    var w2 := Step(p, w1, Close(now));
    var w3 := MISSED;
    var w4 := Step(p, w3, Open(2, A, now));
    var w5 := Step(p, w4, Close(now));
    assert w5.m.table.buckets == UNCHARGED.m.table.buckets && w5.q == UNCHARGED.q;
    assert w5.m.pending == UNCHARGED.m.pending && w5.m.drops == UNCHARGED.m.drops;
    assert w5.m.orphans == UNCHARGED.m.orphans;
    FiveSteps(p, w, USED_AFTERWARDS[0], USED_AFTERWARDS[1], USED_AFTERWARDS[2], USED_AFTERWARDS[3], USED_AFTERWARDS[4],
              w1, w2, w3, w4, w5);
  }

  /** And one in which the clock stands still: the sweep drops A's bucket while a call holds it. */
  lemma SweepCanUncharge()
    ensures var p, events, again := ONE_EACH_SECOND, SWEEP_BEGINS + USED_AFTERWARDS, Finish(2, 2 * SECOND);
      && Run(p, Start(0), events) && RunInOrder(p, Start(0), events)
      && var w := AfterRun(p, Start(0), events);
      && Legal(w.m, again) && InOrder(w.clock, again)
      && Got(p, w, 2, 2 * SECOND).ok && !Wanted(p, w, 2, 2 * SECOND).ok
  {
    SweepBegins();
    UseAfterwards();
    RunAppend(ONE_EACH_SECOND, Start(0), SWEEP_BEGINS, USED_AFTERWARDS);
  }
}
