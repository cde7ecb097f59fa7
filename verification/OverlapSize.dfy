/** The table does not grow without bound when calls overlap either, lock by lock and whatever a call
    does to its bucket in the middle of a sweep: every key held was looked up or used recently. */
module OverlapSize {
  import opened KeyedLimiter
  import opened Overlap
  import opened TableSize
  import opened TokenBucket

  /** What has happened: each lookup and each use of a key, in order; the latest reading at which the
      table was locked; and the reading of the sweep before the last. */
  datatype Log = Log(touches: seq<Call>, locked: int, before: int)

  function Touch(key: Key, at: int): Call {
    Call(key, at, at, at)
  }

  function Noted(p: Policy, w: World, log: Log, e: Event): Log
    requires Legal(w.m, e)
  {
    match e
    case Open(_, _, now) =>
      log.(locked := now, before := if SweepDue(p, w.m.table, now) then w.m.table.swept else log.before)
    case Close(made) => log.(touches := log.touches + [Touch(w.m.holder.key, made)])
    case Finish(call, taken) => log.(touches := log.touches + [Touch(w.m.pending[call].key, taken)])
    case _ => log
  }

  /** The log of a whole run. */
  function Journal(p: Policy, w: World, log: Log, events: seq<Event>): Log
    requires p.Valid() && Run(p, w, events)
    decreases |events|
  {
    if events == [] then log else Journal(p, Step(p, w, events[0]), Noted(p, w, log, events[0]), events[1..])
  }

  function FirstLog(made: int): Log {
    Log([], made, made)
  }

  /** The sweep that has last had to do with the key: the one before, until the one under way has. */
  function SweptFor(m: Machine, log: Log, key: Key): int {
    if m.holder.By? && key in m.holder.todo then log.before else m.table.swept
  }

  predicate KeyKept(p: Policy, w: World, log: Log, key: Key)
    requires key in w.m.table.buckets
  {
    && key in LastUse(log.touches) && LastUse(log.touches)[key] <= w.clock
    && w.m.table.buckets[key].last <= w.clock
    && Accounted(p, w.m.table.buckets[key], SweptFor(w.m, log, key), LastUse(log.touches)[key])
  }

  predicate SweepKept(p: Policy, w: World, log: Log) {
    && w.m.table.swept <= w.clock && log.locked - w.m.table.swept < p.idle
    && (w.m.holder.By? && (w.m.holder.todo != {} || w.m.holder.found.Some?) ==>
          && log.before + p.idle <= w.m.table.swept == w.m.holder.now
          && (w.m.holder.found.Some? ==> w.m.holder.found.value in w.m.holder.todo))
  }

  predicate Kept(p: Policy, w: World, log: Log) {
    SweepKept(p, w, log) && forall key :: key in w.m.table.buckets ==> KeyKept(p, w, log, key)
  }

  lemma NotesUse(log: Log, key: Key, at: int)
    ensures LastUse(log.touches + [Touch(key, at)]) == LastUse(log.touches)[key := at]
  {
    assert (log.touches + [Touch(key, at)])[..|log.touches|] == log.touches;
  }

  /** A later use makes an account no worse. */
  lemma AccountedLater(p: Policy, b: Bucket, swept: int, use: int, later: int)
    requires p.Valid() && Accounted(p, b, swept, use) && use <= later
    ensures Accounted(p, b, swept, later)
  {
    EarnedIsLinear(p.limits, b.last - later, b.last - use);
    EarnedIsLinear(p.limits, swept - later, swept - use);
  }

  /** Nothing but its level can be asked of a bucket just used. */
  lemma JustUsed(p: Policy, b: Bucket, swept: int, at: int)
    requires p.Valid() && Sound(p.limits, b) && b.last == at && swept <= at
    ensures Accounted(p, b, swept, at)
  {
    EarnedIsLinear(p.limits, 0, 0);
  }

  lemma OpenKeeps(p: Policy, w: World, log: Log, e: Event)
    requires p.Valid() && Kept(p, w, log) && Legal(w.m, e) && InOrder(w.clock, e) && e.Open?
    ensures Kept(p, Step(p, w, e), Noted(p, w, log, e))
  {
    var w', log' := Step(p, w, e), Noted(p, w, log, e);
    forall key | key in w'.m.table.buckets
      ensures KeyKept(p, w', log', key)
    {
      assert KeyKept(p, w, log, key);
    }
  }

  /** A bucket that is not stale was used less than `idle` ago. */
  lemma LookKeeps(p: Policy, w: World, log: Log, looked: Key)
    requires p.Valid() && Kept(p, w, log) && Legal(w.m, Look(looked))
    ensures Kept(p, Step(p, w, Look(looked)), log)
  {
    var w' := Step(p, w, Look(looked));
    forall key | key in w'.m.table.buckets
      ensures KeyKept(p, w', log, key)
    {
      assert KeyKept(p, w, log, key);
      if key == looked && !Stale(p, w.m.table.buckets[key], w.m.holder.now) {
        EarnedIsLinear(p.limits, 0, 0);
      }
    }
  }

  /** A bucket that the sweep keeps, though it may have been used since the sweep found it stale. */
  lemma WeighedIsAccounted(p: Policy, b: Bucket, before: int, use: int, now: int)
    requires p.Valid() && Accounted(p, b, before, use) && Advance(p.limits, b, now).tokens < p.limits.burst as real
    ensures Accounted(p, Advance(p.limits, b, now), now, use)
  {
    TakeIsSound(p.limits, b, now);
    EarnedIsLinear(p.limits, b.last - use, now - b.last);
    EarnedIsLinear(p.limits, now - use, b.last - use);
    assert (b.last - use) + (now - b.last) == now - use;
  }

  lemma WeighKeeps(p: Policy, w: World, log: Log)
    requires p.Valid() && Kept(p, w, log) && Legal(w.m, Weigh)
    ensures Kept(p, Step(p, w, Weigh), log)
  {
    var w', weighed := Step(p, w, Weigh), w.m.holder.found.value;
    forall key | key in w'.m.table.buckets
      ensures KeyKept(p, w', log, key)
    {
      assert KeyKept(p, w, log, key);
      if key == weighed {
        WeighedIsAccounted(p, w.m.table.buckets[key], log.before, LastUse(log.touches)[key], w.m.holder.now);
      }
    }
  }

  lemma CloseKeeps(p: Policy, w: World, log: Log, made: int)
    requires p.Valid() && Kept(p, w, log) && Legal(w.m, Close(made)) && w.clock <= made
    ensures Kept(p, Step(p, w, Close(made)), Noted(p, w, log, Close(made)))
  {
    var w', log', used := Step(p, w, Close(made)), Noted(p, w, log, Close(made)), w.m.holder.key;
    NotesUse(log, used, made);
    forall key | key in w'.m.table.buckets
      ensures KeyKept(p, w', log', key)
    {
      if key in w.m.table.buckets {
        assert KeyKept(p, w, log, key);
        AccountedLater(p, w.m.table.buckets[key], w.m.table.swept, LastUse(log.touches)[key],
                       if key == used then made else LastUse(log.touches)[key]);
      } else {
        JustUsed(p, Fresh(p.limits, made), w.m.table.swept, made);
      }
    }
  }

  lemma FinishKeeps(p: Policy, w: World, log: Log, call: nat, taken: int)
    requires p.Valid() && Kept(p, w, log) && Legal(w.m, Finish(call, taken)) && w.clock <= taken
    ensures Kept(p, Step(p, w, Finish(call, taken)), Noted(p, w, log, Finish(call, taken)))
  {
    var e, used := Finish(call, taken), w.m.pending[call].key;
    var w', log' := Step(p, w, e), Noted(p, w, log, e);
    NotesUse(log, used, taken);
    forall key | key in w'.m.table.buckets
      ensures KeyKept(p, w', log', key)
    {
      assert KeyKept(p, w, log, key);
      if key == used && InTable(w.m, w.m.pending[call]) {
        TakeIsSound(p.limits, w.m.table.buckets[key], taken);
        JustUsed(p, w'.m.table.buckets[key], SweptFor(w'.m, log', key), taken);
      } else {
        AccountedLater(p, w.m.table.buckets[key], SweptFor(w.m, log, key), LastUse(log.touches)[key],
                       if key == used then taken else LastUse(log.touches)[key]);
      }
    }
  }

  lemma StepKeeps(p: Policy, w: World, log: Log, e: Event)
    requires p.Valid() && Kept(p, w, log) && Legal(w.m, e) && InOrder(w.clock, e)
    ensures Kept(p, Step(p, w, e), Noted(p, w, log, e))
  {
    match e {
      case Open(_, _, _) => OpenKeeps(p, w, log, e);
      case Look(key) => LookKeeps(p, w, log, key);
      case Weigh => WeighKeeps(p, w, log);
      case Close(made) => CloseKeeps(p, w, log, made);
      case Finish(call, taken) => FinishKeeps(p, w, log, call, taken);
    }
  }

  lemma {:induction false} RunKeeps(p: Policy, w: World, log: Log, events: seq<Event>)
    requires p.Valid() && Kept(p, w, log) && Run(p, w, events) && RunInOrder(p, w, events)
    ensures Kept(p, AfterRun(p, w, events), Journal(p, w, log, events))
    decreases |events|
  {
    if events != [] {
      StepKeeps(p, w, log, events[0]);
      RunKeeps(p, Step(p, w, events[0]), Noted(p, w, log, events[0]), events[1..]);
    }
  }

  predicate NoSweepUnderWay(m: Machine) {
    m.holder.By? ==> m.holder.todo == {}
  }

  /** In every run whose clock never steps back, whenever no sweep is under way, every key held was
      looked up or used less than idle + max(idle, burst / rate) before the table was last locked. */
  lemma HeldKeysAreRecentLockByLock(p: Policy, made: int, events: seq<Event>, key: Key) returns (i: nat)
    requires p.Valid() && Run(p, Start(made), events) && RunInOrder(p, Start(made), events)
    requires var m := AfterRun(p, Start(made), events).m; NoSweepUnderWay(m) && key in m.table.buckets
    ensures var log := Journal(p, Start(made), FirstLog(made), events);
      i < |log.touches| && log.touches[i].key == key && StillHeld(p, log.locked - log.touches[i].taken)
  {
    RunKeeps(p, Start(made), FirstLog(made), events);
    var w, log := AfterRun(p, Start(made), events), Journal(p, Start(made), FirstLog(made), events);
    assert KeyKept(p, w, log, key);
    i := LastUseIsACall(log.touches, key);
    AccountedIsHeld(p, w.m.table.buckets[key], w.m.table.swept, log.touches[i].taken, log.locked);
  }

  /** So the table then holds no more buckets than there were lookups and uses in that window. */
  lemma TableSizeIsBoundedLockByLock(p: Policy, made: int, events: seq<Event>)
    requires p.Valid() && Run(p, Start(made), events) && RunInOrder(p, Start(made), events)
    requires NoSweepUnderWay(AfterRun(p, Start(made), events).m)
    ensures var log := Journal(p, Start(made), FirstLog(made), events);
      |AfterRun(p, Start(made), events).m.table.buckets| <= |Window(p, log.touches, log.locked)|
  {
    var held, log := AfterRun(p, Start(made), events).m.table.buckets, Journal(p, Start(made), FirstLog(made), events);
    forall k | k in held.Keys
      ensures exists i :: i in Window(p, log.touches, log.locked) && log.touches[i].key == k
    {
      var i := HeldKeysAreRecentLockByLock(p, made, events, k);
      assert i in Window(p, log.touches, log.locked);
    }
    KeysInWindow(p, log.touches, log.locked, held.Keys);
    assert |held| == |held.Keys|;
  }
}
