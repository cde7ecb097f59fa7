/** Overlapping calls in line: in a harmless run every call is answered as if it had been made as a
    whole at the moment it used its bucket. */
module OverlapLinear {
  import opened Eviction
  import Issuance
  import IssuanceRates
  import opened KeyedLimiter
  import opened Overlap
  import opened TokenBucket

  /** The call that ends with this event, made as a whole at the reading at which it ends. */
  function Used(w: World, e: Event): seq<Call>
    requires Legal(w.m, e)
  {
    match e
    case Finish(call, taken) => [Call(w.m.pending[call].key, taken, taken, taken)]
    case _ => []
  }

  /** The calls of a run, in the order in which they use their buckets. */
  function Uses(p: Policy, w: World, events: seq<Event>): seq<Call>
    requires p.Valid() && Run(p, w, events)
    decreases |events|
  {
    if events == [] then [] else Used(w, events[0]) + Uses(p, Step(p, w, events[0]), events[1..])
  }

  /** The answers they get, in that order. */
  function Answers(p: Policy, w: World, events: seq<Event>): (r: seq<Taken>)
    requires p.Valid() && Run(p, w, events)
    ensures |r| == |Uses(p, w, events)|
    decreases |events|
  {
    if events == [] then []
    else
      var e := events[0];
      (if e.Finish? then [Got(p, w, e.call, e.taken)] else []) + Answers(p, Step(p, w, e), events[1..])
  }

  /** The private limiters of the run are those fed the calls that have used their buckets; the others
      are still full. */
  predicate Beside(p: Policy, w: World, used: seq<Call>)
    requires p.Valid()
  {
    var q := PrivateAfter(p, used);
    && q.Keys <= w.q.Keys
    && forall key :: key in w.q ==> if key in q then w.q[key] == q[key] else w.q[key].tokens == p.limits.burst as real
  }

  lemma LookupStaysBeside(p: Policy, w: World, used: seq<Call>, e: Event)
    requires p.Valid() && Beside(p, w, used) && Legal(w.m, e) && !e.Finish?
    ensures Beside(p, Step(p, w, e), used)
  {
  }

  /** A limiter that was never used is a new one, whenever it was made. */
  lemma UseStaysBeside(p: Policy, w: World, used: seq<Call>, call: nat, taken: int)
    requires p.Valid() && Inv(p, w) && Beside(p, w, used) && Legal(w.m, Finish(call, taken))
    ensures var e := Finish(call, taken);
      var c := Used(w, e)[0];
      && Wanted(p, w, call, taken) == PrivateAnswer(p, used, c)
      && Beside(p, Step(p, w, e), used + [c])
  {
    var c := Used(w, Finish(call, taken))[0];
    NewIsFull(p.limits, w.q[c.key].last, taken);
    NewIsFull(p.limits, taken, taken);
    AfterOneMore(p, 0, used, c);
  }

  predicate SameAnswer(got: Taken, want: Taken) {
    got.ok == want.ok && got.retry == want.retry
  }

  /** One by one, the private limiters' answers. */
  predicate AllPrivate(p: Policy, used: seq<Call>, uses: seq<Call>, answers: seq<Taken>)
    requires p.Valid() && |answers| == |uses|
    decreases |uses|
  {
    uses != [] ==>
      && SameAnswer(answers[0], PrivateAnswer(p, used, uses[0]))
      && AllPrivate(p, used + [uses[0]], uses[1..], answers[1..])
  }

  lemma {:induction false} RunIsPrivate(p: Policy, w: World, used: seq<Call>, events: seq<Event>)
    requires p.Valid() && Inv(p, w) && Beside(p, w, used) && Run(p, w, events) && HarmlessRun(p, w, events)
    ensures AllPrivate(p, used, Uses(p, w, events), Answers(p, w, events))
    decreases |events|
  {
    if events != [] {
      var e, w' := events[0], Step(p, w, events[0]);
      HarmlessKeepsInv(p, w, e);
      if e.Finish? {
        UseStaysBeside(p, w, used, e.call, e.taken);
        RunIsPrivate(p, w', used + Used(w, e), events[1..]);
        FirstUse(p, w, events);
      } else {
        LookupStaysBeside(p, w, used, e);
        RunIsPrivate(p, w', used, events[1..]);
        NoUse(p, w, events);
      }
    }
  }

  lemma FirstUse(p: Policy, w: World, events: seq<Event>)
    requires p.Valid() && Run(p, w, events) && events != [] && events[0].Finish?
    ensures var e, w' := events[0], Step(p, w, events[0]);
      && Uses(p, w, events)[0] == Used(w, e)[0] && Used(w, e) == [Used(w, e)[0]]
      && Uses(p, w, events)[1..] == Uses(p, w', events[1..])
      && Answers(p, w, events)[0] == Got(p, w, e.call, e.taken)
      && Answers(p, w, events)[1..] == Answers(p, w', events[1..])
  {
  }

  lemma NoUse(p: Policy, w: World, events: seq<Event>)
    requires p.Valid() && Run(p, w, events) && events != [] && !events[0].Finish?
    ensures var w' := Step(p, w, events[0]);
      && Uses(p, w, events) == Uses(p, w', events[1..]) && Answers(p, w, events) == Answers(p, w', events[1..])
  {
    var w' := Step(p, w, events[0]);
    assert [] + Uses(p, w', events[1..]) == Uses(p, w', events[1..]);
    assert [] + Answers(p, w', events[1..]) == Answers(p, w', events[1..]);
  }

  lemma {:induction false} PrivateAt(p: Policy, used: seq<Call>, uses: seq<Call>, answers: seq<Taken>, j: nat)
    requires p.Valid() && |answers| == |uses| && AllPrivate(p, used, uses, answers) && j < |uses|
    ensures SameAnswer(answers[j], PrivateAnswer(p, used + uses[..j], uses[j]))
    decreases j
  {
    if j == 0 {
      assert used + uses[..0] == used;
    } else {
      PrivateAt(p, used + [uses[0]], uses[1..], answers[1..], j - 1);
      assert used + [uses[0]] + uses[1..][..j - 1] == used + uses[..j];
    }
  }

  /** Whatever the clock does, the answers of a harmless run are the private limiters' answers to the
      calls in the order in which they use their buckets. */
  lemma AnswersArePrivate(p: Policy, made: int, events: seq<Event>, j: nat)
    requires p.Valid() && Run(p, Start(made), events) && HarmlessRun(p, Start(made), events)
    requires j < |Uses(p, Start(made), events)|
    ensures var uses := Uses(p, Start(made), events);
      SameAnswer(Answers(p, Start(made), events)[j], PrivateAnswer(p, uses[..j], uses[j]))
  {
    var uses := Uses(p, Start(made), events);
    StartKeepsInv(p, made);
    RunIsPrivate(p, Start(made), [], events);
    PrivateAt(p, [], uses, Answers(p, Start(made), events), j);
    assert [] + uses[..j] == uses[..j];
  }

  lemma EarlierStart(start: int, later: int, calls: seq<Call>)
    requires Ordered(later, calls) && start <= later
    ensures Ordered(start, calls)
  {
  }

  lemma OrderedAfter(start: int, c: Call, calls: seq<Call>)
    requires Ordered(c.taken, calls) && start <= c.now <= c.made <= c.taken
    ensures Ordered(start, [c] + calls)
  {
  }

  /** With a clock that never steps back, the uses come in order. */
  lemma {:induction false} UsesAreOrdered(p: Policy, w: World, events: seq<Event>)
    requires p.Valid() && Run(p, w, events) && RunInOrder(p, w, events)
    ensures Ordered(w.clock, Uses(p, w, events))
    decreases |events|
  {
    if events != [] {
      var e, w' := events[0], Step(p, w, events[0]);
      UsesAreOrdered(p, w', events[1..]);
      if e.Finish? {
        OrderedAfter(w.clock, Used(w, e)[0], Uses(p, w', events[1..]));
      } else {
        EarlierStart(w.clock, w'.clock, Uses(p, w', events[1..]));
        NoUse(p, w, events);
      }
    }
  }

  lemma InOrderIsTimely(p: Policy, made: int, events: seq<Event>)
    requires p.Valid() && Run(p, Start(made), events) && RunInOrder(p, Start(made), events)
    ensures Timely(p, made, Uses(p, Start(made), events))
  {
    UsesAreOrdered(p, Start(made), events);
    OrderedIsTimely(p, made, Uses(p, Start(made), events));
  }

  /** And, if no use is at a reading before that of the last sweep, those of the table, called as a
      whole: what overlaps harmlessly may be taken one call at a time. */
  lemma OverlappingIsLinear(p: Policy, made: int, events: seq<Event>, j: nat)
    requires p.Valid() && Run(p, Start(made), events) && HarmlessRun(p, Start(made), events)
    requires var uses := Uses(p, Start(made), events); j < |uses| && Timely(p, made, uses)
    ensures var uses := Uses(p, Start(made), events);
      SameAnswer(Answers(p, Start(made), events)[j], Answer(p, TableAfter(p, made, uses[..j]), uses[j]))
  {
    AnswersArePrivate(p, made, events, j);
    EvictionIsExact(p, made, Uses(p, Start(made), events), j);
  }

  /** So in the service: when the calls of the per-caller limit overlap harmlessly, each gets the answer
      that the issuance machine gives it as one turn, at the moment it uses its bucket. */
  lemma {:induction false} OverlappingCallersAreTurns(cfg: Issuance.Config, began: Issuance.Began,
                                                      turns: seq<Issuance.Played>, events: seq<Event>, i: nat)
    requires cfg.Valid() && cfg.callers.Some?
    requires Run(cfg.callers.value, Start(began.callers), events)
    requires HarmlessRun(cfg.callers.value, Start(began.callers), events)
    requires var t := Issuance.Run(cfg, Issuance.Start(cfg, began), turns).trace;
      && i < |t| && t[i].CallerLimit?
      && Issuance.CallerCalls(t) == Uses(cfg.callers.value, Start(began.callers), events)
      && Timely(cfg.callers.value, began.callers, Issuance.CallerCalls(t))
    ensures var t := Issuance.Run(cfg, Issuance.Start(cfg, began), turns).trace;
      var j, answers := |Issuance.CallerCalls(t[..i])|, Answers(cfg.callers.value, Start(began.callers), events);
      && j < |answers| && t[i].ok == answers[j].ok && t[i].retry == answers[j].retry
  {
    var t := Issuance.Run(cfg, Issuance.Start(cfg, began), turns).trace;
    IssuanceRates.CallsHold(t, i);
    IssuanceRates.CallersAreLimitedPrivately(cfg, began, turns, i);
    AnswersArePrivate(cfg.callers.value, began.callers, events, |Issuance.CallerCalls(t[..i])|);
  }
}
