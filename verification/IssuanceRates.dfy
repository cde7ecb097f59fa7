/** The issuance machine's limits over whole runs: how often the backend is called, and what each
    caller's own limit answers. */
module IssuanceRates {
  import Adcs
  import Eviction
  import opened Issuance
  import opened KeyedLimiter
  import opened TokenBucket

  // ---------------------------------------------------------------- tokens and backend calls

  /** Every token taken was used for one backend call, or is held by a request about to make it. */
  ghost predicate Conserved(s: State) {
    Tokens(s.trace) == BackendCalls(s.trace) + |Waiting(s)|
  }

  /** One more effect, or none, in the projections of a trace. */
  lemma OneMore(trace: seq<Event>, effects: seq<Event>)
    requires |effects| <= 1
    ensures Readings(trace + effects)
            == if effects != [] && effects[0].TotalLimit? then Readings(trace) + [effects[0].at] else Readings(trace)
    ensures Tokens(trace + effects)
            == Tokens(trace) + (if effects != [] && effects[0].TotalLimit? && effects[0].ok then 1 else 0)
    ensures BackendCalls(trace + effects)
            == BackendCalls(trace) + (if effects != [] && effects[0].Calling? then 1 else 0)
    ensures CallerCalls(trace + effects)
            == if effects != [] && effects[0].CallerLimit? then CallerCalls(trace) + [effects[0].call]
               else CallerCalls(trace)
  {
    if effects == [] {
      assert trace + effects == trace;
    } else {
      assert (trace + effects)[..|trace|] == trace;
    }
  }

  lemma WaitingMoves(s: State, id: Id, phase: Phase, effects: seq<Event>)
    ensures var t := Move(s, id, phase, effects);
      |Waiting(t)| == |Waiting(s)| - (if id in Waiting(s) then 1 else 0) + (if phase.Paid? then 1 else 0)
  {
    var t := Move(s, id, phase, effects);
    assert Waiting(t) == if phase.Paid? then (Waiting(s) - {id}) + {id} else Waiting(s) - {id};
  }

  /** What one move does to both sides. */
  lemma {:induction false} MoveConserves(s: State, id: Id, phase: Phase, effects: seq<Event>)
    requires Conserved(s) && |effects| <= 1
    requires effects != [] && effects[0].TotalLimit? && effects[0].ok <==> phase.Paid?
    requires effects != [] && effects[0].Calling? <==> id in Waiting(s)
    ensures Conserved(Move(s, id, phase, effects))
  {
    OneMore(s.trace, effects);
    WaitingMoves(s, id, phase, effects);
  }

  lemma LimitedTurnConserves(cfg: Config, s: State, id: Id, env: Env)
    requires cfg.Valid() && Conserved(s)
    requires id in s.requests ==> s.requests[id].Checked?
    ensures Conserved(Turn(cfg, s, id, env))
  {
    var t := Turn(cfg, s, id, env);
    var u := s.(callers := t.callers, total := t.total);
    var effects := t.trace[|s.trace|..];
    assert t == Move(u, id, t.requests[id], effects);
    MoveConserves(u, id, t.requests[id], effects);
  }

  lemma OtherTurnConserves(cfg: Config, s: State, id: Id, env: Env)
    requires cfg.Valid() && Conserved(s) && id in s.requests && !s.requests[id].Checked? && !s.requests[id].Done?
    ensures Conserved(Turn(cfg, s, id, env))
  {
    var t := Turn(cfg, s, id, env);
    var effects := t.trace[|s.trace|..];
    var u := s.(file := t.file);
    assert t == Move(u, id, t.requests[id], effects);
    MoveConserves(u, id, t.requests[id], effects);
  }

  /** Backend calls and tokens correspond one to one: over any run, as many backend calls were made
      as tokens were taken, but for the requests that stand between the two. */
  lemma {:induction false} TokensAreBackendCalls(cfg: Config, began: Began, turns: seq<Played>)
    requires cfg.Valid()
    ensures Conserved(Run(cfg, Start(cfg, began), turns))
  {
    if turns == [] {
      assert Waiting(Start(cfg, began)) == {};
    } else {
      var last := turns[|turns| - 1];
      TokensAreBackendCalls(cfg, began, turns[..|turns| - 1]);
      var s := Run(cfg, Start(cfg, began), turns[..|turns| - 1]);
      if last.id !in s.requests || s.requests[last.id].Checked? {
        LimitedTurnConserves(cfg, s, last.id, last.env);
      } else if !s.requests[last.id].Done? {
        OtherTurnConserves(cfg, s, last.id, last.env);
      }
    }
  }

  // ---------------------------------------------------------------- the total limit

  /** The bucket is where the readings have brought it, and the tokens taken are its admissions. */
  ghost predicate Metered(l: Limits, now: int, s: State)
    requires l.Valid()
  {
    var b, times := Fresh(l, now), Readings(s.trace);
    s.total == After(l, b, times) && Tokens(s.trace) == Admitted(l, b, times, 0, |times|)
  }

  /** What was admitted before does not depend on what is asked later. */
  lemma {:induction false} AdmittedOfPrefix(l: Limits, b: Bucket, times: seq<int>, n: nat, j: nat)
    requires l.Valid() && j <= n <= |times|
    ensures Admitted(l, b, times[..n], 0, j) == Admitted(l, b, times, 0, j)
    decreases j
  {
    if j > 0 {
      AdmittedOfPrefix(l, b, times, n, j - 1);
      assert times[..n][..j - 1] == times[..j - 1];
    }
  }

  lemma PayIsMetered(cfg: Config, now: int, s: State, id: Id, request: Adcs.Request, at: int)
    requires cfg.Valid() && cfg.total.Some? && Metered(cfg.total.value, now, s)
    ensures Metered(cfg.total.value, now, Pay(cfg, s, id, request, at))
  {
    var l := cfg.total.value;
    var b, times := Fresh(l, now), Readings(s.trace);
    var got := Take(l, s.total, at);
    OneMore(s.trace, [TotalLimit(id, request, at, got.ok, got.retry)]);
    assert (times + [at])[..|times|] == times;
    AdmittedOfPrefix(l, b, times + [at], |times|, |times|);
  }

  /** A turn that does not pay leaves the total limit alone. */
  lemma OtherTurn(cfg: Config, s: State, id: Id, env: Env)
    requires cfg.Valid() && !(id in s.requests && s.requests[id].Checked?)
    ensures var t := Turn(cfg, s, id, env);
      && |s.trace| <= |t.trace| <= |s.trace| + 1 && t.trace == s.trace + t.trace[|s.trace|..]
      && (|t.trace| > |s.trace| ==> !t.trace[|s.trace|].TotalLimit?)
      && t.total == s.total
  {
  }

  lemma TurnIsMetered(cfg: Config, now: int, s: State, id: Id, env: Env)
    requires cfg.Valid() && cfg.total.Some? && Metered(cfg.total.value, now, s)
    ensures Metered(cfg.total.value, now, Turn(cfg, s, id, env))
  {
    if id in s.requests && s.requests[id].Checked? {
      PayIsMetered(cfg, now, s, id, s.requests[id].request, env.at);
    } else {
      OtherTurn(cfg, s, id, env);
      OneMore(s.trace, Turn(cfg, s, id, env).trace[|s.trace|..]);
    }
  }

  lemma {:induction false} RunIsMetered(cfg: Config, began: Began, turns: seq<Played>)
    requires cfg.Valid() && cfg.total.Some?
    ensures Metered(cfg.total.value, began.total, Run(cfg, Start(cfg, began), turns))
  {
    if turns != [] {
      var last := turns[|turns| - 1];
      RunIsMetered(cfg, began, turns[..|turns| - 1]);
      TurnIsMetered(cfg, began.total, Run(cfg, Start(cfg, began), turns[..|turns| - 1]), last.id, last.env);
    }
  }

  /** The answer the total limit gave is the bucket's. */
  predicate TotalAnsweredAt(l: Limits, now: int, before: seq<Event>, e: Event)
    requires l.Valid()
  {
    e.TotalLimit? ==>
      var got := Take(l, After(l, Fresh(l, now), Readings(before)), e.at);
      e.ok == got.ok && e.retry == got.retry
  }

  ghost predicate TotalAnswered(l: Limits, now: int, trace: seq<Event>)
    requires l.Valid()
  {
    forall i :: 0 <= i < |trace| ==> TotalAnsweredAt(l, now, trace[..i], trace[i])
  }

  lemma TotalAnsweredGrows(l: Limits, now: int, trace: seq<Event>, longer: seq<Event>)
    requires l.Valid() && TotalAnswered(l, now, trace) && trace <= longer && |longer| <= |trace| + 1
    requires |longer| > |trace| ==> TotalAnsweredAt(l, now, trace, longer[|trace|])
    ensures TotalAnswered(l, now, longer)
  {
    forall i | 0 <= i < |longer|
      ensures TotalAnsweredAt(l, now, longer[..i], longer[i])
    {
      if i < |trace| {
        assert longer[..i] == trace[..i];
      } else {
        assert longer[..i] == trace;
      }
    }
  }

  lemma TurnAnswersTotal(cfg: Config, now: int, s: State, id: Id, env: Env)
    requires cfg.Valid() && cfg.total.Some? && Metered(cfg.total.value, now, s)
    ensures var t := Turn(cfg, s, id, env);
      && s.trace <= t.trace && |t.trace| <= |s.trace| + 1
      && (|t.trace| > |s.trace| ==> TotalAnsweredAt(cfg.total.value, now, s.trace, t.trace[|s.trace|]))
  {
    if !(id in s.requests && s.requests[id].Checked?) {
      OtherTurn(cfg, s, id, env);
    }
  }

  lemma {:induction false} RunAnswersTotal(cfg: Config, began: Began, turns: seq<Played>)
    requires cfg.Valid() && cfg.total.Some?
    ensures TotalAnswered(cfg.total.value, began.total, Run(cfg, Start(cfg, began), turns).trace)
  {
    if turns != [] {
      var init, last := turns[..|turns| - 1], turns[|turns| - 1];
      RunAnswersTotal(cfg, began, init);
      RunIsMetered(cfg, began, init);
      var s := Run(cfg, Start(cfg, began), init);
      TurnAnswersTotal(cfg, began.total, s, last.id, last.env);
      TotalAnsweredGrows(cfg.total.value, began.total, s.trace, Turn(cfg, s, last.id, last.env).trace);
    }
  }

  lemma {:induction false} ReadingsHold(trace: seq<Event>, i: nat)
    requires i < |trace| && trace[i].TotalLimit?
    ensures var k := |Readings(trace[..i])|;
      k < |Readings(trace)| && Readings(trace)[k] == trace[i].at && Readings(trace)[..k] == Readings(trace[..i])
    decreases |trace|
  {
    if i < |trace| - 1 {
      assert trace[..|trace| - 1][..i] == trace[..i];
      ReadingsHold(trace[..|trace| - 1], i);
    }
  }

  /** The total limit refuses a request only for cause: if and only if one more backend call would put
      more than burst + rate * time into some window of the run's readings that ends with its own. */
  lemma TotalLimitRefusesForCause(cfg: Config, began: Began, turns: seq<Played>, i: nat)
    requires cfg.Valid() && cfg.total.Some?
    requires var t := Run(cfg, Start(cfg, began), turns).trace; i < |t| && t[i].TotalLimit? && Monotone(Readings(t))
    ensures var t := Run(cfg, Start(cfg, began), turns).trace;
      var times, k := Readings(t), |Readings(t[..i])|;
      && k < |times|
      && t[i].retry == Take(cfg.total.value, After(cfg.total.value, Fresh(cfg.total.value, began.total), times[..k]),
                            t[i].at).retry
      && (!t[i].ok <==>
          exists w: nat :: w <= k && WouldExceed(cfg.total.value, Fresh(cfg.total.value, began.total), times, w, k))
  {
    var t := Run(cfg, Start(cfg, began), turns).trace;
    RunAnswersTotal(cfg, began, turns);
    ReadingsHold(t, i);
    assert TotalAnsweredAt(cfg.total.value, began.total, t[..i], t[i]);
    RefusedIffBoundWouldBreak(cfg.total.value, began.total, Readings(t), |Readings(t[..i])|);
  }

  // ---------------------------------------------------------------- windows of a run

  /** A run's trace only grows. */
  lemma {:induction false} TraceGrows(cfg: Config, s: State, turns: seq<Played>, m: nat)
    requires cfg.Valid() && m <= |turns|
    ensures Run(cfg, s, turns[..m]).trace <= Run(cfg, s, turns).trace
    decreases |turns|
  {
    if m == |turns| {
      assert turns[..m] == turns;
    } else {
      var init, last := turns[..|turns| - 1], turns[|turns| - 1];
      TraceGrows(cfg, s, init, m);
      assert init[..m] == turns[..m];
      TurnGrows(cfg, Run(cfg, s, init), last.id, last.env);
    }
  }

  lemma TurnGrows(cfg: Config, s: State, id: Id, env: Env)
    requires cfg.Valid()
    ensures s.trace <= Turn(cfg, s, id, env).trace
  {
  }

  lemma {:induction false} ReadingsGrow(a: seq<Event>, b: seq<Event>)
    requires a <= b
    ensures Readings(a) <= Readings(b)
    decreases |b|
  {
    if a != b {
      assert a <= b[..|b| - 1];
      ReadingsGrow(a, b[..|b| - 1]);
    }
  }

  lemma TokensAreBounded(l: Limits, now: int, s: State, t: State)
    requires l.Valid() && Metered(l, now, s) && Metered(l, now, t) && Readings(s.trace) <= Readings(t.trace)
    ensures var i, times := |Readings(s.trace)|, Readings(t.trace);
      (Tokens(t.trace) - Tokens(s.trace)) as real
      <= if i == |times| then 0.0 else l.burst as real + Earned(l, Forward(times, i, |times| - 1))
  {
    var b, i, times := Fresh(l, now), |Readings(s.trace)|, Readings(t.trace);
    assert times[..i] == Readings(s.trace);
    AdmittedOfPrefix(l, b, times, i, i);
    AdmittedSplits(l, b, times, i, |times|);
    if i < |times| {
      AdmissionsAreBounded(l, b, times, i, |times| - 1);
    }
  }

  /** From `s` to `t` the backend was called no more often than the requests that already hold a
      token, the burst, and what the total limit earned between its first and its last reading in
      between allow. */
  ghost predicate CallsBounded(l: Limits, s: State, t: State) {
    var i, times := |Readings(s.trace)|, Readings(t.trace);
    && i <= |times|
    && (BackendCalls(t.trace) - BackendCalls(s.trace)) as real <= |Waiting(s)| as real
          + (if i == |times| then 0.0 else l.burst as real + Earned(l, Forward(times, i, |times| - 1)))
  }

  lemma ConservedIsBounded(l: Limits, now: int, s: State, t: State)
    requires l.Valid() && Metered(l, now, s) && Metered(l, now, t) && Readings(s.trace) <= Readings(t.trace)
    requires Conserved(s) && Conserved(t)
    ensures CallsBounded(l, s, t)
  {
    TokensAreBounded(l, now, s, t);
  }

  /** Between any two points of any run the backend is called no more often than that, whatever
      other turns are in flight, and even when the clock steps back. */
  lemma {:induction false} BackendCallsAreBounded(cfg: Config, began: Began, turns: seq<Played>, m: nat)
    requires cfg.Valid() && cfg.total.Some? && m <= |turns|
    ensures CallsBounded(cfg.total.value, Run(cfg, Start(cfg, began), turns[..m]), Run(cfg, Start(cfg, began), turns))
  {
    TraceGrows(cfg, Start(cfg, began), turns, m);
    ReadingsGrow(Run(cfg, Start(cfg, began), turns[..m]).trace, Run(cfg, Start(cfg, began), turns).trace);
    RunIsMetered(cfg, began, turns[..m]);
    RunIsMetered(cfg, began, turns);
    TokensAreBackendCalls(cfg, began, turns[..m]);
    TokensAreBackendCalls(cfg, began, turns);
    ConservedIsBounded(cfg.total.value, began.total,
                       Run(cfg, Start(cfg, began), turns[..m]), Run(cfg, Start(cfg, began), turns));
  }

  /** With a clock that never steps back, that is the burst and the rate times the time between the
      two readings. */
  lemma BoundInTime(l: Limits, s: State, t: State)
    requires CallsBounded(l, s, t) && |Readings(s.trace)| < |Readings(t.trace)| && Monotone(Readings(t.trace))
    ensures var i, times := |Readings(s.trace)|, Readings(t.trace);
      (BackendCalls(t.trace) - BackendCalls(s.trace)) as real
      <= |Waiting(s)| as real + l.burst as real + Earned(l, times[|times| - 1] - times[i])
  {
    ForwardIsElapsed(Readings(t.trace), |Readings(s.trace)|, |Readings(t.trace)| - 1);
  }

  // ---------------------------------------------------------------- the callers' limits

  /** The table is where the calls have brought it. */
  ghost predicate Tabled(p: Policy, now: int, s: State)
    requires p.Valid()
  {
    && s.callers == Eviction.TableAfter(p, now, CallerCalls(s.trace))
    && forall i :: 0 <= i < |s.trace| ==> AnsweredAt(p, now, s.trace[..i], s.trace[i])
  }

  /** The answer a call got is the table's. */
  predicate AnsweredAt(p: Policy, now: int, before: seq<Event>, e: Event)
    requires p.Valid()
  {
    e.CallerLimit? ==>
      var got := KeyedLimiter.Answer(p, Eviction.TableAfter(p, now, CallerCalls(before)), e.call);
      e.ok == got.ok && e.retry == got.retry
  }

  lemma {:induction false} MoveIsTabled(p: Policy, now: int, s: State, t: State, effects: seq<Event>)
    requires p.Valid() && Tabled(p, now, s) && |effects| <= 1 && t.trace == s.trace + effects
    requires if effects != [] && effects[0].CallerLimit?
             then t.callers == AfterCall(p, s.callers, effects[0].call) && AnsweredAt(p, now, s.trace, effects[0])
             else t.callers == s.callers
    ensures Tabled(p, now, t)
  {
    OneMore(s.trace, effects);
    if effects != [] && effects[0].CallerLimit? {
      Eviction.AfterOneMore(p, now, CallerCalls(s.trace), effects[0].call);
    }
    forall i | 0 <= i < |t.trace|
      ensures AnsweredAt(p, now, t.trace[..i], t.trace[i])
    {
      if i < |s.trace| {
        assert t.trace[..i] == s.trace[..i];
      } else {
        assert t.trace[..i] == s.trace;
      }
    }
  }

  lemma {:induction false} TurnIsTabled(cfg: Config, now: int, s: State, id: Id, env: Env)
    requires cfg.Valid() && cfg.callers.Some? && Tabled(cfg.callers.value, now, s)
    ensures Tabled(cfg.callers.value, now, Turn(cfg, s, id, env))
  {
    var t := Turn(cfg, s, id, env);
    if id in s.requests {
      LaterTurn(cfg, s, id, env);
    } else {
      ArrivalTurn(cfg, s, id, env);
    }
    MoveIsTabled(cfg.callers.value, now, s, t, t.trace[|s.trace|..]);
  }

  /** Only an arrival asks the caller's limit. */
  lemma LaterTurn(cfg: Config, s: State, id: Id, env: Env)
    requires cfg.Valid() && id in s.requests
    ensures var t := Turn(cfg, s, id, env);
      && |s.trace| <= |t.trace| <= |s.trace| + 1 && t.trace == s.trace + t.trace[|s.trace|..]
      && (|t.trace| > |s.trace| ==> !t.trace[|s.trace|].CallerLimit?)
      && t.callers == s.callers
  {
  }

  lemma ArrivalTurn(cfg: Config, s: State, id: Id, env: Env)
    requires cfg.Valid() && id !in s.requests && cfg.callers.Some?
    ensures var t := Turn(cfg, s, id, env);
      && |s.trace| <= |t.trace| <= |s.trace| + 1 && t.trace == s.trace + t.trace[|s.trace|..]
      && (if |t.trace| == |s.trace| then t.callers == s.callers
          else
            var e := t.trace[|s.trace|];
            && e.CallerLimit? && t.callers == AfterCall(cfg.callers.value, s.callers, e.call)
            && e.ok == KeyedLimiter.Answer(cfg.callers.value, s.callers, e.call).ok
            && e.retry == KeyedLimiter.Answer(cfg.callers.value, s.callers, e.call).retry)
  {
  }

  lemma {:induction false} RunIsTabled(cfg: Config, began: Began, turns: seq<Played>)
    requires cfg.Valid() && cfg.callers.Some?
    ensures Tabled(cfg.callers.value, began.callers, Run(cfg, Start(cfg, began), turns))
  {
    if turns != [] {
      var last := turns[|turns| - 1];
      RunIsTabled(cfg, began, turns[..|turns| - 1]);
      TurnIsTabled(cfg, began.callers, Run(cfg, Start(cfg, began), turns[..|turns| - 1]), last.id, last.env);
    }
  }

  lemma {:induction false} CallsHold(trace: seq<Event>, i: nat)
    requires i < |trace| && trace[i].CallerLimit?
    ensures var k := |CallerCalls(trace[..i])|;
      && k < |CallerCalls(trace)|
      && CallerCalls(trace)[k] == trace[i].call && CallerCalls(trace)[..k] == CallerCalls(trace[..i])
    decreases |trace|
  {
    if i < |trace| - 1 {
      assert trace[..|trace| - 1][..i] == trace[..i];
      CallsHold(trace[..|trace| - 1], i);
    }
  }

  /** In the whole service as in the table alone: with a clock that never steps back to before the last
      sweep, every answer of the per-caller limit is the one a private limiter, fed that caller's calls
      and never evicted, would have given - whatever other requests do in between. */
  lemma {:induction false} CallersAreLimitedPrivately(cfg: Config, began: Began, turns: seq<Played>, i: nat)
    requires cfg.Valid() && cfg.callers.Some?
    requires var t := Run(cfg, Start(cfg, began), turns).trace; i < |t| && t[i].CallerLimit?
    requires Eviction.Timely(cfg.callers.value, began.callers, CallerCalls(Run(cfg, Start(cfg, began), turns).trace))
    ensures var t := Run(cfg, Start(cfg, began), turns).trace;
      var want := Eviction.PrivateAnswer(cfg.callers.value, CallerCalls(t[..i]), t[i].call);
      t[i].ok == want.ok && t[i].retry == want.retry
  {
    var t := Run(cfg, Start(cfg, began), turns).trace;
    RunIsTabled(cfg, began, turns);
    CallsHold(t, i);
    assert AnsweredAt(cfg.callers.value, began.callers, t[..i], t[i]);
    Eviction.EvictionIsExact(cfg.callers.value, began.callers, CallerCalls(t), |CallerCalls(t[..i])|);
  }
}
