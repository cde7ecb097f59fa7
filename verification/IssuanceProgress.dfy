/** How the machine's runs and the broker's Issue fit together: every request ends, and requests
    served one after the other are one of the machine's runs. */
module IssuanceProgress {
  import opened Issuance
  import opened IssuanceRates

  function TurnsOf(turns: seq<Played>, id: Id): nat {
    if turns == [] then 0
    else TurnsOf(turns[..|turns| - 1], id) + (if turns[|turns| - 1].id == id then 1 else 0)
  }

  /** Every request ends, in one outcome, after at most seven turns of its own, whatever the others
      do in between. */
  lemma {:induction false} EveryRequestEnds(cfg: Config, began: Began, turns: seq<Played>, id: Id)
    requires cfg.Valid()
    ensures var s := Run(cfg, Start(cfg, began), turns);
      && Left(s, id) <= (if TurnsOf(turns, id) <= TURNS then TURNS - TurnsOf(turns, id) else 0)
      && (TurnsOf(turns, id) >= TURNS ==> id in s.requests && s.requests[id].Done?)
  {
    if turns != [] {
      var last := turns[|turns| - 1];
      EveryRequestEnds(cfg, began, turns[..|turns| - 1], id);
      var s := Run(cfg, Start(cfg, began), turns[..|turns| - 1]);
      TurnCounts(cfg, s, last.id, last.env);
      OthersStay(s, Turn(cfg, s, last.id, last.env), last.id, id);
    }
  }

  lemma OthersStay(s: State, t: State, id: Id, other: Id)
    requires t.requests - {id} == s.requests - {id}
    ensures other != id ==> Left(t, other) == Left(s, other)
  {
    assert other != id ==> (other in s.requests <==> other in s.requests - {id});
    assert other != id ==> (other in t.requests <==> other in t.requests - {id});
  }

  // ---------------------------------------------------------------- requests one after the other

  function Repeated(id: Id, env: Env, n: nat): seq<Played> {
    if n == 0 then [] else [Played(id, env)] + Repeated(id, env, n - 1)
  }

  lemma {:induction false} RunSplits(cfg: Config, s: State, a: seq<Played>, b: seq<Played>)
    requires cfg.Valid()
    ensures Run(cfg, s, a + b) == Run(cfg, Run(cfg, s, a), b)
    decreases |b|
  {
    if b == [] {
      assert a + b == a;
    } else {
      var init := b[..|b| - 1];
      RunSplits(cfg, s, a, init);
      assert (a + b)[..|a + b| - 1] == a + init && (a + b)[|a + b| - 1] == b[|b| - 1];
    }
  }

  lemma RunStarts(cfg: Config, s: State, p: Played, rest: seq<Played>)
    requires cfg.Valid()
    ensures Run(cfg, s, [p] + rest) == Run(cfg, Turn(cfg, s, p.id, p.env), rest)
  {
    assert [p][..0] == [];
    RunSplits(cfg, s, [p], rest);
  }

  lemma RunAgain(cfg: Config, s: State, id: Id, env: Env, n: nat)
    requires cfg.Valid() && n > 0
    ensures Run(cfg, s, Repeated(id, env, n)) == Run(cfg, Turn(cfg, s, id, env), Repeated(id, env, n - 1))
  {
    RunStarts(cfg, s, Played(id, env), Repeated(id, env, n - 1));
  }

  /** One Issue is a run of the machine. */
  lemma {:induction false} ServedIsARun(cfg: Config, s: State, id: Id, env: Env, n: nat)
    requires cfg.Valid() && Left(s, id) <= n
    ensures Served(cfg, s, id, env) == Run(cfg, s, Repeated(id, env, n))
    decreases n
  {
    if n > 0 {
      TurnCounts(cfg, s, id, env);
      ServeOn(cfg, s, id, env);
      ServedIsARun(cfg, Turn(cfg, s, id, env), id, env, n - 1);
      RunAgain(cfg, s, id, env, n);
    }
  }

  /** Calls of Issue, one after the other; the i-th is request i. */
  ghost function Serial(cfg: Config, s: State, asks: seq<Env>): State
    requires cfg.Valid()
  {
    if asks == [] then s
    else Served(cfg, Serial(cfg, s, asks[..|asks| - 1]), |asks| - 1, asks[|asks| - 1])
  }

  function SerialTurns(asks: seq<Env>): seq<Played> {
    if asks == [] then []
    else SerialTurns(asks[..|asks| - 1]) + Repeated(|asks| - 1, asks[|asks| - 1], TURNS)
  }

  lemma {:induction false} SerialIsARun(cfg: Config, s: State, asks: seq<Env>)
    requires cfg.Valid()
    ensures Serial(cfg, s, asks) == Run(cfg, s, SerialTurns(asks))
  {
    if asks != [] {
      var init := asks[..|asks| - 1];
      SerialIsARun(cfg, s, init);
      ServedIsARun(cfg, Serial(cfg, s, init), |asks| - 1, asks[|asks| - 1], TURNS);
      RunSplits(cfg, s, SerialTurns(init), Repeated(|asks| - 1, asks[|asks| - 1], TURNS));
    }
  }

  lemma {:induction false} ServedEnds(cfg: Config, s: State, id: Id, env: Env)
    requires cfg.Valid()
    ensures var t := Served(cfg, s, id, env);
      && id in t.requests && t.requests[id].Done?
      && t.requests - {id} == s.requests - {id}
    decreases Left(s, id)
  {
    if Left(s, id) > 0 {
      TurnCounts(cfg, s, id, env);
      ServedEnds(cfg, Turn(cfg, s, id, env), id, env);
    }
  }

  predicate AllDone(s: State) {
    forall id :: id in s.requests ==> s.requests[id].Done?
  }

  lemma ServedToTheEnd(cfg: Config, s: State, id: Id, env: Env)
    requires cfg.Valid() && AllDone(s)
    ensures AllDone(Served(cfg, s, id, env))
  {
    ServedEnds(cfg, s, id, env);
    OthersDone(s, Served(cfg, s, id, env), id);
  }

  lemma OthersDone(s: State, t: State, id: Id)
    requires t.requests - {id} == s.requests - {id} && AllDone(s)
    requires id in t.requests && t.requests[id].Done?
    ensures AllDone(t)
  {
    forall other | other in t.requests && other != id
      ensures t.requests[other].Done?
    {
      assert (t.requests - {id})[other] == (s.requests - {id})[other];
    }
  }

  /** Served one after the other, requests leave nothing in flight: every one is done. */
  lemma {:induction false} SerialLeavesNoneWaiting(cfg: Config, began: Began, asks: seq<Env>)
    requires cfg.Valid()
    ensures var s := Serial(cfg, Start(cfg, began), asks);
      AllDone(s) && Waiting(s) == {}
  {
    if asks == [] {
      assert Serial(cfg, Start(cfg, began), asks).requests == map[];
    } else {
      SerialLeavesNoneWaiting(cfg, began, asks[..|asks| - 1]);
      ServedToTheEnd(cfg, Serial(cfg, Start(cfg, began), asks[..|asks| - 1]), |asks| - 1, asks[|asks| - 1]);
    }
  }

  lemma KeysAfter(cfg: Config, s: State, id: Id, env: Env, other: Id)
    requires cfg.Valid()
    ensures other in Served(cfg, s, id, env).requests <==> other in s.requests || other == id
  {
    ServedEnds(cfg, s, id, env);
    var t := Served(cfg, s, id, env);
    assert other != id ==> (other in s.requests - {id} <==> other in t.requests - {id});
  }

  /** Each was served under its own number. */
  lemma {:induction false} SerialServesEach(cfg: Config, began: Began, asks: seq<Env>, id: Id)
    requires cfg.Valid()
    ensures id in Serial(cfg, Start(cfg, began), asks).requests <==> id < |asks|
  {
    if asks != [] {
      var init := asks[..|asks| - 1];
      SerialServesEach(cfg, began, init, id);
      KeysAfter(cfg, Serial(cfg, Start(cfg, began), init), |asks| - 1, asks[|asks| - 1], id);
    }
  }

  /** So between any two of its calls, a broker serving one request at a time calls the backend at
      most burst + rate * time often. */
  lemma {:induction false} SerialCallsAreBounded(cfg: Config, began: Began, asks: seq<Env>, m: nat)
    requires cfg.Valid() && cfg.total.Some? && m <= |asks|
    ensures var s, t := Serial(cfg, Start(cfg, began), asks[..m]), Serial(cfg, Start(cfg, began), asks);
      Waiting(s) == {} && CallsBounded(cfg.total.value, s, t)
  {
    SerialLeavesNoneWaiting(cfg, began, asks[..m]);
    SerialIsMetered(cfg, began, asks[..m]);
    SerialIsMetered(cfg, began, asks);
    SerialReadingsGrow(cfg, began, asks, m);
    ConservedIsBounded(cfg.total.value, began.total,
                       Serial(cfg, Start(cfg, began), asks[..m]), Serial(cfg, Start(cfg, began), asks));
  }

  lemma SerialIsMetered(cfg: Config, began: Began, asks: seq<Env>)
    requires cfg.Valid() && cfg.total.Some?
    ensures var s := Serial(cfg, Start(cfg, began), asks); Metered(cfg.total.value, began.total, s) && Conserved(s)
  {
    SerialIsARun(cfg, Start(cfg, began), asks);
    RunIsMetered(cfg, began, SerialTurns(asks));
    TokensAreBackendCalls(cfg, began, SerialTurns(asks));
  }

  lemma {:induction false} SerialReadingsGrow(cfg: Config, began: Began, asks: seq<Env>, m: nat)
    requires cfg.Valid() && m <= |asks|
    ensures Readings(Serial(cfg, Start(cfg, began), asks[..m]).trace)
            <= Readings(Serial(cfg, Start(cfg, began), asks).trace)
  {
    SerialIsARun(cfg, Start(cfg, began), asks[..m]);
    SerialIsARun(cfg, Start(cfg, began), asks);
    SerialTurnsGrow(asks, m);
    var turns, k := SerialTurns(asks), |SerialTurns(asks[..m])|;
    assert turns[..k] == SerialTurns(asks[..m]);
    TraceGrows(cfg, Start(cfg, began), turns, k);
    ReadingsGrow(Run(cfg, Start(cfg, began), turns[..k]).trace, Run(cfg, Start(cfg, began), turns).trace);
  }

  lemma {:induction false} SerialTurnsGrow(asks: seq<Env>, m: nat)
    requires m <= |asks|
    ensures SerialTurns(asks[..m]) <= SerialTurns(asks)
    decreases |asks|
  {
    if m == |asks| {
      assert asks[..m] == asks;
    } else {
      assert asks[..|asks| - 1][..m] == asks[..m];
      SerialTurnsGrow(asks[..|asks| - 1], m);
    }
  }
}
