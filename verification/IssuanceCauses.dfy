/** Why a request ends as it does: what its own turns met outside, the backend's answer and the
    append's fate, decides between a credential, "not implemented" and an internal error. */
module IssuanceCauses {
  import Adcs
  import opened Issuance
  import opened IssuanceRuns
  import Mapping
  import opened Options
  import opened RecordFile
  import opened Wstep

  // ---------------------------------------------------------------- what a turn can meet

  /** The backend says that it cannot do this yet. */
  predicate Declines(cfg: Config, env: Env) {
    cfg.backend.Subordinate? || (cfg.backend.Other? && env.answer.NotImplemented?)
  }

  /** The backend fails, or returns a credential without its certificate. */
  predicate Fails(cfg: Config, r: Adcs.Request, env: Env) {
    match cfg.backend
    case ByAdcs(b) => Adcs.Answer(b, r, cfg.spiffe, env.ca).None?
    case Subordinate => false
    case Other(_) => env.answer.Failed? || (env.answer.Minted? && env.answer.certificate.None?)
  }

  /** The backend returns this credential. */
  predicate Mints(cfg: Config, r: Adcs.Request, env: Env, c: Credential) {
    match cfg.backend
    case ByAdcs(b) => Adcs.Answer(b, r, cfg.spiffe, env.ca) == Some(c)
    case Subordinate => false
    case Other(_) => env.answer == Minted(Some(c.certificate), c.chain)
  }

  /** All of the line reached the file, and the sync succeeded. */
  predicate Complete(a: Append) {
    a.wrote == |a.row| + 1 && a.synced
  }

  /** The append went as the turn met it: the row has the turn's time, and no more was written than the
      turn let through. */
  predicate WrittenIn(cfg: Config, env: Env, e: Event)
    requires e.Recording?
  {
    && e.row.time == env.time && e.append.row == cfg.encode(e.row)
    && e.append.wrote == (if env.wrote < |e.append.row| + 1 then env.wrote else |e.append.row| + 1)
    && e.append.synced == env.synced
  }

  // ---------------------------------------------------------------- causes

  ghost predicate MintedIn(cfg: Config, envs: seq<Env>, m: Minting) {
    exists env :: env in envs && Mints(cfg, m.request, env, m.credential)
  }

  ghost predicate DeclinedIn(cfg: Config, envs: seq<Env>) {
    exists env :: env in envs && Declines(cfg, env)
  }

  /** The backend failed when it was called for this very request. */
  ghost predicate FailedIn(cfg: Config, envs: seq<Env>, trace: seq<Event>, id: Id) {
    exists env, e :: env in envs && e in trace && e.id == id && e.Calling? && Fails(cfg, e.request, env)
  }

  /** The request's row was cut short, or its sync failed. */
  ghost predicate RowLost(trace: seq<Event>, id: Id) {
    exists e :: e in trace && e.id == id && e.Recording? && !Complete(e.append)
  }

  /** Why a request is where it is. */
  ghost predicate Caused(cfg: Config, envs: seq<Env>, trace: seq<Event>, id: Id, phase: Phase) {
    match phase
    case Held(m) => MintedIn(cfg, envs, m)
    case Booked(m, _) => MintedIn(cfg, envs, m)
    case Done(Delivered(c)) => exists m: Minting :: m.credential == c && MintedIn(cfg, envs, m)
    case Done(Refused(reason, _)) =>
      && (reason == NotYet ==> DeclinedIn(cfg, envs))
      && (reason == Internal ==> FailedIn(cfg, envs, trace, id) || RowLost(trace, id))
    case _ => true
  }

  /** Why an effect is what it is. */
  ghost predicate EventCaused(cfg: Config, envs: seq<Env>, e: Event) {
    match e
    case TotalLimit(_, _, at, _, _) => exists env :: env in envs && env.at == at
    case Recording(_, m, _, _) => MintedIn(cfg, envs, m) && exists env :: env in envs && WrittenIn(cfg, env, e)
    case Delivering(_, m, _) => MintedIn(cfg, envs, m)
    case _ => true
  }

  // ---------------------------------------------------------------- one turn

  /** Since `base`, the turn from `s` to `t` has its cause among `envs`. */
  ghost predicate TurnCaused(cfg: Config, s: State, t: State, id: Id, envs: seq<Env>, base: nat) {
    && s.trace <= t.trace && base <= |s.trace| && |t.trace| <= |s.trace| + 1
    && id in t.requests && Caused(cfg, envs, t.trace[base..], id, t.requests[id])
    && (|t.trace| > |s.trace| ==> t.trace[|s.trace|].id == id && EventCaused(cfg, envs, t.trace[|s.trace|]))
  }

  lemma ArrivalIsCaused(cfg: Config, s: State, id: Id, env: Env, envs: seq<Env>, base: nat)
    requires cfg.Valid() && base <= |s.trace|
    ensures TurnCaused(cfg, s, Arrive(cfg, s, id, env), id, envs, base)
  {
  }

  lemma CheckIsCaused(cfg: Config, s: State, id: Id, ask: Ask, account: Mapping.Account, envs: seq<Env>, base: nat)
    requires base <= |s.trace|
    ensures TurnCaused(cfg, s, Check(cfg, s, id, ask, account), id, envs, base)
  {
  }

  lemma PayIsCaused(cfg: Config, s: State, id: Id, env: Env, request: Adcs.Request, envs: seq<Env>, base: nat)
    requires cfg.Valid() && base <= |s.trace| && env in envs
    ensures TurnCaused(cfg, s, Pay(cfg, s, id, request, env.at), id, envs, base)
  {
  }

  /** What the backend's answer leads to, case by case. */
  lemma AnswerCauses(cfg: Config, request: Adcs.Request, env: Env, heard: Option<Credential>)
    ensures match AfterAnswer(request, heard, Answered(cfg, request, env))
            case Held(m) => m.request == request && Mints(cfg, request, env, m.credential)
            case Done(Refused(reason, _)) =>
              || (reason == NotYet && Declines(cfg, env))
              || (reason == Internal && Fails(cfg, request, env))
            case _ => false
  {
  }

  lemma AnswerIsCaused(cfg: Config, s: State, id: Id, env: Env, request: Adcs.Request, envs: seq<Env>, base: nat)
    requires base <= |s.trace| && env in envs
    ensures TurnCaused(cfg, s, CallBackend(cfg, s, id, request, env), id, envs, base)
  {
    var heard := Heard(cfg, request, env);
    var phase := AfterAnswer(request, heard, Answered(cfg, request, env));
    AnswerCauses(cfg, request, env, heard);
    CalledIsCaused(cfg, s, id, env, request, heard, phase, envs, base);
  }

  lemma CalledIsCaused(cfg: Config, s: State, id: Id, env: Env, request: Adcs.Request, heard: Option<Credential>,
                       phase: Phase, envs: seq<Env>, base: nat)
    requires base <= |s.trace| && env in envs
    requires match phase
             case Held(m) => m.request == request && Mints(cfg, request, env, m.credential)
             case Done(Refused(reason, _)) =>
               || (reason == NotYet && Declines(cfg, env))
               || (reason == Internal && Fails(cfg, request, env))
             case _ => false
    ensures TurnCaused(cfg, s, Move(s, id, phase, [Calling(id, request, heard)]), id, envs, base)
  {
    var e := Calling(id, request, heard);
    assert e in (s.trace + [e])[base..] by {
      assert (s.trace + [e])[base..][|s.trace| - base] == e;
    }
  }

  lemma KeptIsCaused(cfg: Config, s: State, id: Id, env: Env, m: Minting, row: Row, a: Append,
                     envs: seq<Env>, base: nat)
    requires base <= |s.trace| && env in envs && MintedIn(cfg, envs, m) && a.wrote <= |Line(a.row)|
    requires WrittenIn(cfg, env, Recording(id, m, row, a))
    ensures TurnCaused(cfg, s, Kept(s, id, m, row, a), id, envs, base)
  {
    var e := Recording(id, m, row, a);
    assert e in (s.trace + [e])[base..] by {
      assert (s.trace + [e])[base..][|s.trace| - base] == e;
    }
  }

  lemma BookIsCaused(cfg: Config, s: State, id: Id, env: Env, m: Minting, envs: seq<Env>, base: nat)
    requires base <= |s.trace| && env in envs && MintedIn(cfg, envs, m)
    ensures TurnCaused(cfg, s, Book(cfg, s, id, m, env), id, envs, base)
  {
    var row := RowOf(cfg, m.request, m.credential.certificate, env.time);
    KeptIsCaused(cfg, s, id, env, m, row, Appended(cfg, row, env), envs, base);
  }

  lemma DeliveryIsCaused(cfg: Config, s: State, id: Id, m: Minting, row: Row, envs: seq<Env>, base: nat)
    requires base <= |s.trace| && MintedIn(cfg, envs, m)
    ensures TurnCaused(cfg, s, Deliver(s, id, m, row), id, envs, base)
  {
  }

  lemma TurnIsCaused(cfg: Config, s: State, id: Id, env: Env, envs: seq<Env>, base: nat)
    requires cfg.Valid() && env in envs && base <= |s.trace|
    requires id in s.requests ==> Caused(cfg, envs, s.trace[base..], id, s.requests[id])
    ensures TurnCaused(cfg, s, Turn(cfg, s, id, env), id, envs, base)
  {
    if id !in s.requests {
      ArrivalIsCaused(cfg, s, id, env, envs, base);
    } else {
      match s.requests[id]
      case Arrived(_) =>
      case Resolved(ask, account) => CheckIsCaused(cfg, s, id, ask, account, envs, base);
      case Checked(request) => PayIsCaused(cfg, s, id, env, request, envs, base);
      case Paid(request) => AnswerIsCaused(cfg, s, id, env, request, envs, base);
      case Held(m) => BookIsCaused(cfg, s, id, env, m, envs, base);
      case Booked(m, row) => DeliveryIsCaused(cfg, s, id, m, row, envs, base);
      case Done(_) =>
    }
  }

  // ---------------------------------------------------------------- runs

  /** What the request's own turns met. */
  function OwnEnvs(turns: seq<Played>, id: Id): seq<Env> {
    if turns == [] then []
    else
      var last := turns[|turns| - 1];
      OwnEnvs(turns[..|turns| - 1], id) + (if last.id == id then [last.env] else [])
  }

  lemma {:induction false} OwnEnvIsATurn(turns: seq<Played>, id: Id, env: Env) returns (k: nat)
    requires env in OwnEnvs(turns, id)
    ensures k < |turns| && turns[k].id == id && turns[k].env == env
  {
    var init, last := turns[..|turns| - 1], turns[|turns| - 1];
    if env in OwnEnvs(init, id) {
      k := OwnEnvIsATurn(init, id, env);
    } else {
      k := |turns| - 1;
    }
  }

  lemma OwnEnvsMore(turns: seq<Played>, last: Played, id: Id)
    ensures OwnEnvs(turns + [last], id) == OwnEnvs(turns, id) + (if last.id == id then [last.env] else [])
  {
    assert (turns + [last])[..|turns|] == turns;
  }

  /** More turns and more effects take no cause away. */
  lemma StillCaused(cfg: Config, envs: seq<Env>, more: seq<Env>, trace: seq<Event>, longer: seq<Event>, id: Id,
                    phase: Phase)
    requires Caused(cfg, envs, trace, id, phase) && (forall e :: e in trace ==> e in longer)
    ensures Caused(cfg, envs + more, longer, id, phase)
  {
    assert forall env :: env in envs ==> env in envs + more;
    if phase.Done? && phase.outcome.Delivered? {
      var m: Minting :| m.credential == phase.outcome.credential && MintedIn(cfg, envs, m);
      assert MintedIn(cfg, envs + more, m);
    }
  }

  lemma EventStillCaused(cfg: Config, envs: seq<Env>, more: seq<Env>, e: Event)
    requires EventCaused(cfg, envs, e)
    ensures EventCaused(cfg, envs + more, e)
  {
    assert forall env :: env in envs ==> env in envs + more;
  }

  ghost predicate AllCaused(cfg: Config, turns: seq<Played>, s: State) {
    && (forall e :: e in s.trace ==> EventCaused(cfg, OwnEnvs(turns, e.id), e))
    && (forall id :: id in s.requests ==> Caused(cfg, OwnEnvs(turns, id), s.trace, id, s.requests[id]))
  }

  lemma OneMoreTurn(cfg: Config, turns: seq<Played>, last: Played, s: State)
    requires cfg.Valid() && AllCaused(cfg, turns, s)
    ensures AllCaused(cfg, turns + [last], Turn(cfg, s, last.id, last.env))
  {
    var t, all := Turn(cfg, s, last.id, last.env), turns + [last];
    var envs := OwnEnvs(all, last.id);
    OwnEnvsMore(turns, last, last.id);
    assert s.trace[0..] == s.trace && t.trace[0..] == t.trace;
    if last.id in s.requests {
      StillCaused(cfg, OwnEnvs(turns, last.id), [last.env], s.trace, s.trace, last.id, s.requests[last.id]);
    }
    TurnIsCaused(cfg, s, last.id, last.env, envs, 0);
    forall e | e in t.trace
      ensures EventCaused(cfg, OwnEnvs(all, e.id), e)
    {
      if e in s.trace {
        OwnEnvsMore(turns, last, e.id);
        EventStillCaused(cfg, OwnEnvs(turns, e.id), if last.id == e.id then [last.env] else [], e);
      } else {
        assert e == t.trace[|s.trace|];
      }
    }
    TurnCounts(cfg, s, last.id, last.env);
    forall id | id in t.requests
      ensures Caused(cfg, OwnEnvs(all, id), t.trace, id, t.requests[id])
    {
      if id != last.id {
        OtherStaysCaused(cfg, turns, last, s, t, id);
      }
    }
  }

  lemma OtherStaysCaused(cfg: Config, turns: seq<Played>, last: Played, s: State, t: State, id: Id)
    requires AllCaused(cfg, turns, s) && s.trace <= t.trace && id != last.id && id in t.requests
    requires t.requests - {last.id} == s.requests - {last.id}
    ensures Caused(cfg, OwnEnvs(turns + [last], id), t.trace, id, t.requests[id])
  {
    assert id in t.requests - {last.id} && (t.requests - {last.id})[id] == (s.requests - {last.id})[id];
    OwnEnvsMore(turns, last, id);
    StillCaused(cfg, OwnEnvs(turns, id), [], s.trace, t.trace, id, s.requests[id]);
    assert OwnEnvs(turns, id) + [] == OwnEnvs(turns, id);
  }

  lemma {:induction false} RunIsCaused(cfg: Config, began: Began, turns: seq<Played>)
    requires cfg.Valid()
    ensures AllCaused(cfg, turns, Run(cfg, Start(cfg, began), turns))
  {
    if turns != [] {
      var init, last := turns[..|turns| - 1], turns[|turns| - 1];
      RunIsCaused(cfg, began, init);
      assert turns == init + [last];
      OneMoreTurn(cfg, init, last, Run(cfg, Start(cfg, began), init));
    }
  }

  /** In every run: a request ends "not implemented" only if in one of its own turns the backend said
      so, and with an internal error only if in one of its own turns the backend failed or came without
      a certificate when called for it, or its row was cut short or not synced. */
  lemma ReasonsHaveCauses(cfg: Config, began: Began, turns: seq<Played>, id: Id)
    requires cfg.Valid() && WasRefused(Run(cfg, Start(cfg, began), turns), id)
    ensures var reason := Run(cfg, Start(cfg, began), turns).requests[id].outcome.reason;
      && (reason == NotYet ==> exists k :: 0 <= k < |turns| && turns[k].id == id && Declines(cfg, turns[k].env))
      && (reason == Internal ==>
            || BackendFailed(cfg, turns, TraceOf(cfg, began, turns), id)
            || RowLost(TraceOf(cfg, began, turns), id))
  {
    RunIsCaused(cfg, began, turns);
    var s := Run(cfg, Start(cfg, began), turns);
    var envs := OwnEnvs(turns, id);
    assert Caused(cfg, envs, s.trace, id, s.requests[id]);
    if s.requests[id].outcome.reason == NotYet {
      var env :| env in envs && Declines(cfg, env);
      var k := OwnEnvIsATurn(turns, id, env);
    } else if s.requests[id].outcome.reason == Internal && !RowLost(s.trace, id) {
      var env, e :| env in envs && e in s.trace && e.id == id && e.Calling? && Fails(cfg, e.request, env);
      var k := OwnEnvIsATurn(turns, id, env);
    }
  }

  ghost predicate BackendFailed(cfg: Config, turns: seq<Played>, trace: seq<Event>, id: Id) {
    exists k, e :: 0 <= k < |turns| && turns[k].id == id && e in trace && e.id == id && e.Calling?
                   && Fails(cfg, e.request, turns[k].env)
  }

  /** So the subordinate backend never makes an internal error, nor adcs a "not implemented". */
  lemma BackendsRuleOutReasons(cfg: Config, began: Began, turns: seq<Played>, id: Id)
    requires cfg.Valid() && WasRefused(Run(cfg, Start(cfg, began), turns), id)
    ensures var reason := Run(cfg, Start(cfg, began), turns).requests[id].outcome.reason;
      (cfg.backend.Subordinate? ==> reason != Internal) && (cfg.backend.ByAdcs? ==> reason != NotYet)
  {
    ReasonsHaveCauses(cfg, began, turns, id);
    RunIsCaused(cfg, began, turns);
    if cfg.backend.Subordinate? {
      forall e | e in TraceOf(cfg, began, turns) && e.id == id
        ensures !e.Recording?
      {
        assert EventCaused(cfg, OwnEnvs(turns, id), e);
      }
    }
  }

  /** Every append goes as one of the request's own turns met it, with that turn's time on the row. */
  lemma RowsAreOfTheirTurn(cfg: Config, began: Began, turns: seq<Played>, e: Event)
    requires cfg.Valid() && e in TraceOf(cfg, began, turns) && e.Recording?
    ensures exists k :: 0 <= k < |turns| && turns[k].id == e.id && WrittenIn(cfg, turns[k].env, e)
  {
    RunIsCaused(cfg, began, turns);
    assert EventCaused(cfg, OwnEnvs(turns, e.id), e);
    var env :| env in OwnEnvs(turns, e.id) && WrittenIn(cfg, env, e);
    var k := OwnEnvIsATurn(turns, e.id, env);
  }

  /** Every delivered credential is what the backend returned in one of the request's own turns. */
  lemma DeliveredIsWhatTheBackendMinted(cfg: Config, began: Began, turns: seq<Played>, e: Event)
    requires cfg.Valid() && e in TraceOf(cfg, began, turns) && e.Delivering?
    ensures exists k :: 0 <= k < |turns| && turns[k].id == e.id
                        && Mints(cfg, e.minting.request, turns[k].env, e.minting.credential)
  {
    RunIsCaused(cfg, began, turns);
    assert EventCaused(cfg, OwnEnvs(turns, e.id), e);
    var env :| env in OwnEnvs(turns, e.id) && Mints(cfg, e.minting.request, env, e.minting.credential);
    var k := OwnEnvIsATurn(turns, e.id, env);
  }

  // ---------------------------------------------------------------- one request alone

  lemma {:induction false} ServedIsCaused(cfg: Config, s: State, id: Id, env: Env, base: nat)
    requires cfg.Valid() && base <= |s.trace|
    requires id in s.requests ==> Caused(cfg, [env], s.trace[base..], id, s.requests[id])
    ensures var t := Served(cfg, s, id, env);
      && s.trace <= t.trace && id in t.requests && Caused(cfg, [env], t.trace[base..], id, t.requests[id])
    decreases Left(s, id)
  {
    if Left(s, id) > 0 {
      TurnCounts(cfg, s, id, env);
      TurnIsCaused(cfg, s, id, env, [env], base);
      ServeOn(cfg, s, id, env);
      ServedIsCaused(cfg, Turn(cfg, s, id, env), id, env, base);
    }
  }
}
