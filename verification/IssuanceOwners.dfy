/** Whose request it is: the turns of requests in flight may follow one another in any order, yet all
    that is done for a request, and its outcome, is what the ask that opened it deserves. */
module IssuanceOwners {
  import opened Adcs
  import opened Issuance
  import opened IssuanceRuns
  import Mapping
  import opened Options
  import RecordFile
  import opened Wstep

  /** The ask that opened the request: that of its first turn. */
  function AskOf(turns: seq<Played>, id: Id): Option<Ask> {
    if turns == [] then None
    else if turns[0].id == id then Some(turns[0].env.ask)
    else AskOf(turns[1..], id)
  }

  lemma {:induction false} AskOfMore(turns: seq<Played>, last: Played, id: Id)
    ensures AskOf(turns + [last], id)
            == if AskOf(turns, id).Some? then AskOf(turns, id)
               else if last.id == id then Some(last.env.ask) else None
  {
    if turns != [] {
      assert (turns + [last])[1..] == turns[1..] + [last];
      AskOfMore(turns[1..], last, id);
    } else {
      assert (turns + [last])[1..] == [];
    }
  }

  // ---------------------------------------------------------------- what an ask deserves

  /** The request the mapping allows for this ask: the caller's own ID and CSR, and nothing else from it. */
  predicate For(cfg: Config, ask: Ask, r: Request) {
    r.spiffeId == ask.caller && ask.csr == Some(r.csr) && Authorised(cfg, r)
  }

  predicate MintedFor(cfg: Config, ask: Ask, m: Minting) {
    For(cfg, ask, m.request) && Vouched(cfg, m)
  }

  predicate RecordedFor(cfg: Config, ask: Ask, m: Minting, row: Row) {
    MintedFor(cfg, ask, m) && row.caller == ask.caller && Describes(cfg, row, m.credential.certificate)
  }

  predicate Known(cfg: Config, ask: Ask) {
    cfg.spiffe(ask.caller) && Mapping.Lookup(cfg.registry, ask.caller).Some?
  }

  predicate Acceptable(cfg: Config, ask: Ask) {
    && Known(cfg, ask) && ask.csr.Some?
    && var account := Mapping.Lookup(cfg.registry, ask.caller).value;
      ValidRequest(Request(ask.csr.value, ask.caller, account.sid, account.name), cfg.spiffe)
  }

  /** A refusal for this reason is the ask's own doing, or none of it. */
  predicate Deserves(cfg: Config, ask: Ask, reason: Reason) {
    match reason
    case Unauthenticated => !cfg.spiffe(ask.caller)
    case NoMapping => cfg.spiffe(ask.caller) && !Known(cfg, ask)
    case InvalidRequest => Known(cfg, ask) && !Acceptable(cfg, ask)
    case RateLimited => cfg.spiffe(ask.caller)
    case NotYet => Acceptable(cfg, ask)
    case Internal => Acceptable(cfg, ask)
  }

  /** The outcome belongs to the ask. */
  ghost predicate Ends(cfg: Config, ask: Ask, outcome: Outcome) {
    match outcome
    case Refused(reason, _) => Deserves(cfg, ask, reason)
    case Delivered(c) =>
      Acceptable(cfg, ask) && exists m: Minting :: m.credential == c && MintedFor(cfg, ask, m)
  }

  /** The phase belongs to the ask. */
  ghost predicate Owned(cfg: Config, ask: Ask, phase: Phase) {
    match phase
    case Arrived(a) => a == ask && cfg.spiffe(ask.caller)
    case Resolved(a, account) =>
      a == ask && cfg.spiffe(ask.caller) && Mapping.Lookup(cfg.registry, ask.caller) == Some(account)
    case Checked(r) => For(cfg, ask, r) && Acceptable(cfg, ask)
    case Paid(r) => For(cfg, ask, r) && Acceptable(cfg, ask)
    case Held(m) => MintedFor(cfg, ask, m) && Acceptable(cfg, ask)
    case Booked(m, row) => RecordedFor(cfg, ask, m, row) && Acceptable(cfg, ask)
    case Done(outcome) => Ends(cfg, ask, outcome)
  }

  /** The effect belongs to the ask. */
  predicate DoneFor(cfg: Config, ask: Ask, e: Event) {
    match e
    case CallerLimit(_, call, _, _) => call.key == ask.caller
    case Parsing(_, caller) => caller == ask.caller && Known(cfg, ask)
    case TotalLimit(_, r, _, _, _) => For(cfg, ask, r)
    case Calling(_, r, _) => For(cfg, ask, r)
    case Recording(_, m, row, _) => RecordedFor(cfg, ask, m, row)
    case Delivering(_, m, row) => RecordedFor(cfg, ask, m, row)
  }

  // ---------------------------------------------------------------- one turn

  /** What a turn of request `id` from `s` to `t` does for the ask. */
  ghost predicate TurnFor(cfg: Config, s: State, t: State, id: Id, env: Env, ask: Ask) {
    && id in t.requests && Owned(cfg, ask, t.requests[id])
    && s.trace <= t.trace && |t.trace| <= |s.trace| + 1
    && (|t.trace| > |s.trace| ==>
          var e := t.trace[|s.trace|];
          e.id == id && DoneFor(cfg, ask, e) && (e.Calling? ==> e.heard == Heard(cfg, e.request, env)))
  }

  lemma ArrivalIsForItsAsk(cfg: Config, s: State, id: Id, env: Env)
    requires cfg.Valid()
    ensures TurnFor(cfg, s, Arrive(cfg, s, id, env), id, env, env.ask)
  {
  }

  lemma CheckIsForItsAsk(cfg: Config, s: State, id: Id, env: Env, ask: Ask, account: Mapping.Account)
    requires Owned(cfg, ask, Resolved(ask, account))
    ensures TurnFor(cfg, s, Check(cfg, s, id, ask, account), id, env, ask)
  {
  }

  lemma PayIsForItsAsk(cfg: Config, s: State, id: Id, env: Env, ask: Ask, request: Request)
    requires cfg.Valid() && Owned(cfg, ask, Checked(request))
    ensures TurnFor(cfg, s, Pay(cfg, s, id, request, env.at), id, env, ask)
  {
  }

  lemma AnswerIsForItsAsk(cfg: Config, s: State, id: Id, env: Env, ask: Ask, request: Request)
    requires Owned(cfg, ask, Paid(request))
    ensures TurnFor(cfg, s, CallBackend(cfg, s, id, request, env), id, env, ask)
  {
    AnswerIsVouched(cfg, request, env);
    var heard := Heard(cfg, request, env);
    AnswerIsOwned(cfg, ask, request, heard, Answered(cfg, request, env));
  }

  lemma AnswerIsOwned(cfg: Config, ask: Ask, request: Request, heard: Option<Credential>, answer: Answer)
    requires Owned(cfg, ask, Paid(request))
    requires answer.Minted? && answer.certificate.Some? ==>
               Vouched(cfg, Minting(request, heard, Credential(answer.certificate.value, answer.chain)))
    ensures Owned(cfg, ask, AfterAnswer(request, heard, answer))
  {
  }

  lemma RowIsForItsAsk(cfg: Config, ask: Ask, m: Minting, time: int)
    requires MintedFor(cfg, ask, m)
    ensures RecordedFor(cfg, ask, m, RowOf(cfg, m.request, m.credential.certificate, time))
  {
  }

  lemma KeptIsForItsAsk(cfg: Config, s: State, id: Id, env: Env, ask: Ask, m: Minting, row: Row, a: RecordFile.Append)
    requires Acceptable(cfg, ask) && RecordedFor(cfg, ask, m, row) && a.wrote <= |RecordFile.Line(a.row)|
    ensures TurnFor(cfg, s, Kept(s, id, m, row, a), id, env, ask)
  {
  }

  lemma BookIsForItsAsk(cfg: Config, s: State, id: Id, env: Env, ask: Ask, m: Minting)
    requires Owned(cfg, ask, Held(m))
    ensures TurnFor(cfg, s, Book(cfg, s, id, m, env), id, env, ask)
  {
    RowIsForItsAsk(cfg, ask, m, env.time);
    var row := RowOf(cfg, m.request, m.credential.certificate, env.time);
    KeptIsForItsAsk(cfg, s, id, env, ask, m, row, Appended(cfg, row, env));
  }

  lemma DeliveryIsForItsAsk(cfg: Config, s: State, id: Id, env: Env, ask: Ask, m: Minting, row: Row)
    requires Owned(cfg, ask, Booked(m, row))
    ensures TurnFor(cfg, s, Deliver(s, id, m, row), id, env, ask)
  {
  }

  /** A turn opens its request for the ask it brings; after that it heeds the opening ask alone. */
  lemma TurnIsForItsAsk(cfg: Config, s: State, id: Id, env: Env, ask: Ask)
    requires cfg.Valid()
    requires if id in s.requests then Owned(cfg, ask, s.requests[id]) else ask == env.ask
    ensures TurnFor(cfg, s, Turn(cfg, s, id, env), id, env, ask)
  {
    if id !in s.requests {
      ArrivalIsForItsAsk(cfg, s, id, env);
    } else {
      match s.requests[id]
      case Arrived(_) =>
      case Resolved(_, account) => CheckIsForItsAsk(cfg, s, id, env, ask, account);
      case Checked(request) => PayIsForItsAsk(cfg, s, id, env, ask, request);
      case Paid(request) => AnswerIsForItsAsk(cfg, s, id, env, ask, request);
      case Held(m) => BookIsForItsAsk(cfg, s, id, env, ask, m);
      case Booked(m, row) => DeliveryIsForItsAsk(cfg, s, id, env, ask, m, row);
      case Done(_) =>
    }
  }

  // ---------------------------------------------------------------- runs

  /** The reply on the event is what one of the request's own turns heard. */
  ghost predicate HeardBy(cfg: Config, turns: seq<Played>, e: Event) {
    e.Calling? ==> exists k :: 0 <= k < |turns| && turns[k].id == e.id && e.heard == Heard(cfg, e.request, turns[k].env)
  }

  ghost predicate EventIsFor(cfg: Config, turns: seq<Played>, e: Event) {
    AskOf(turns, e.id).Some? && DoneFor(cfg, AskOf(turns, e.id).value, e) && HeardBy(cfg, turns, e)
  }

  ghost predicate RequestIsFor(cfg: Config, turns: seq<Played>, s: State, id: Id) {
    if id in s.requests then AskOf(turns, id).Some? && Owned(cfg, AskOf(turns, id).value, s.requests[id])
    else AskOf(turns, id).None?
  }

  lemma EventStaysFor(cfg: Config, turns: seq<Played>, last: Played, e: Event)
    requires EventIsFor(cfg, turns, e)
    ensures EventIsFor(cfg, turns + [last], e)
  {
    AskOfMore(turns, last, e.id);
    if e.Calling? {
      var k :| 0 <= k < |turns| && turns[k].id == e.id && e.heard == Heard(cfg, e.request, turns[k].env);
      assert (turns + [last])[k] == turns[k];
    }
  }

  lemma RequestStaysFor(cfg: Config, turns: seq<Played>, last: Played, s: State, t: State, id: Id)
    requires id != last.id && t.requests - {last.id} == s.requests - {last.id} && RequestIsFor(cfg, turns, s, id)
    ensures RequestIsFor(cfg, turns + [last], t, id)
  {
    AskOfMore(turns, last, id);
    assert id in s.requests <==> id in s.requests - {last.id};
    assert id in t.requests <==> id in t.requests - {last.id};
  }

  lemma MoreEvents(cfg: Config, turns: seq<Played>, last: Played, s: State)
    requires cfg.Valid() && (forall e :: e in s.trace ==> EventIsFor(cfg, turns, e))
    requires RequestIsFor(cfg, turns, s, last.id)
    ensures forall e :: e in Turn(cfg, s, last.id, last.env).trace ==> EventIsFor(cfg, turns + [last], e)
    ensures RequestIsFor(cfg, turns + [last], Turn(cfg, s, last.id, last.env), last.id)
  {
    AskOfMore(turns, last, last.id);
    var t, ask := Turn(cfg, s, last.id, last.env), AskOf(turns + [last], last.id).value;
    TurnIsForItsAsk(cfg, s, last.id, last.env, ask);
    forall e | e in t.trace
      ensures EventIsFor(cfg, turns + [last], e)
    {
      if e in s.trace {
        EventStaysFor(cfg, turns, last, e);
      } else {
        assert e == t.trace[|s.trace|];
        assert (turns + [last])[|turns|] == last;
      }
    }
  }

  /** In every run every effect, and how far every request has come, belong to the ask that opened
      the request; and there are no other requests. */
  lemma {:induction false} EverythingIsForItsAsk(cfg: Config, began: Began, turns: seq<Played>)
    requires cfg.Valid()
    ensures forall e :: e in TraceOf(cfg, began, turns) ==> EventIsFor(cfg, turns, e)
    ensures forall id :: RequestIsFor(cfg, turns, Run(cfg, Start(cfg, began), turns), id)
  {
    if turns != [] {
      var init, last := turns[..|turns| - 1], turns[|turns| - 1];
      assert turns == init + [last];
      EverythingIsForItsAsk(cfg, began, init);
      var s := Run(cfg, Start(cfg, began), init);
      MoreEvents(cfg, init, last, s);
      TurnCounts(cfg, s, last.id, last.env);
      forall id
        ensures RequestIsFor(cfg, turns, Run(cfg, Start(cfg, began), turns), id)
      {
        if id != last.id {
          RequestStaysFor(cfg, init, last, s, Turn(cfg, s, last.id, last.env), id);
        }
      }
    }
  }

  lemma EventIsForItsAsk(cfg: Config, began: Began, turns: seq<Played>, e: Event)
    requires cfg.Valid() && e in TraceOf(cfg, began, turns)
    ensures EventIsFor(cfg, turns, e)
  {
    EverythingIsForItsAsk(cfg, began, turns);
  }

  /** Whatever arrives, the parser sees only CSRs of mapped callers, and the total limit and a backend
      only requests made of the opening ask's caller and CSR and of what the snapshot says of that
      caller, with proven possession. */
  lemma OnlyTheMappingDecides(cfg: Config, began: Began, turns: seq<Played>, e: Event)
    requires cfg.Valid() && e in TraceOf(cfg, began, turns)
    ensures AskOf(turns, e.id).Some?
    ensures var ask := AskOf(turns, e.id).value;
      && (e.Parsing? ==> e.caller == ask.caller && cfg.spiffe(ask.caller)
                         && Mapping.Lookup(cfg.registry, ask.caller).Some?)
      && (e.Calling? || e.TotalLimit? ==>
            && cfg.spiffe(ask.caller) && ask.csr == Some(e.request.csr) && e.request.csr.possession
            && e.request.spiffeId == ask.caller
            && Mapping.Lookup(cfg.registry, ask.caller) == Some(Mapping.Account(e.request.sid, e.request.account)))
  {
    EventIsForItsAsk(cfg, began, turns, e);
  }

  /** A request that ended was refused for what its own ask is, or ended in a credential minted for
      its own ask. */
  lemma OutcomeIsForItsAsk(cfg: Config, began: Began, turns: seq<Played>, id: Id)
    requires cfg.Valid()
    requires var s := Run(cfg, Start(cfg, began), turns); id in s.requests && s.requests[id].Done?
    ensures AskOf(turns, id).Some?
    ensures Ends(cfg, AskOf(turns, id).value, Run(cfg, Start(cfg, began), turns).requests[id].outcome)
  {
    EverythingIsForItsAsk(cfg, began, turns);
    assert RequestIsFor(cfg, turns, Run(cfg, Start(cfg, began), turns), id);
  }

  // ---------------------------------------------------------------- one request alone

  /** Serving one ask, from any state: all that is done is done for it. */
  lemma {:induction false} ServedIsForItsAsk(cfg: Config, s: State, id: Id, env: Env, ask: Ask)
    requires cfg.Valid()
    requires if id in s.requests then Owned(cfg, ask, s.requests[id]) else ask == env.ask
    ensures var t := Served(cfg, s, id, env);
      && id in t.requests && Owned(cfg, ask, t.requests[id]) && s.trace <= t.trace
      && forall k :: |s.trace| <= k < |t.trace| ==> t.trace[k].id == id && DoneFor(cfg, ask, t.trace[k])
    decreases Left(s, id)
  {
    if Left(s, id) > 0 {
      TurnCounts(cfg, s, id, env);
      TurnIsForItsAsk(cfg, s, id, env, ask);
      ServeOn(cfg, s, id, env);
      ServedIsForItsAsk(cfg, Turn(cfg, s, id, env), id, env, ask);
    }
  }
}
