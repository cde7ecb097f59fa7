/** What every run of the issuance machine keeps, whatever the turns' order, the backend, the CA
    and the record do. */
module IssuanceRuns {
  import opened Adcs
  import opened ByteStrings
  import opened Issuance
  import opened KeyedLimiter
  import Mapping
  import opened Options
  import opened RecordFile
  import TokenBucket
  import opened Wstep

  // ---------------------------------------------------------------- the invariant

  /** The effects of one request come in the order of their ranks, and each at most once. */
  ghost predicate InOrder(before: seq<Event>, e: Event) {
    forall f :: f in before && f.id == e.id ==> Rank(f) < Rank(e)
  }

  /** The caller's own limit, if there is one, let the request in. */
  ghost predicate LetIn(cfg: Config, before: seq<Event>, id: Id, caller: Bytes) {
    cfg.callers.Some? ==> exists call: Call, retry :: call.key == caller && CallerLimit(id, call, true, retry) in before
  }

  /** Every effect has its justification among the effects before it. */
  ghost predicate Justified(cfg: Config, before: seq<Event>, e: Event) {
    match e
    case CallerLimit(_, call, _, _) => cfg.spiffe(call.key)
    case Parsing(id, caller) =>
      cfg.spiffe(caller) && Mapping.Lookup(cfg.registry, caller).Some? && LetIn(cfg, before, id, caller)
    case TotalLimit(id, request, _, _, _) => Authorised(cfg, request) && Parsing(id, request.spiffeId) in before
    case Calling(id, request, _) =>
      Authorised(cfg, request) && exists at, r :: TotalLimit(id, request, at, true, r) in before
    case Recording(id, m, row, append) =>
      && Authorised(cfg, m.request) && Vouched(cfg, m)
      && Calling(id, m.request, m.heard) in before
      && row == RowOf(cfg, m.request, m.credential.certificate, row.time)
      && append.row == cfg.encode(row) && append.Valid()
    case Delivering(id, m, row) => exists a: Append :: a.Acknowledged() && Recording(id, m, row, a) in before
  }

  /** The last rank a request in this phase can have shown. */
  function Reached(phase: Phase): int {
    match phase
    case Arrived(_) => 0
    case Resolved(_, _) => 0
    case Checked(_) => 1
    case Paid(_) => 2
    case Held(_) => 3
    case Booked(_, _) => 4
    case Done(Delivered(_)) => 5
    case Done(Refused(reason, _)) => LastRank(reason)
  }

  /** The last effect of a request refused for this reason. */
  function LastRank(reason: Reason): int {
    match reason
    case Unauthenticated => -1
    case NoMapping => 0
    case InvalidRequest => 1
    case RateLimited => 2
    case NotYet => 3
    case Internal => 4
  }

  ghost predicate NotPast(trace: seq<Event>, id: Id, phase: Phase) {
    forall e :: e in trace && e.id == id ==> Rank(e) <= Reached(phase)
  }

  /** A limiter refused the request, and the caller's one gave this delay. */
  ghost predicate Limited(trace: seq<Event>, id: Id, retry: int) {
    || (exists call :: CallerLimit(id, call, false, retry) in trace)
    || (exists request, at :: TotalLimit(id, request, at, false, retry) in trace)
  }

  /** What a phase tells of the trace. */
  ghost predicate Backed(cfg: Config, trace: seq<Event>, id: Id, phase: Phase) {
    match phase
    case Arrived(ask) => cfg.spiffe(ask.caller) && LetIn(cfg, trace, id, ask.caller)
    case Resolved(ask, account) =>
      && cfg.spiffe(ask.caller) && LetIn(cfg, trace, id, ask.caller)
      && Mapping.Lookup(cfg.registry, ask.caller) == Some(account)
    case Checked(request) => Authorised(cfg, request) && Parsing(id, request.spiffeId) in trace
    case Paid(request) => Authorised(cfg, request) && exists at, r :: TotalLimit(id, request, at, true, r) in trace
    case Held(m) => Authorised(cfg, m.request) && Vouched(cfg, m) && Calling(id, m.request, m.heard) in trace
    case Booked(m, row) => exists a: Append :: a.Acknowledged() && Recording(id, m, row, a) in trace
    case Done(Refused(reason, retry)) =>
      if reason == RateLimited then retry >= TokenBucket.SECOND && Limited(trace, id, retry) else retry == 0
    case Done(Delivered(c)) => exists m: Minting, row :: m.credential == c && Delivering(id, m, row) in trace
  }

  /** An acknowledged row is delivered, or its request is about to be. */
  ghost predicate Settled(s: State, e: Event) {
    e.Recording? && e.append.Acknowledged() ==>
      || Delivering(e.id, e.minting, e.row) in s.trace
      || (e.id in s.requests && s.requests[e.id] == Booked(e.minting, e.row))
  }

  ghost predicate Inv(cfg: Config, s: State) {
    && (forall i :: 0 <= i < |s.trace| ==> InOrder(s.trace[..i], s.trace[i]))
    && (forall i :: 0 <= i < |s.trace| ==> Justified(cfg, s.trace[..i], s.trace[i]))
    && (forall e :: e in s.trace ==> e.id in s.requests && Settled(s, e))
    && (forall id :: id in s.requests ==> NotPast(s.trace, id, s.requests[id]))
    && (forall id :: id in s.requests ==> Backed(cfg, s.trace, id, s.requests[id]))
  }

  /** The invariant speaks of the requests and the trace only. */
  lemma SameStory(cfg: Config, s: State, u: State)
    requires Inv(cfg, s) && u.trace == s.trace && u.requests == s.requests
    ensures Inv(cfg, u)
  {
    forall e | e in u.trace
      ensures e.id in u.requests && Settled(u, e)
    {
      assert Settled(s, e);
    }
  }

  /** A turn without effect. */
  lemma QuietMove(cfg: Config, s: State, id: Id, phase: Phase)
    requires Inv(cfg, s) && Backed(cfg, s.trace, id, phase)
    requires if id in s.requests then !s.requests[id].Booked? && Reached(s.requests[id]) <= Reached(phase) else true
    ensures Inv(cfg, Move(s, id, phase, []))
  {
    var t := Move(s, id, phase, []);
    assert t.trace == s.trace;
    QuietOrder(cfg, s, id, phase);
    QuietSettles(s, t, id);
    forall other | other in t.requests
      ensures NotPast(t.trace, other, t.requests[other]) && Backed(cfg, t.trace, other, t.requests[other])
    {
      if other != id {
        assert NotPast(s.trace, other, s.requests[other]) && Backed(cfg, s.trace, other, s.requests[other]);
      }
    }
  }

  lemma QuietOrder(cfg: Config, s: State, id: Id, phase: Phase)
    requires Inv(cfg, s) && (id in s.requests ==> Reached(s.requests[id]) <= Reached(phase))
    ensures NotPast(s.trace, id, phase)
  {
    assert id in s.requests ==> NotPast(s.trace, id, s.requests[id]);
    assert forall e :: e in s.trace ==> e.id in s.requests;
  }

  lemma QuietSettles(s: State, t: State, id: Id)
    requires forall e :: e in s.trace ==> e.id in s.requests && Settled(s, e)
    requires t.trace == s.trace && s.requests.Keys <= t.requests.Keys
    requires forall other :: other in s.requests && other != id ==> t.requests[other] == s.requests[other]
    requires id in s.requests ==> !s.requests[id].Booked?
    ensures forall e :: e in t.trace ==> e.id in t.requests && Settled(t, e)
  {
    forall e | e in t.trace
      ensures e.id in t.requests && Settled(t, e)
    {
      assert Settled(s, e);
    }
  }

  /** A turn with one. */
  lemma {:induction false} LoudMove(cfg: Config, s: State, id: Id, phase: Phase, e: Event)
    requires Inv(cfg, s) && e.id == id && Justified(cfg, s.trace, e) && Backed(cfg, s.trace + [e], id, phase)
    requires if id in s.requests then Reached(s.requests[id]) < Rank(e) <= Reached(phase)
             else Rank(e) == 0 <= Reached(phase)
    requires e.Recording? && e.append.Acknowledged() ==> phase == Booked(e.minting, e.row)
    requires id in s.requests && s.requests[id].Booked? ==>
               e == Delivering(id, s.requests[id].minting, s.requests[id].row)
    ensures Inv(cfg, Move(s, id, phase, [e]))
  {
    var t := Move(s, id, phase, [e]);
    LoudMoveOrder(cfg, s, id, phase, e);
    forall i | 0 <= i < |t.trace|
      ensures InOrder(t.trace[..i], t.trace[i]) && Justified(cfg, t.trace[..i], t.trace[i])
    {
      if i < |s.trace| {
        assert t.trace[..i] == s.trace[..i] && t.trace[i] == s.trace[i];
      } else {
        assert t.trace[..i] == s.trace;
      }
    }
    LoudMoveSettles(cfg, s, id, phase, e);
    forall other | other in t.requests
      ensures NotPast(t.trace, other, t.requests[other]) && Backed(cfg, t.trace, other, t.requests[other])
    {
      if other != id {
        PhaseKept(cfg, s.trace, e, other, s.requests[other]);
      }
    }
  }

  lemma LoudMoveOrder(cfg: Config, s: State, id: Id, phase: Phase, e: Event)
    requires Inv(cfg, s) && e.id == id
    requires if id in s.requests then Reached(s.requests[id]) < Rank(e) <= Reached(phase)
             else Rank(e) == 0 <= Reached(phase)
    ensures InOrder(s.trace, e) && NotPast(s.trace + [e], id, phase)
  {
    assert id in s.requests ==> NotPast(s.trace, id, s.requests[id]);
    assert forall f :: f in s.trace ==> f.id in s.requests;
  }

  lemma LoudMoveSettles(cfg: Config, s: State, id: Id, phase: Phase, e: Event)
    requires forall f :: f in s.trace ==> f.id in s.requests && Settled(s, f)
    requires e.id == id && (e.Recording? && e.append.Acknowledged() ==> phase == Booked(e.minting, e.row))
    requires id in s.requests && s.requests[id].Booked? ==>
               e == Delivering(id, s.requests[id].minting, s.requests[id].row)
    ensures var t := Move(s, id, phase, [e]);
      forall f :: f in t.trace ==> f.id in t.requests && Settled(t, f)
  {
    var t := Move(s, id, phase, [e]);
    forall f | f in t.trace
      ensures f.id in t.requests && Settled(t, f)
    {
      if f in s.trace {
        assert Settled(s, f);
      }
    }
  }

  /** What one request does is nothing to another's phase. */
  lemma PhaseKept(cfg: Config, trace: seq<Event>, e: Event, other: Id, phase: Phase)
    requires NotPast(trace, other, phase) && Backed(cfg, trace, other, phase) && e.id != other
    ensures NotPast(trace + [e], other, phase) && Backed(cfg, trace + [e], other, phase)
  {
    assert forall f :: f in trace ==> f in trace + [e];
  }

  lemma {:induction false} ArriveKeepsInv(cfg: Config, s: State, id: Id, env: Env)
    requires cfg.Valid() && Inv(cfg, s) && id !in s.requests
    ensures Inv(cfg, Arrive(cfg, s, id, env))
  {
    if !cfg.spiffe(env.ask.caller) {
      QuietMove(cfg, s, id, Done(Refused(Unauthenticated, 0)));
    } else if cfg.callers.None? {
      QuietMove(cfg, s, id, Arrived(env.ask));
    } else {
      var call := Call(env.ask.caller, env.now, env.made, env.taken);
      var got := KeyedLimiter.Answer(cfg.callers.value, s.callers, call);
      var e := CallerLimit(id, call, got.ok, got.retry);
      assert e in s.trace + [e];
      LoudMove(cfg, s.(callers := AfterCall(cfg.callers.value, s.callers, call)), id,
               if got.ok then Arrived(env.ask) else Done(Refused(RateLimited, got.retry)), e);
    }
  }

  lemma {:induction false} ResolveKeepsInv(cfg: Config, s: State, id: Id, ask: Ask)
    requires cfg.Valid() && Inv(cfg, s) && id in s.requests && s.requests[id] == Arrived(ask)
    ensures Inv(cfg, Resolve(cfg, s, id, ask))
  {
    assert Backed(cfg, s.trace, id, s.requests[id]);
    match Mapping.Lookup(cfg.registry, ask.caller)
    case None => QuietMove(cfg, s, id, Done(Refused(NoMapping, 0)));
    case Some(account) => QuietMove(cfg, s, id, Resolved(ask, account));
  }

  lemma {:induction false} CheckKeepsInv(cfg: Config, s: State, id: Id, ask: Ask, account: Mapping.Account)
    requires cfg.Valid() && Inv(cfg, s) && id in s.requests && s.requests[id] == Resolved(ask, account)
    ensures Inv(cfg, Check(cfg, s, id, ask, account))
  {
    assert Backed(cfg, s.trace, id, s.requests[id]);
    var e := Parsing(id, ask.caller);
    assert e in s.trace + [e];
    if ask.csr.Some? && ValidRequest(Assembled(ask, ask.csr.value, account), cfg.spiffe) {
      LoudMove(cfg, s, id, Checked(Assembled(ask, ask.csr.value, account)), e);
    } else {
      LoudMove(cfg, s, id, Done(Refused(InvalidRequest, 0)), e);
    }
  }

  lemma {:induction false} PayKeepsInv(cfg: Config, s: State, id: Id, request: Request, at: int)
    requires cfg.Valid() && Inv(cfg, s) && id in s.requests && s.requests[id] == Checked(request)
    ensures Inv(cfg, Pay(cfg, s, id, request, at))
  {
    if cfg.total.None? {
      TokenKeepsInv(cfg, s, id, request, at, true, 0);
    } else {
      var got := TokenBucket.Take(cfg.total.value, s.total, at);
      TokenKeepsInv(cfg, s.(total := got.bucket), id, request, at, got.ok, got.retry);
    }
  }

  lemma {:induction false} TokenKeepsInv(cfg: Config, s: State, id: Id, request: Request, at: int, ok: bool, retry: int)
    requires Inv(cfg, s) && id in s.requests && s.requests[id] == Checked(request)
    requires !ok ==> retry >= TokenBucket.SECOND
    ensures Inv(cfg, Move(s, id, if ok then Paid(request) else Done(Refused(RateLimited, retry)),
                          [TotalLimit(id, request, at, ok, retry)]))
  {
    var e := TotalLimit(id, request, at, ok, retry);
    assert Backed(cfg, s.trace, id, s.requests[id]);
    assert e in s.trace + [e];
    LoudMove(cfg, s, id, if ok then Paid(request) else Done(Refused(RateLimited, retry)), e);
  }

  /** With the adcs backend, a certificate comes only out of an answer of the CA that passed. */
  lemma AnswerIsVouched(cfg: Config, request: Request, env: Env)
    ensures var heard, answer := Heard(cfg, request, env), Answered(cfg, request, env);
      answer.Minted? && answer.certificate.Some? ==>
        Vouched(cfg, Minting(request, heard, Credential(answer.certificate.value, answer.chain)))
  {
  }

  lemma AnswerBacks(cfg: Config, trace: seq<Event>, id: Id, request: Request, heard: Option<Credential>, answer: Answer)
    requires Authorised(cfg, request)
    requires answer.Minted? && answer.certificate.Some? ==>
               Vouched(cfg, Minting(request, heard, Credential(answer.certificate.value, answer.chain)))
    ensures Backed(cfg, trace + [Calling(id, request, heard)], id, AfterAnswer(request, heard, answer))
  {
    var e := Calling(id, request, heard);
    assert e in trace + [e];
  }

  lemma AnswerReaches(request: Request, heard: Option<Credential>, answer: Answer)
    ensures Reached(AfterAnswer(request, heard, answer)) >= 3
  {
  }

  lemma {:induction false} AnswerKeepsInv(cfg: Config, s: State, id: Id, request: Request,
                                          heard: Option<Credential>, answer: Answer)
    requires Inv(cfg, s) && id in s.requests && s.requests[id] == Paid(request)
    requires answer.Minted? && answer.certificate.Some? ==>
               Vouched(cfg, Minting(request, heard, Credential(answer.certificate.value, answer.chain)))
    ensures Inv(cfg, Move(s, id, AfterAnswer(request, heard, answer), [Calling(id, request, heard)]))
  {
    assert Backed(cfg, s.trace, id, s.requests[id]);
    AnswerBacks(cfg, s.trace, id, request, heard, answer);
    AnswerReaches(request, heard, answer);
    LoudMove(cfg, s, id, AfterAnswer(request, heard, answer), Calling(id, request, heard));
  }

  /** Where an append leaves its request. */
  function AfterAppend(m: Minting, row: Row, append: Append): (phase: Phase)
    ensures Reached(phase) == 4
    ensures append.Acknowledged() ==> phase == Booked(m, row)
  {
    if append.Acknowledged() then Booked(m, row) else Done(Refused(Internal, 0))
  }

  lemma AppendBacks(cfg: Config, trace: seq<Event>, id: Id, m: Minting, row: Row, append: Append)
    ensures Backed(cfg, trace + [Recording(id, m, row, append)], id, AfterAppend(m, row, append))
  {
    var e := Recording(id, m, row, append);
    assert e in trace + [e];
  }

  lemma AppendIsJustified(cfg: Config, trace: seq<Event>, id: Id, m: Minting, row: Row, append: Append)
    requires Backed(cfg, trace, id, Held(m))
    requires row == RowOf(cfg, m.request, m.credential.certificate, row.time)
    requires append.row == cfg.encode(row) && append.Valid()
    ensures Justified(cfg, trace, Recording(id, m, row, append))
  {
  }

  lemma {:induction false} AppendKeepsInv(cfg: Config, s: State, id: Id, m: Minting, row: Row, append: Append)
    requires Inv(cfg, s) && id in s.requests && s.requests[id] == Held(m)
    requires row == RowOf(cfg, m.request, m.credential.certificate, row.time)
    requires append.row == cfg.encode(row) && append.Valid()
    ensures Inv(cfg, Move(s, id, AfterAppend(m, row, append), [Recording(id, m, row, append)]))
  {
    assert Backed(cfg, s.trace, id, s.requests[id]);
    AppendIsJustified(cfg, s.trace, id, m, row, append);
    AppendBacks(cfg, s.trace, id, m, row, append);
    LoudMove(cfg, s, id, AfterAppend(m, row, append), Recording(id, m, row, append));
  }

  lemma BookKeepsInv(cfg: Config, s: State, id: Id, m: Minting, env: Env)
    requires cfg.Valid() && Inv(cfg, s) && id in s.requests && s.requests[id] == Held(m)
    ensures Inv(cfg, Book(cfg, s, id, m, env))
  {
    var row := RowOf(cfg, m.request, m.credential.certificate, env.time);
    var append := Appended(cfg, row, env);
    var u := s.(file := s.file + Line(append.row)[..append.wrote]);
    SameStory(cfg, s, u);
    AppendKeepsInv(cfg, u, id, m, row, append);
  }

  lemma {:induction false} DeliverKeepsInv(cfg: Config, s: State, id: Id, m: Minting, row: Row)
    requires cfg.Valid() && Inv(cfg, s) && id in s.requests && s.requests[id] == Booked(m, row)
    ensures Inv(cfg, Deliver(s, id, m, row))
  {
    assert Backed(cfg, s.trace, id, s.requests[id]);
    var e := Delivering(id, m, row);
    assert e in s.trace + [e];
    LoudMove(cfg, s, id, Done(Delivered(m.credential)), e);
  }

  lemma {:induction false} EarlyTurnKeepsInv(cfg: Config, s: State, id: Id, env: Env)
    requires cfg.Valid() && Inv(cfg, s)
    requires id in s.requests ==> Early(s.requests[id])
    ensures Inv(cfg, Turn(cfg, s, id, env))
  {
    if id !in s.requests {
      ArriveKeepsInv(cfg, s, id, env);
    } else {
      match s.requests[id]
      case Arrived(ask) => ResolveKeepsInv(cfg, s, id, ask);
      case Resolved(ask, account) => CheckKeepsInv(cfg, s, id, ask, account);
      case Checked(request) => PayKeepsInv(cfg, s, id, request, env.at);
    }
  }

  lemma {:induction false} LateTurnKeepsInv(cfg: Config, s: State, id: Id, env: Env)
    requires cfg.Valid() && Inv(cfg, s)
    requires id in s.requests && (s.requests[id].Paid? || s.requests[id].Held? || s.requests[id].Booked?)
    ensures Inv(cfg, Turn(cfg, s, id, env))
  {
    match s.requests[id]
    case Paid(request) =>
      AnswerIsVouched(cfg, request, env);
      AnswerKeepsInv(cfg, s, id, request, Heard(cfg, request, env), Answered(cfg, request, env));
    case Held(m) => BookKeepsInv(cfg, s, id, m, env);
    case Booked(m, row) => DeliverKeepsInv(cfg, s, id, m, row);
  }

  lemma {:induction false} RunKeepsInv(cfg: Config, began: Began, turns: seq<Played>)
    requires cfg.Valid()
    ensures Inv(cfg, Run(cfg, Start(cfg, began), turns))
  {
    if turns != [] {
      var last := turns[|turns| - 1];
      RunKeepsInv(cfg, began, turns[..|turns| - 1]);
      var s := Run(cfg, Start(cfg, began), turns[..|turns| - 1]);
      if last.id !in s.requests || Early(s.requests[last.id]) {
        EarlyTurnKeepsInv(cfg, s, last.id, last.env);
      } else if !s.requests[last.id].Done? {
        LateTurnKeepsInv(cfg, s, last.id, last.env);
      }
    }
  }

  // ---------------------------------------------------------------- the record

  ghost function TraceOf(cfg: Config, began: Began, turns: seq<Played>): seq<Event>
    requires cfg.Valid()
  {
    Run(cfg, Start(cfg, began), turns).trace
  }

  /** A row says whose certificate it is: the proven caller, the account the snapshot gives it, and
      the certificate by serial, issuer, dates and fingerprint. */
  predicate Describes(cfg: Config, row: Row, c: Certificate) {
    && Mapping.Lookup(cfg.registry, row.caller) == Some(Mapping.Account(row.sid, row.account))
    && row.version == cfg.registry.version && row.backend == cfg.BackendName()
    && row.serial == c.serial && row.issuer == c.issuer
    && row.notBefore == c.notBefore && row.notAfter == c.notAfter && row.fingerprint == cfg.fingerprint(c.raw)
  }

  lemma RunJustifies(cfg: Config, began: Began, turns: seq<Played>, i: nat)
    requires cfg.Valid() && i < |TraceOf(cfg, began, turns)|
    ensures var t := TraceOf(cfg, began, turns); Justified(cfg, t[..i], t[i])
  {
    RunKeepsInv(cfg, began, turns);
  }

  lemma RunSettles(cfg: Config, began: Began, turns: seq<Played>, e: Event)
    requires cfg.Valid() && e in TraceOf(cfg, began, turns)
    ensures Settled(Run(cfg, Start(cfg, began), turns), e)
  {
    RunKeepsInv(cfg, began, turns);
  }

  lemma {:induction false} RunBacks(cfg: Config, began: Began, turns: seq<Played>, id: Id)
    requires cfg.Valid() && id in Run(cfg, Start(cfg, began), turns).requests
    ensures var s := Run(cfg, Start(cfg, began), turns);
      NotPast(s.trace, id, s.requests[id]) && Backed(cfg, s.trace, id, s.requests[id])
  {
    RunKeepsInv(cfg, began, turns);
  }

  /** No two effects of a request share a rank, and they come in rank order. */
  lemma EffectsAreOrdered(cfg: Config, began: Began, turns: seq<Played>, i: nat, j: nat)
    requires cfg.Valid() && i < j < |TraceOf(cfg, began, turns)|
    ensures var t := TraceOf(cfg, began, turns); t[i].id == t[j].id ==> Rank(t[i]) < Rank(t[j])
  {
    RunKeepsInv(cfg, began, turns);
    var t := TraceOf(cfg, began, turns);
    assert InOrder(t[..j], t[j]);
    assert t[i] == t[..j][i];
  }

  /** Nothing is delivered that is not on record: before every delivery, at any point of any run,
      there is exactly one append for the request; it was acknowledged, it is of the delivered
      credential, and it is under the caller's own account. */
  lemma DeliveriesAreOnRecord(cfg: Config, began: Began, turns: seq<Played>, j: nat) returns (i: nat)
    requires cfg.Valid() && j < |TraceOf(cfg, began, turns)| && TraceOf(cfg, began, turns)[j].Delivering?
    ensures var t := TraceOf(cfg, began, turns);
      && i < j && t[i].Recording? && t[i].append.wrote == |t[i].append.row| + 1 && t[i].append.synced
      && t[i].id == t[j].id && t[i].minting == t[j].minting && t[i].row == t[j].row
      && Describes(cfg, t[j].row, t[j].minting.credential.certificate)
      && (forall k :: 0 <= k < |t| && t[k].Recording? && t[k].id == t[j].id ==> k == i)
      && (forall k :: 0 <= k < |t| && t[k].Delivering? && t[k].id == t[j].id ==> k == j)
  {
    var t := TraceOf(cfg, began, turns);
    var e := t[j];
    RunJustifies(cfg, began, turns, j);
    var a: Append :| a.Acknowledged() && Recording(e.id, e.minting, e.row, a) in t[..j];
    i :| 0 <= i < j && t[..j][i] == Recording(e.id, e.minting, e.row, a);
    RunJustifies(cfg, began, turns, i);
    OnlyOneOfRank(cfg, began, turns, i);
    OnlyOneOfRank(cfg, began, turns, j);
  }

  lemma OnlyOneOfRank(cfg: Config, began: Began, turns: seq<Played>, i: nat)
    requires cfg.Valid() && i < |TraceOf(cfg, began, turns)|
    ensures var t := TraceOf(cfg, began, turns);
      forall k :: 0 <= k < |t| && t[k].id == t[i].id && Rank(t[k]) == Rank(t[i]) ==> k == i
  {
    var t := TraceOf(cfg, began, turns);
    forall k | 0 <= k < |t| && t[k].id == t[i].id && Rank(t[k]) == Rank(t[i])
      ensures k == i
    {
      if k < i {
        EffectsAreOrdered(cfg, began, turns, k, i);
      } else if i < k {
        EffectsAreOrdered(cfg, began, turns, i, k);
      }
    }
  }

  lemma BookedIsNext(cfg: Config, s: State, id: Id, m: Minting, row: Row, env: Env)
    requires cfg.Valid() && id in s.requests && s.requests[id] == Booked(m, row)
    ensures Turn(cfg, s, id, env) == Deliver(s, id, m, row)
  {
  }

  /** A delivery comes after the append of its row. */
  lemma DeliveredAfterwards(cfg: Config, began: Began, turns: seq<Played>, i: nat) returns (j: nat)
    requires cfg.Valid() && i < |TraceOf(cfg, began, turns)| && TraceOf(cfg, began, turns)[i].Recording?
    requires var e := TraceOf(cfg, began, turns)[i];
      Delivering(e.id, e.minting, e.row) in TraceOf(cfg, began, turns)
    ensures var t := TraceOf(cfg, began, turns);
      i < j < |t| && t[j] == Delivering(t[i].id, t[i].minting, t[i].row)
  {
    var t := TraceOf(cfg, began, turns);
    j :| 0 <= j < |t| && t[j] == Delivering(t[i].id, t[i].minting, t[i].row);
    if j < i {
      EffectsAreOrdered(cfg, began, turns, j, i);
    }
  }

  /** And nothing is acknowledged without being delivered: either it has been, once, or the request's
      own next turn hands over exactly this credential. With DeliveriesAreOnRecord this makes
      deliveries and acknowledged rows correspond one to one. */
  lemma {:induction false} AcknowledgedIsDelivered(cfg: Config, began: Began, turns: seq<Played>, i: nat, env: Env)
    requires cfg.Valid() && i < |TraceOf(cfg, began, turns)|
    requires var e := TraceOf(cfg, began, turns)[i]; e.Recording? && e.append.Acknowledged()
    ensures var s := Run(cfg, Start(cfg, began), turns);
      var e := s.trace[i];
      || (exists j :: i < j < |s.trace| && s.trace[j] == Delivering(e.id, e.minting, e.row))
      || Turn(cfg, s, e.id, env) == Deliver(s, e.id, e.minting, e.row)
  {
    var s := Run(cfg, Start(cfg, began), turns);
    var e := s.trace[i];
    RunSettles(cfg, began, turns, e);
    if Delivering(e.id, e.minting, e.row) in s.trace {
      var j := DeliveredAfterwards(cfg, began, turns, i);
    } else {
      BookedIsNext(cfg, s, e.id, e.minting, e.row, env);
    }
  }

  /** The encoding of rows loses nothing. */
  ghost predicate Injective(encode: Row -> Bytes) {
    forall x, y :: encode(x) == encode(y) ==> x == y
  }

  /** Every row that is written describes its certificate and the caller's own account, and a line
      tells what it is about: two equal lines, wherever in the run, are about one caller, one account
      and one certificate, by issuer, serial and fingerprint. */
  lemma LinesTellCertificatesApart(cfg: Config, began: Began, turns: seq<Played>, i: nat, j: nat)
    requires cfg.Valid() && Injective(cfg.encode)
    requires var t := TraceOf(cfg, began, turns);
      i < |t| && j < |t| && t[i].Recording? && t[j].Recording?
    ensures var t := TraceOf(cfg, began, turns);
      var a, b := t[i].minting, t[j].minting;
      && Describes(cfg, t[i].row, a.credential.certificate) && t[i].row.caller == a.request.spiffeId
      && (t[i].append.row == t[j].append.row ==>
            && a.request.spiffeId == b.request.spiffeId && a.request.sid == b.request.sid
            && a.credential.certificate.issuer == b.credential.certificate.issuer
            && a.credential.certificate.serial == b.credential.certificate.serial
            && cfg.fingerprint(a.credential.certificate.raw) == cfg.fingerprint(b.credential.certificate.raw))
  {
    RunJustifies(cfg, began, turns, i);
    RunJustifies(cfg, began, turns, j);
  }

  lemma {:induction false} AppendsHold(trace: seq<Event>, i: nat)
    requires i < |trace| && trace[i].Recording?
    ensures |Appends(trace[..i])| < |Appends(trace)| && Appends(trace)[|Appends(trace[..i])|] == trace[i].append
    decreases |trace|
  {
    if i < |trace| - 1 {
      assert trace[..|trace| - 1][..i] == trace[..i];
      AppendsHold(trace[..|trace| - 1], i);
    }
  }

  lemma {:induction false} AppendsAreValid(trace: seq<Event>)
    requires forall i :: 0 <= i < |trace| && trace[i].Recording? ==> trace[i].append.Valid()
    ensures AllAppends(Appends(trace))
  {
    if trace != [] {
      AppendsAreValid(trace[..|trace| - 1]);
    }
  }

  /** The appends a run makes are appends the record file can take. */
  lemma RunAppends(cfg: Config, began: Began, turns: seq<Played>)
    requires cfg.Valid()
    ensures AllAppends(Appends(TraceOf(cfg, began, turns)))
  {
    var t := TraceOf(cfg, began, turns);
    forall i | 0 <= i < |t| && t[i].Recording?
      ensures t[i].append.Valid()
    {
      RunJustifies(cfg, began, turns, i);
    }
    AppendsAreValid(t);
  }

  /** What a step from `s` to `t` adds to the file. */
  predicate Writes(s: State, t: State) {
    && s.trace <= t.trace && |t.trace| <= |s.trace| + 1
    && (if |t.trace| > |s.trace| && t.trace[|s.trace|].Recording? then
          var a := t.trace[|s.trace|].append; a.wrote <= |Line(a.row)| && t.file == s.file + Line(a.row)[..a.wrote]
        else t.file == s.file)
  }

  lemma EarlyTurnWrites(cfg: Config, s: State, id: Id, env: Env)
    requires cfg.Valid() && (id in s.requests ==> Early(s.requests[id]))
    ensures Writes(s, Turn(cfg, s, id, env))
  {
  }

  lemma LateTurnWrites(cfg: Config, s: State, id: Id, env: Env)
    requires cfg.Valid() && id in s.requests && !Early(s.requests[id])
    ensures Writes(s, Turn(cfg, s, id, env))
  {
  }

  lemma TurnWrites(cfg: Config, s: State, id: Id, env: Env)
    requires cfg.Valid()
    ensures Writes(s, Turn(cfg, s, id, env))
  {
    if id !in s.requests || Early(s.requests[id]) {
      EarlyTurnWrites(cfg, s, id, env);
    } else {
      LateTurnWrites(cfg, s, id, env);
    }
  }

  lemma AppendsGrow(trace: seq<Event>, longer: seq<Event>)
    requires trace <= longer && |longer| <= |trace| + 1
    ensures Appends(longer)
            == if |longer| > |trace| && longer[|trace|].Recording? then Appends(trace) + [longer[|trace|].append]
               else Appends(trace)
  {
    if |longer| == |trace| {
      assert longer == trace;
    } else {
      assert longer[..|longer| - 1] == trace;
    }
  }

  lemma OneMoreInFile(earlier: seq<Append>, appends: seq<Append>, a: Append)
    requires AllAppends(earlier + appends) && AllAppends(earlier + (appends + [a])) && a.wrote <= |Line(a.row)|
    ensures FileAfter(earlier + (appends + [a])) == FileAfter(earlier + appends) + Line(a.row)[..a.wrote]
  {
    var log := earlier + (appends + [a]);
    assert log[..|log| - 1] == earlier + appends && log[|log| - 1] == a;
  }

  /** The file is what the run's appends, after the earlier ones, have made of it. */
  lemma {:induction false} FileIsItsAppends(cfg: Config, began: Began, turns: seq<Played>, earlier: seq<Append>)
    requires cfg.Valid() && AllAppends(earlier) && began.file == FileAfter(earlier)
    ensures AllAppends(earlier + Appends(TraceOf(cfg, began, turns)))
    ensures Run(cfg, Start(cfg, began), turns).file == FileAfter(earlier + Appends(TraceOf(cfg, began, turns)))
  {
    RunAppends(cfg, began, turns);
    if turns == [] {
      assert earlier + [] == earlier;
    } else {
      var init, last := turns[..|turns| - 1], turns[|turns| - 1];
      FileIsItsAppends(cfg, began, init, earlier);
      var s := Run(cfg, Start(cfg, began), init);
      var t := Turn(cfg, s, last.id, last.env);
      TurnWrites(cfg, s, last.id, last.env);
      AppendsGrow(s.trace, t.trace);
      if |t.trace| > |s.trace| && t.trace[|s.trace|].Recording? {
        OneMoreInFile(earlier, Appends(s.trace), t.trace[|s.trace|].append);
      }
    }
  }

  /** On disk: the row of every delivered credential stands on a line of its own in the file, if no
      row was written after a torn one. */
  lemma DeliveredRowsAreLines(cfg: Config, began: Began, turns: seq<Played>, earlier: seq<Append>, j: nat)
    requires cfg.Valid() && j < |TraceOf(cfg, began, turns)| && TraceOf(cfg, began, turns)[j].Delivering?
    requires AllAppends(earlier) && began.file == FileAfter(earlier)
    requires NoneJoined(earlier + Appends(TraceOf(cfg, began, turns)))
    ensures cfg.encode(TraceOf(cfg, began, turns)[j].row) in Lines(Run(cfg, Start(cfg, began), turns).file)
  {
    var t := TraceOf(cfg, began, turns);
    var log := earlier + Appends(t);
    FileIsItsAppends(cfg, began, turns, earlier);
    var k := DeliveredRowIsAppended(cfg, began, turns, j);
    assert log[|earlier| + k] == Appends(t)[k];
    WrittenRowIsALine(log, |earlier| + k);
  }

  /** And it stays one: whatever a power loss leaves of the file, beyond what the last sync that
      succeeded covers, the row of every delivered credential is a line of it. */
  lemma DeliveredRowsSurvive(cfg: Config, began: Began, turns: seq<Played>, earlier: seq<Append>, file: Bytes, j: nat)
    requires cfg.Valid() && j < |TraceOf(cfg, began, turns)| && TraceOf(cfg, began, turns)[j].Delivering?
    requires AllAppends(earlier + Appends(TraceOf(cfg, began, turns)))
    requires NoneJoined(earlier + Appends(TraceOf(cfg, began, turns)))
    requires CanBeLeft(earlier + Appends(TraceOf(cfg, began, turns)), file)
    ensures cfg.encode(TraceOf(cfg, began, turns)[j].row) in Lines(file)
  {
    var log := earlier + Appends(TraceOf(cfg, began, turns));
    var k := DeliveredRowIsAppended(cfg, began, turns, j);
    assert log[|earlier| + k] == Appends(TraceOf(cfg, began, turns))[k];
    AcknowledgedRowsSurvive(log, file, |earlier| + k);
  }

  lemma DeliveredRowIsAppended(cfg: Config, began: Began, turns: seq<Played>, j: nat) returns (k: nat)
    requires cfg.Valid() && j < |TraceOf(cfg, began, turns)| && TraceOf(cfg, began, turns)[j].Delivering?
    ensures var t := TraceOf(cfg, began, turns);
      && k < |Appends(t)| && Appends(t)[k].row == cfg.encode(t[j].row)
      && Appends(t)[k].wrote == |Appends(t)[k].row| + 1 && Appends(t)[k].synced
  {
    var t := TraceOf(cfg, began, turns);
    var i := DeliveriesAreOnRecord(cfg, began, turns, j);
    RunJustifies(cfg, began, turns, i);
    AppendsHold(t, i);
    k := |Appends(t[..i])|;
  }

  // ---------------------------------------------------------------- what is earned

  /** Before a backend is called, and in this order: the caller's own limit let the request in, its
      CSR was parsed, and a token of the total limit was taken for this very request. */
  lemma CallsAreEarned(cfg: Config, began: Began, turns: seq<Played>, k: nat) returns (i: nat, j: nat)
    requires cfg.Valid() && k < |TraceOf(cfg, began, turns)| && TraceOf(cfg, began, turns)[k].Calling?
    ensures var t := TraceOf(cfg, began, turns);
      && i < j < k
      && LetIn(cfg, t[..i], t[k].id, t[k].request.spiffeId)
      && t[i] == Parsing(t[k].id, t[k].request.spiffeId)
      && t[j].TotalLimit? && t[j].id == t[k].id && t[j].request == t[k].request && t[j].ok
  {
    var t := TraceOf(cfg, began, turns);
    RunJustifies(cfg, began, turns, k);
    var at, r :| TotalLimit(t[k].id, t[k].request, at, true, r) in t[..k];
    j :| 0 <= j < k && t[..k][j] == TotalLimit(t[k].id, t[k].request, at, true, r);
    RunJustifies(cfg, began, turns, j);
    i :| 0 <= i < j && t[..j][i] == Parsing(t[k].id, t[k].request.spiffeId);
    RunJustifies(cfg, began, turns, i);
  }

  /** A positive delay and the rate-limited reason come together, and a limiter refused such a
      request. */
  lemma {:induction false} RetryAfterMeansRateLimited(cfg: Config, began: Began, turns: seq<Played>, id: Id)
    requires cfg.Valid() && WasRefused(Run(cfg, Start(cfg, began), turns), id)
    ensures var s := Run(cfg, Start(cfg, began), turns);
      var refusal := s.requests[id].outcome;
      && (refusal.retryAfter > 0 <==> refusal.reason == RateLimited)
      && (refusal.reason == RateLimited ==>
            refusal.retryAfter >= 1_000_000_000 && Limited(s.trace, id, refusal.retryAfter))
  {
    RunBacks(cfg, began, turns, id);
  }

  predicate WasRefused(s: State, id: Id) {
    id in s.requests && s.requests[id].Done? && s.requests[id].outcome.Refused?
  }

  /** A refusal costs only what lies before it: an unknown caller or a bad request takes no token of
      the total limit, a rate-limited one never reaches the backend, and no refused request is
      delivered anything. */
  lemma RefusalsStopThere(cfg: Config, began: Began, turns: seq<Played>, id: Id, e: Event)
    requires cfg.Valid() && WasRefused(Run(cfg, Start(cfg, began), turns), id)
    requires e in TraceOf(cfg, began, turns) && e.id == id
    ensures var reason := Run(cfg, Start(cfg, began), turns).requests[id].outcome.reason;
      && reason != Unauthenticated
      && (reason == NoMapping ==> e.CallerLimit?)
      && (reason == InvalidRequest ==> e.CallerLimit? || e.Parsing?)
      && (reason == RateLimited ==> e.CallerLimit? || e.Parsing? || e.TotalLimit?)
      && (reason == NotYet ==> !e.Recording?)
      && !e.Delivering?
  {
    RunBacks(cfg, began, turns, id);
    RunBacks(cfg, began, turns, e.id);
  }
}
