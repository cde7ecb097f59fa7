/** The Broker object of internal/broker. Its Issue is the machine's turns of one request, taken one
    after the other. */
module Broker {
  import opened Adcs
  import opened ByteStrings
  import EndToEnd
  import opened Issuance
  import opened IssuanceCauses
  import opened IssuanceOwners
  import opened KeyedLimiter
  import Mapping
  import opened NtdsExt
  import opened Options
  import opened RecordFile
  import TokenBucket
  import opened Wstep

  const DEFAULT_CLOCK_SKEW: int := 300 * TokenBucket.SECOND

  /** The state once an append is made, and, if it was acknowledged, the credential handed over. */
  function HandedOver(s: State, id: Id, m: Minting, row: Row, a: Append): State
    requires a.wrote <= |Line(a.row)|
  {
    if a.Acknowledged() then Deliver(Kept(s, id, m, row, a), id, m, row) else Kept(s, id, m, row, a)
  }

  class Server {
    const cfg: Config
    const callerLimit: Keyed?
    const totalLimit: TokenBucket.Limiter?
    const record: File
    ghost const began: Began
    ghost var requests: map<Id, Phase>
    ghost var trace: seq<Event>

    ghost function Limiters(): set<object>
      reads callerLimit
    {
      (if callerLimit == null then {} else {callerLimit} + callerLimit.buckets.Values)
      + (if totalLimit == null then {} else {totalLimit})
    }

    ghost predicate Separate()
      reads callerLimit
    {
      && this !in Limiters() && record !in Limiters()
      && (callerLimit != null && totalLimit != null ==> totalLimit !in callerLimit.buckets.Values)
    }

    ghost predicate Limited()
      reads Limiters(), callerLimit
    {
      && (cfg.callers.None? <==> callerLimit == null)
      && (callerLimit != null ==> callerLimit.Valid() && callerLimit.policy == cfg.callers.value)
      && (cfg.total.None? <==> totalLimit == null)
      && (totalLimit != null ==> totalLimit.Valid() && totalLimit.limits == cfg.total.value)
    }

    ghost predicate Valid()
      reads Limiters(), callerLimit
    {
      Separate() && Limited() && cfg.Valid()
    }

    ghost function View(): State
      reads this, record, Limiters(), callerLimit
    {
      State(if callerLimit == null then Table(map[], began.callers) else callerLimit.View(),
            if totalLimit == null then TokenBucket.Bucket(0.0, began.total) else totalLimit.State(),
            record.content, requests, trace)
    }

    constructor (cfg: Config, callerLimit: Keyed?, totalLimit: TokenBucket.Limiter?, record: File,
                 ghost began: Began)
      requires cfg.Valid()
      requires cfg.callers.None? <==> callerLimit == null
      requires callerLimit != null ==> callerLimit.Valid() && callerLimit.policy == cfg.callers.value
      requires cfg.total.None? <==> totalLimit == null
      requires totalLimit != null ==> totalLimit.Valid() && totalLimit.limits == cfg.total.value
      requires callerLimit != null && totalLimit != null ==> totalLimit !in callerLimit.buckets.Values
      ensures Valid() && this.cfg == cfg && this.callerLimit == callerLimit && this.totalLimit == totalLimit
      ensures this.record == record
      ensures View() == State(if callerLimit == null then Table(map[], began.callers) else callerLimit.View(),
                              if totalLimit == null then TokenBucket.Bucket(0.0, began.total) else totalLimit.State(),
                              record.content, map[], [])
    {
      this.cfg, this.callerLimit, this.totalLimit, this.record := cfg, callerLimit, totalLimit, record;
      this.began := began;
      requests, trace := map[], [];
    }

    /** Notes a request's new phase, and what was done to bring it there. */
    ghost method Note(id: Id, phase: Phase, effects: seq<Event>)
      requires Valid()
      modifies this`requests, this`trace
      ensures Valid() && View() == Move(old(View()), id, phase, effects)
    {
      ghost var s := View();
      requests, trace := requests[id := phase], trace + effects;
      assert View().callers == s.callers && View().total == s.total;
    }

    /** The caller's own limit; the null limiter always allows. */
    method TakeCallerLimit(ghost id: Id, env: Env) returns (ok: bool, retry: int)
      requires Valid() && id !in requests && cfg.spiffe(env.ask.caller)
      modifies this`requests, this`trace, Limiters()
      ensures Valid() && fresh(Limiters() - old(Limiters()))
      ensures View() == Arrive(cfg, old(View()), id, env)
      ensures id in requests && requests[id] == if ok then Arrived(env.ask) else Done(Refused(RateLimited, retry))
    {
      if callerLimit == null {
        Note(id, Arrived(env.ask), []);
        return true, 0;
      }
      ok, retry := callerLimit.Allow(env.ask.caller, env.now, env.made, env.taken);
      ghost var call := Call(env.ask.caller, env.now, env.made, env.taken);
      Note(id, if ok then Arrived(env.ask) else Done(Refused(RateLimited, retry)), [CallerLimit(id, call, ok, retry)]);
    }

    method TakeTotalLimit(ghost id: Id, request: Request, at: int) returns (ok: bool, retry: int)
      requires Valid() && id in requests && requests[id] == Checked(request)
      modifies this`requests, this`trace, totalLimit
      ensures Valid()
      ensures View() == Pay(cfg, old(View()), id, request, at)
      ensures id in requests && requests[id] == if ok then Paid(request) else Done(Refused(RateLimited, retry))
    {
      if totalLimit == null {
        Note(id, Paid(request), [TotalLimit(id, request, at, true, 0)]);
        return true, 0;
      }
      ok, retry := totalLimit.Allow(at);
      Note(id, if ok then Paid(request) else Done(Refused(RateLimited, retry)),
           [TotalLimit(id, request, at, ok, retry)]);
    }

    /** recordIssuance, once the row is filled in. */
    method RecordIssuance(ghost id: Id, ghost m: Minting, row: Row, a: Append) returns (ok: bool)
      requires Valid() && a.Valid()
      modifies this`requests, this`trace, record
      ensures Valid()
      ensures ok <==> a.wrote == |a.row| + 1 && a.synced
      ensures View() == Kept(old(View()), id, m, row, a)
    {
      ghost var s := View();
      ok := record.Record(Some(a.row), a.wrote, a.synced);
      assert View() == s.(file := record.content);
      Note(id, if ok then Booked(m, row) else Done(Refused(Internal, 0)), [Recording(id, m, row, a)]);
    }

    /** The snapshot's answer for the caller. */
    method ResolveCaller(ghost id: Id, env: Env) returns (account: Option<Mapping.Account>)
      requires Valid() && id in requests && requests[id] == Arrived(env.ask)
      modifies this`requests, this`trace
      ensures Valid() && View() == Resolve(cfg, old(View()), id, env.ask)
      ensures id in requests
      ensures requests[id] == if account.Some? then Resolved(env.ask, account.value) else Done(Refused(NoMapping, 0))
    {
      account := Mapping.Lookup(cfg.registry, env.ask.caller);
      Note(id, if account.Some? then Resolved(env.ask, account.value) else Done(Refused(NoMapping, 0)), []);
    }

    /** The CSR is parsed only now, and the request validated as a whole. */
    method CheckRequest(ghost id: Id, env: Env, account: Mapping.Account) returns (request: Option<Request>)
      requires Valid() && id in requests && requests[id] == Resolved(env.ask, account)
      modifies this`requests, this`trace
      ensures Valid() && View() == Check(cfg, old(View()), id, env.ask, account)
      ensures id in requests
      ensures requests[id] == if request.Some? then Checked(request.value) else Done(Refused(InvalidRequest, 0))
    {
      request := None;
      if env.ask.csr.Some? {
        var assembled := Request(env.ask.csr.value, env.ask.caller, account.sid, account.name);
        if ValidRequest(assembled, cfg.spiffe) {
          request := Some(assembled);
        }
      }
      Note(id, if request.Some? then Checked(request.value) else Done(Refused(InvalidRequest, 0)),
           [Parsing(id, env.ask.caller)]);
    }

    /** The backend's credential, if it came with a certificate. */
    method TakeAnswer(ghost id: Id, request: Request, answer: Answer, ghost heard: Option<Credential>)
      returns (r: Option<Credential>, reason: Reason)
      requires Valid()
      modifies this`requests, this`trace
      ensures Valid()
      ensures View() == Move(old(View()), id, AfterAnswer(request, heard, answer), [Calling(id, request, heard)])
      ensures AfterAnswer(request, heard, answer)
              == if r.Some? then Held(Minting(request, heard, r.value)) else Done(Refused(reason, 0))
    {
      Note(id, AfterAnswer(request, heard, answer), [Calling(id, request, heard)]);
      if answer.NotImplemented? {
        return None, NotYet;
      }
      if answer.Failed? || answer.certificate.None? {
        return None, Internal;
      }
      r, reason := Some(Credential(answer.certificate.value, answer.chain)), Internal;
    }

    ghost method NoteDelivery(id: Id, m: Minting, row: Row)
      requires Valid()
      modifies this`requests, this`trace
      ensures Valid() && View() == Deliver(old(View()), id, m, row)
    {
      Note(id, Done(Delivered(m.credential)), [Delivering(id, m, row)]);
    }

    /** The end of Issue: the record, and only then the caller. */
    method HandOver(ghost id: Id, ghost m: Minting, row: Row, append: Append, credential: Credential)
      returns (outcome: Outcome)
      requires Valid() && append.Valid() && m.credential == credential
      modifies this`requests, this`trace, record
      ensures Valid()
      ensures View() == HandedOver(old(View()), id, m, row, append)
      ensures id in requests && requests[id] == Done(outcome)
    {
      var ok := RecordIssuance(id, m, row, append);
      if !ok {
        return Refused(Internal, 0);
      }
      NoteDelivery(id, m, row);
      outcome := Delivered(credential);
    }

    /** Issue once there is a credential: its row is filled in, and kept before it is handed over. */
    method IssueHeld(ghost id: Id, ghost m: Minting, request: Request, credential: Credential, env: Env)
      returns (outcome: Outcome)
      requires Valid() && id in requests && requests[id] == Held(m)
      requires m.request == request && m.credential == credential
      modifies this`requests, this`trace, record
      ensures Valid()
      ensures View() == Served(cfg, old(View()), id, env)
      ensures id in requests && requests[id] == Done(outcome)
    {
      var row := FillRow(cfg, request, credential.certificate, env.time);
      var append := Appended(cfg, row, env);
      LastTurns(cfg, View(), id, m, row, append, env);
      outcome := HandOver(id, m, row, append, credential);
    }

    /** Issue once the backend has answered. */
    method IssueAnswered(ghost id: Id, request: Request, answer: Answer, ghost heard: Option<Credential>, env: Env)
      returns (outcome: Outcome)
      requires Valid()
      requires Served(cfg, View(), id, env)
               == Served(cfg, Move(View(), id, AfterAnswer(request, heard, answer), [Calling(id, request, heard)]),
                         id, env)
      modifies this`requests, this`trace, record
      ensures Valid()
      ensures View() == Served(cfg, old(View()), id, env)
      ensures id in requests && requests[id] == Done(outcome)
    {
      var credential, reason := TakeAnswer(id, request, answer, heard);
      if credential.None? {
        return Refused(reason, 0);
      }
      outcome := IssueHeld(id, Minting(request, heard, credential.value), request, credential.value, env);
    }

    /** Issue once a token is there: the backend is called. */
    method IssuePaid(ghost id: Id, request: Request, env: Env) returns (outcome: Outcome)
      requires Valid() && id in requests && requests[id] == Paid(request)
      modifies this`requests, this`trace, record
      ensures Valid()
      ensures View() == Served(cfg, old(View()), id, env)
      ensures id in requests && requests[id] == Done(outcome)
    {
      var answer;
      ghost var heard;
      answer, heard := CallOn(cfg, request, env);
      CallingTurn(cfg, View(), id, request, env, heard, answer);
      outcome := IssueAnswered(id, request, answer, heard, env);
    }

    /** Issue once the request is checked: the last thing before the CA is touched is the total limit. */
    method IssueChecked(ghost id: Id, request: Request, env: Env) returns (outcome: Outcome)
      requires Valid() && id in requests && requests[id] == Checked(request)
      modifies this`requests, this`trace, record, totalLimit
      ensures Valid()
      ensures View() == Served(cfg, old(View()), id, env)
      ensures id in requests && requests[id] == Done(outcome)
    {
      var ok, retry := TakeTotalLimit(id, request, env.at);
      if !ok {
        return Refused(RateLimited, retry);
      }
      outcome := IssuePaid(id, request, env);
    }

    /** Issue once the caller has an account: only now is the CSR looked at. */
    method IssueResolved(ghost id: Id, account: Mapping.Account, env: Env) returns (outcome: Outcome)
      requires Valid() && id in requests && requests[id] == Resolved(env.ask, account)
      modifies this`requests, this`trace, record, totalLimit
      ensures Valid()
      ensures View() == Served(cfg, old(View()), id, env)
      ensures id in requests && requests[id] == Done(outcome)
    {
      var request := CheckRequest(id, env, account);
      if request.None? {
        return Refused(InvalidRequest, 0);
      }
      outcome := IssueChecked(id, request.value, env);
    }

    /** Issue once the caller is let in: the mapping decides first. */
    method IssueArrived(ghost id: Id, env: Env) returns (outcome: Outcome)
      requires Valid() && id in requests && requests[id] == Arrived(env.ask)
      modifies this`requests, this`trace, record, totalLimit
      ensures Valid()
      ensures View() == Served(cfg, old(View()), id, env)
      ensures id in requests && requests[id] == Done(outcome)
    {
      var account := ResolveCaller(id, env);
      if account.None? {
        return Refused(NoMapping, 0);
      }
      outcome := IssueResolved(id, account.value, env);
    }

    /** What comes first: the caller's ID is checked again, and its own limit taken. */
    method AdmitCaller(ghost id: Id, env: Env) returns (refusal: Option<Outcome>)
      requires Valid() && id !in requests
      modifies this`requests, this`trace, Limiters()
      ensures Valid() && fresh(Limiters() - old(Limiters()))
      ensures View() == Arrive(cfg, old(View()), id, env)
      ensures id in requests && requests[id] == if refusal.Some? then Done(refusal.value) else Arrived(env.ask)
    {
      if !cfg.spiffe(env.ask.caller) {
        refusal := Some(Refused(Unauthenticated, 0));
        Note(id, Done(refusal.value), []);
        return;
      }
      var ok, retry := TakeCallerLimit(id, env);
      refusal := if ok then None else Some(Refused(RateLimited, retry));
    }

    /** The turns of the request, in order. */
    method IssueTurns(ghost id: Id, env: Env) returns (outcome: Outcome)
      requires Valid() && id !in requests
      modifies this`requests, this`trace, record, Limiters()
      ensures Valid() && fresh(Limiters() - old(Limiters()))
      ensures View() == Served(cfg, old(View()), id, env)
      ensures id in requests && requests[id] == Done(outcome)
    {
      FirstTurn(cfg, View(), id, env);
      var refusal := AdmitCaller(id, env);
      if refusal.Some? {
        return refusal.value;
      }
      outcome := IssueArrived(id, env);
    }

    /** Issue: every turn of the request, in order, with one outcome; and all that is done, the outcome
        included, is what this ask deserves, with the mapped SID in what is delivered. */
    method Issue(ghost id: Id, env: Env) returns (outcome: Outcome)
      requires Valid() && id !in requests
      modifies this`requests, this`trace, record, Limiters()
      ensures Valid() && fresh(Limiters() - old(Limiters()))
      ensures View() == Served(cfg, old(View()), id, env)
      ensures id in requests && requests[id] == Done(outcome)
      ensures old(trace) <= trace && AllFor(cfg, env.ask, id, trace, |old(trace)|)
      ensures Ends(cfg, env.ask, outcome)
      ensures cfg.backend.ByAdcs? && outcome.Delivered? ==> NamesMappedSid(cfg, env.ask, outcome.credential)
      ensures outcome.Refused? && outcome.reason == NotYet ==> Declines(cfg, env)
      ensures outcome.Refused? && outcome.reason == Internal ==>
        FailedIn(cfg, [env], trace[|old(trace)|..], id) || RowLost(trace[|old(trace)|..], id)
    {
      ghost var s := View();
      outcome := IssueTurns(id, env);
      IssueDeservedly(cfg, s, id, env, View(), outcome);
      IssueIsCaused(cfg, s, id, env, View(), outcome);
    }
  }

  /** All effects from here on are of this request and for this ask. */
  predicate AllFor(cfg: Config, ask: Ask, id: Id, trace: seq<Event>, from: nat) {
    forall k :: from <= k < |trace| ==> trace[k].id == id && DoneFor(cfg, ask, trace[k])
  }

  /** The certificate names the SID that the snapshot gives the ask's caller. */
  predicate NamesMappedSid(cfg: Config, ask: Ask, credential: Credential) {
    && Mapping.Lookup(cfg.registry, ask.caller).Some?
    && FromExtensions(credential.certificate.extensions)
       == Named(Mapping.Lookup(cfg.registry, ask.caller).value.sid)
  }

  /** What serving an ask leads to is what the ask deserves. */
  lemma ServedDeservedly(cfg: Config, s: State, id: Id, env: Env)
    requires cfg.Valid() && id !in s.requests
    ensures var t := Served(cfg, s, id, env);
      && s.trace <= t.trace && AllFor(cfg, env.ask, id, t.trace, |s.trace|)
      && id in t.requests
      && (t.requests[id].Done? ==> Ends(cfg, env.ask, t.requests[id].outcome))
  {
    ServedIsForItsAsk(cfg, s, id, env, env.ask);
  }

  /** The turns of Issue, as a whole. */
  lemma {:induction false} IssueDeservedly(cfg: Config, s: State, id: Id, env: Env, t: State, outcome: Outcome)
    requires cfg.Valid() && id !in s.requests && t == Served(cfg, s, id, env)
    requires id in t.requests && t.requests[id] == Done(outcome)
    ensures s.trace <= t.trace && AllFor(cfg, env.ask, id, t.trace, |s.trace|)
    ensures Ends(cfg, env.ask, outcome)
    ensures cfg.backend.ByAdcs? && outcome.Delivered? ==> NamesMappedSid(cfg, env.ask, outcome.credential)
  {
    ServedDeservedly(cfg, s, id, env);
    if cfg.backend.ByAdcs? && outcome.Delivered? {
      EndToEnd.MintedNamesTheMappedSid(cfg, env.ask, outcome.credential);
    }
  }

  /** And its refusals have their causes in what the call met. */
  lemma IssueIsCaused(cfg: Config, s: State, id: Id, env: Env, t: State, outcome: Outcome)
    requires cfg.Valid() && id !in s.requests && t == Served(cfg, s, id, env)
    requires id in t.requests && t.requests[id] == Done(outcome)
    ensures s.trace <= t.trace
    ensures outcome.Refused? && outcome.reason == NotYet ==> Declines(cfg, env)
    ensures outcome.Refused? && outcome.reason == Internal ==>
      FailedIn(cfg, [env], t.trace[|s.trace|..], id) || RowLost(t.trace[|s.trace|..], id)
  {
    ServedIsCaused(cfg, s, id, env, |s.trace|);
  }

  lemma FirstTurn(cfg: Config, s: State, id: Id, env: Env)
    requires cfg.Valid() && id !in s.requests
    ensures Served(cfg, s, id, env) == Served(cfg, Arrive(cfg, s, id, env), id, env)
  {
    ServeOn(cfg, s, id, env);
  }

  /** The turn that calls the backend. */
  lemma CallingTurn(cfg: Config, s: State, id: Id, request: Request, env: Env,
                    heard: Option<Credential>, answer: Answer)
    requires cfg.Valid() && id in s.requests && s.requests[id] == Paid(request)
    requires heard == Heard(cfg, request, env) && answer == Answered(cfg, request, env)
    ensures Served(cfg, s, id, env)
            == Served(cfg, Move(s, id, AfterAnswer(request, heard, answer), [Calling(id, request, heard)]), id, env)
  {
    ServeOn(cfg, s, id, env);
  }

  /** The two turns of a request that holds its credential. */
  lemma LastTurns(cfg: Config, s: State, id: Id, m: Minting, row: Row, a: Append, env: Env)
    requires cfg.Valid() && id in s.requests && s.requests[id] == Held(m)
    requires row == RowOf(cfg, m.request, m.credential.certificate, env.time) && a == Appended(cfg, row, env)
    ensures a.Valid() && Served(cfg, s, id, env) == HandedOver(s, id, m, row, a)
  {
    var t := Book(cfg, s, id, m, env);
    ServeOn(cfg, s, id, env);
    if a.Acknowledged() {
      ServeOn(cfg, t, id, env);
    }
  }

  /** FromCertificate, then the fields recordIssuance fills in. */
  method FillRow(cfg: Config, request: Request, c: Certificate, time: int) returns (row: Row)
    ensures row == RowOf(cfg, request, c, time)
  {
    row := Row(0, [], [], [], [], [], c.serial, c.issuer, c.notBefore, c.notAfter, cfg.fingerprint(c.raw));
    row := row.(time := time);
    row := row.(caller := request.spiffeId);
    row := row.(backend := cfg.BackendName());
    row := row.(version := cfg.registry.version);
    row := row.(sid := request.sid);
    row := row.(account := request.account);
  }

  method CallOn(cfg: Config, request: Request, env: Env) returns (answer: Answer, ghost heard: Option<Credential>)
    ensures answer == Answered(cfg, request, env) && heard == Heard(cfg, request, env)
  {
    heard := Heard(cfg, request, env);
    match cfg.backend
    case ByAdcs(b) =>
      var credential := Adcs.Issue(b, request, cfg.spiffe, env.ca);
      answer := AdcsAnswer(credential);
    case Subordinate => answer := NotImplemented;
    case Other(_) => answer := env.answer;
  }

  /** New: null when something is missing, or when the snapshot is dated further ahead than the skew
      allows. An old snapshot is served. */
  method New(registry: Option<Mapping.Registry>, backend: Option<Issuance.Backend>, record: File?,
             callerLimit: Keyed?, totalLimit: TokenBucket.Limiter?, skew: int, now: int,
             spiffe: Bytes -> bool, fingerprint: Bytes -> Bytes, encode: Row -> Bytes, ghost began: Began)
    returns (b: Server?)
    requires callerLimit != null ==> callerLimit.Valid()
    requires totalLimit != null ==> totalLimit.Valid()
    requires callerLimit != null && totalLimit != null ==> totalLimit !in callerLimit.buckets.Values
    requires forall row :: NEWLINE !in encode(row)
    ensures b == null <==> registry.None? || backend.None? || record == null
                           || registry.value.generatedAt > now + (if skew == 0 then 300_000_000_000 else skew)
    ensures b != null ==>
      && b.Valid() && fresh(b) && b.record == record && b.View().file == record.content
      && b.cfg.registry == registry.value && b.cfg.backend == backend.value
      && b.callerLimit == callerLimit && b.totalLimit == totalLimit
      && b.View().requests == map[] && b.View().trace == []
    ensures b != null
            && (callerLimit != null ==> callerLimit.View() == Table(map[], began.callers))
            && (totalLimit != null ==> totalLimit.State() == TokenBucket.Fresh(totalLimit.limits, began.total))
            && record.content == began.file ==>
              b.View() == Start(b.cfg, began)
  {
    if registry.None? || backend.None? || record == null {
      return null;
    }
    var tolerance := if skew == 0 then DEFAULT_CLOCK_SKEW else skew;
    if Mapping.CheckFreshness(registry.value, now, 0, tolerance) != Mapping.Fresh {
      return null;
    }
    var cfg := Config(registry.value, spiffe,
                      if callerLimit == null then None else Some(callerLimit.policy),
                      if totalLimit == null then None else Some(totalLimit.limits),
                      backend.value, fingerprint, encode);
    b := new Server(cfg, callerLimit, totalLimit, record, began);
  }
}
