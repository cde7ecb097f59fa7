/** The issuance state machine of internal/broker: one turn of one request at a time, so that the
    turns of requests in flight may follow one another in any order.

    Each turn has at most one effect that others can see: it takes from a limiter, hands the CSR to
    the parser, calls the backend, appends to the record, or hands the credential over. The trace
    keeps these effects in the order they happened. */
module Issuance {
  import opened Adcs
  import opened ByteStrings
  import opened KeyedLimiter
  import opened Mapping
  import opened Options
  import opened RecordFile
  import TokenBucket
  import opened Wstep

  type Id = nat

  /** The names of the two backends: "adcs" and "subordinate". */
  const ADCS_NAME: Bytes := [97, 100, 99, 115]
  const SUBORDINATE_NAME: Bytes := [115, 117, 98, 111, 114, 100, 105, 110, 97, 116, 101]

  /** The backends there are, and any other that keeps to the interface. */
  datatype Backend = ByAdcs(adcs: Adcs.Backend) | Subordinate | Other(name: Bytes)

  /** What a backend's Issue returns; a credential may come without its certificate. */
  datatype Answer = NotImplemented | Failed | Minted(certificate: Option<Certificate>, chain: seq<Certificate>)

  /** One row of the record. */
  datatype Row = Row(time: int, caller: Bytes, backend: Bytes, version: Bytes, sid: Bytes, account: Bytes,
                     serial: int, issuer: Bytes, notBefore: int, notAfter: int, fingerprint: Bytes)

  /** What a broker is built from. An absent limit is the always-allowing limiter. */
  datatype Config = Config(registry: Registry, spiffe: Bytes -> bool, callers: Option<Policy>,
                           total: Option<TokenBucket.Limits>, backend: Backend,
                           fingerprint: Bytes -> Bytes, encode: Row -> Bytes) {
    ghost predicate Valid() {
      && (callers.Some? ==> callers.value.Valid())
      && (total.Some? ==> total.value.Valid())
      && (forall row :: NEWLINE !in encode(row))
    }

    function BackendName(): Bytes {
      match backend
      case ByAdcs(_) => ADCS_NAME
      case Subordinate => SUBORDINATE_NAME
      case Other(name) => name
    }
  }

  /** What the transport hands in: the proven caller, and its CSR if that parses. */
  datatype Ask = Ask(caller: Bytes, csr: Option<Csr>)

  /** Everything the outside decides during a request: the clock readings, what the backend or the
      CA behind it answers, and how the append to the record goes. */
  datatype Env = Env(ask: Ask, now: int, made: int, taken: int, at: int, answer: Answer,
                     ca: Bytes -> Option<Envelope>, time: int, wrote: nat, synced: bool)

  datatype Reason = Unauthenticated | InvalidRequest | NoMapping | NotYet | RateLimited | Internal

  datatype Outcome = Delivered(credential: Credential) | Refused(reason: Reason, retryAfter: int)

  /** A certificate that now exists: for which request, what the CA sent, and as what. */
  datatype Minting = Minting(request: Request, heard: Option<Credential>, credential: Credential)

  /** How far a request has come. */
  datatype Phase =
    | Arrived(ask: Ask)
    | Resolved(ask: Ask, account: Account)
    | Checked(request: Request)
    | Paid(request: Request)
    | Held(minting: Minting)
    | Booked(minting: Minting, row: Row)
    | Done(outcome: Outcome)

  datatype Event =
    | CallerLimit(id: Id, call: Call, ok: bool, retry: int)
    | Parsing(id: Id, caller: Bytes)
    | TotalLimit(id: Id, request: Request, at: int, ok: bool, retry: int)
    | Calling(id: Id, request: Request, heard: Option<Credential>)
    | Recording(id: Id, minting: Minting, row: Row, append: Append)
    | Delivering(id: Id, minting: Minting, row: Row)

  /** The two limits, the record's file, the requests, and what has happened. */
  datatype State = State(callers: Table, total: TokenBucket.Bucket, file: Bytes, requests: map<Id, Phase>,
                         trace: seq<Event>)

  // ---------------------------------------------------------------- one turn

  function Move(s: State, id: Id, phase: Phase, effects: seq<Event>): State {
    s.(requests := s.requests[id := phase], trace := s.trace + effects)
  }

  function Refuse(s: State, id: Id, reason: Reason, effects: seq<Event>): State {
    Move(s, id, Done(Refused(reason, 0)), effects)
  }

  /** The caller's ID is checked again, then its own limit is taken. */
  ghost function Arrive(cfg: Config, s: State, id: Id, env: Env): State
    requires cfg.Valid()
  {
    if !cfg.spiffe(env.ask.caller) then Refuse(s, id, Unauthenticated, [])
    else if cfg.callers.None? then Move(s, id, Arrived(env.ask), [])
    else
      var call := Call(env.ask.caller, env.now, env.made, env.taken);
      var got := KeyedLimiter.Answer(cfg.callers.value, s.callers, call);
      Move(s.(callers := AfterCall(cfg.callers.value, s.callers, call)), id,
           if got.ok then Arrived(env.ask) else Done(Refused(RateLimited, got.retry)),
           [CallerLimit(id, call, got.ok, got.retry)])
  }

  function Resolve(cfg: Config, s: State, id: Id, ask: Ask): State {
    match Mapping.Lookup(cfg.registry, ask.caller)
    case None => Refuse(s, id, NoMapping, [])
    case Some(account) => Move(s, id, Resolved(ask, account), [])
  }

  function Assembled(ask: Ask, csr: Csr, account: Account): Request {
    Request(csr, ask.caller, account.sid, account.name)
  }

  function Check(cfg: Config, s: State, id: Id, ask: Ask, account: Account): State {
    var effects := [Parsing(id, ask.caller)];
    if ask.csr.None? then Refuse(s, id, InvalidRequest, effects)
    else
      var request := Assembled(ask, ask.csr.value, account);
      if ValidRequest(request, cfg.spiffe) then Move(s, id, Checked(request), effects)
      else Refuse(s, id, InvalidRequest, effects)
  }

  ghost function Pay(cfg: Config, s: State, id: Id, request: Request, at: int): State
    requires cfg.Valid()
  {
    if cfg.total.None? then Move(s, id, Paid(request), [TotalLimit(id, request, at, true, 0)])
    else
      var got := TokenBucket.Take(cfg.total.value, s.total, at);
      Move(s.(total := got.bucket), id, if got.ok then Paid(request) else Done(Refused(RateLimited, got.retry)),
           [TotalLimit(id, request, at, got.ok, got.retry)])
  }

  /** The credential the CA was heard to send, where there is one. */
  function Heard(cfg: Config, request: Request, env: Env): Option<Credential> {
    match cfg.backend
    case ByAdcs(b) => Hears(b, request, cfg.spiffe, env.ca)
    case _ => None
  }

  function Answered(cfg: Config, request: Request, env: Env): Answer {
    match cfg.backend
    case ByAdcs(b) => AdcsAnswer(Adcs.Answer(b, request, cfg.spiffe, env.ca))
    case Subordinate => NotImplemented
    case Other(_) => env.answer
  }

  function AdcsAnswer(credential: Option<Credential>): Answer {
    match credential
    case None => Failed
    case Some(c) => Minted(Some(c.certificate), c.chain)
  }

  /** Where the backend's answer leaves the request. */
  function AfterAnswer(request: Request, heard: Option<Credential>, answer: Answer): Phase {
    match answer
    case NotImplemented => Done(Refused(NotYet, 0))
    case Failed => Done(Refused(Internal, 0))
    case Minted(certificate, chain) =>
      if certificate.None? then Done(Refused(Internal, 0))
      else Held(Minting(request, heard, Credential(certificate.value, chain)))
  }

  function CallBackend(cfg: Config, s: State, id: Id, request: Request, env: Env): State {
    var heard := Heard(cfg, request, env);
    Move(s, id, AfterAnswer(request, heard, Answered(cfg, request, env)), [Calling(id, request, heard)])
  }

  /** FromCertificate and the fields recordIssuance adds. */
  function RowOf(cfg: Config, request: Request, c: Certificate, time: int): Row {
    Row(time, request.spiffeId, cfg.BackendName(), cfg.registry.version, request.sid, request.account,
        c.serial, c.issuer, c.notBefore, c.notAfter, cfg.fingerprint(c.raw))
  }

  /** How the append goes: no more can be written than there is. */
  function Appended(cfg: Config, row: Row, env: Env): (a: Append)
    ensures a.row == cfg.encode(row) && a.wrote <= |Line(a.row)|
  {
    var line := cfg.encode(row);
    Append(line, if env.wrote <= |Line(line)| then env.wrote else |Line(line)|, env.synced)
  }

  /** The state once an append is made. */
  function Kept(s: State, id: Id, m: Minting, row: Row, a: Append): State
    requires a.wrote <= |Line(a.row)|
  {
    Move(s.(file := s.file + Line(a.row)[..a.wrote]), id,
         if a.Acknowledged() then Booked(m, row) else Done(Refused(Internal, 0)), [Recording(id, m, row, a)])
  }

  function Book(cfg: Config, s: State, id: Id, m: Minting, env: Env): State {
    var row := RowOf(cfg, m.request, m.credential.certificate, env.time);
    var append := Appended(cfg, row, env);
    Kept(s, id, m, row, append)
  }

  function Deliver(s: State, id: Id, m: Minting, row: Row): State {
    Move(s, id, Done(Delivered(m.credential)), [Delivering(id, m, row)])
  }

  /** One turn of request `id`, which begins the request if it is a new one. */
  ghost function Turn(cfg: Config, s: State, id: Id, env: Env): State
    requires cfg.Valid()
  {
    if id !in s.requests then Arrive(cfg, s, id, env)
    else
      match s.requests[id]
      case Arrived(ask) => Resolve(cfg, s, id, ask)
      case Resolved(ask, account) => Check(cfg, s, id, ask, account)
      case Checked(request) => Pay(cfg, s, id, request, env.at)
      case Paid(request) => CallBackend(cfg, s, id, request, env)
      case Held(m) => Book(cfg, s, id, m, env)
      case Booked(m, row) => Deliver(s, id, m, row)
      case Done(_) => s
  }

  // ---------------------------------------------------------------- runs

  datatype Played = Played(id: Id, env: Env)

  /** Any turns of any requests, in any order. */
  ghost function Run(cfg: Config, s: State, turns: seq<Played>): State
    requires cfg.Valid()
  {
    if turns == [] then s
    else
      var last := turns[|turns| - 1];
      Turn(cfg, Run(cfg, s, turns[..|turns| - 1]), last.id, last.env)
  }

  /** When the limiters were made, and what the record held. */
  datatype Began = Began(callers: int, total: int, file: Bytes)

  /** A broker that has served nobody yet, with fresh limiters. */
  ghost function Start(cfg: Config, began: Began): State {
    State(Table(map[], began.callers),
          if cfg.total.Some? then TokenBucket.Fresh(cfg.total.value, began.total)
          else TokenBucket.Bucket(0.0, began.total), began.file, map[], [])
  }

  // ---------------------------------------------------------------- one request alone

  const TURNS: nat := 7

  /** Not yet past the total limit. */
  predicate Early(phase: Phase) {
    phase.Arrived? || phase.Resolved? || phase.Checked?
  }

  /** How many turns a request has left at most. */
  function Left(s: State, id: Id): nat {
    if id !in s.requests then TURNS
    else
      match s.requests[id]
      case Arrived(_) => 6
      case Resolved(_, _) => 5
      case Checked(_) => 4
      case Paid(_) => 3
      case Held(_) => 2
      case Booked(_, _) => 1
      case Done(_) => 0
  }

  lemma EarlyTurnCounts(cfg: Config, s: State, id: Id, env: Env)
    requires cfg.Valid() && (id in s.requests ==> Early(s.requests[id]))
    ensures Left(Turn(cfg, s, id, env), id) < Left(s, id)
    ensures Turn(cfg, s, id, env).requests - {id} == s.requests - {id}
  {
  }

  lemma LateTurnCounts(cfg: Config, s: State, id: Id, env: Env)
    requires cfg.Valid() && id in s.requests && (s.requests[id].Paid? || s.requests[id].Held? || s.requests[id].Booked?)
    ensures Left(Turn(cfg, s, id, env), id) < Left(s, id)
    ensures Turn(cfg, s, id, env).requests - {id} == s.requests - {id}
  {
  }

  /** A turn brings its own request nearer to its end, and leaves all others where they are. */
  lemma TurnCounts(cfg: Config, s: State, id: Id, env: Env)
    requires cfg.Valid()
    ensures var t := Turn(cfg, s, id, env);
      && (if Left(s, id) == 0 then t == s else Left(t, id) < Left(s, id))
      && t.requests - {id} == s.requests - {id}
  {
    if id !in s.requests || Early(s.requests[id]) {
      EarlyTurnCounts(cfg, s, id, env);
    } else if !s.requests[id].Done? {
      LateTurnCounts(cfg, s, id, env);
    }
  }

  /** One request's turns, with no other's in between, until it is done. */
  ghost function Served(cfg: Config, s: State, id: Id, env: Env): State
    requires cfg.Valid()
    decreases Left(s, id)
  {
    if Left(s, id) == 0 then s
    else
      TurnCounts(cfg, s, id, env);
      Served(cfg, Turn(cfg, s, id, env), id, env)
  }

  /** A turn, and then the rest. */
  lemma ServeOn(cfg: Config, s: State, id: Id, env: Env)
    requires cfg.Valid()
    ensures Served(cfg, s, id, env) == Served(cfg, Turn(cfg, s, id, env), id, env)
  {
    TurnCounts(cfg, s, id, env);
  }

  // ---------------------------------------------------------------- what a trace shows

  /** The requests a backend may be handed: everything in them but the CSR comes from the snapshot
      entry of the proven caller, and possession of the CSR's key was proven. */
  predicate Authorised(cfg: Config, r: Request) {
    && cfg.spiffe(r.spiffeId) && r.csr.possession
    && Mapping.Lookup(cfg.registry, r.spiffeId) == Some(Account(r.sid, r.account))
  }

  /** The credential is what the backend made of the CA's answer. */
  predicate Vouched(cfg: Config, m: Minting) {
    cfg.backend.ByAdcs? ==>
      m.heard.Some? && Verified(m.heard.value, m.request.sid, cfg.backend.adcs.signedBy) == Some(m.credential)
  }

  function Rank(e: Event): nat {
    match e
    case CallerLimit(_, _, _, _) => 0
    case Parsing(_, _) => 1
    case TotalLimit(_, _, _, _, _) => 2
    case Calling(_, _, _) => 3
    case Recording(_, _, _, _) => 4
    case Delivering(_, _, _) => 5
  }

  /** The appends to the record, in order. */
  function Appends(trace: seq<Event>): seq<Append> {
    if trace == [] then []
    else
      var e := trace[|trace| - 1];
      Appends(trace[..|trace| - 1]) + (if e.Recording? then [e.append] else [])
  }

  /** The calls of the per-caller limiter, in order. */
  function CallerCalls(trace: seq<Event>): seq<Call> {
    if trace == [] then []
    else
      var e := trace[|trace| - 1];
      CallerCalls(trace[..|trace| - 1]) + (if e.CallerLimit? then [e.call] else [])
  }

  /** The clock readings at which the total limit was asked. */
  function Readings(trace: seq<Event>): seq<int> {
    if trace == [] then []
    else
      var e := trace[|trace| - 1];
      Readings(trace[..|trace| - 1]) + (if e.TotalLimit? then [e.at] else [])
  }

  /** How many tokens of the total limit were taken. */
  function Tokens(trace: seq<Event>): nat {
    if trace == [] then 0
    else
      var e := trace[|trace| - 1];
      Tokens(trace[..|trace| - 1]) + (if e.TotalLimit? && e.ok then 1 else 0)
  }

  function BackendCalls(trace: seq<Event>): nat {
    if trace == [] then 0
    else BackendCalls(trace[..|trace| - 1]) + (if trace[|trace| - 1].Calling? then 1 else 0)
  }

  /** The requests that hold a token they have not used yet. */
  function Waiting(s: State): set<Id> {
    set id | id in s.requests && s.requests[id].Paid?
  }
}
