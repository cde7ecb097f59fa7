/** From the mapping snapshot to the delivered certificate, with the adcs backend. */
module EndToEnd {
  import opened Adcs
  import opened ByteStrings
  import Cmc
  import Der
  import opened Issuance
  import opened IssuanceOwners
  import opened IssuanceRuns
  import opened Mapping
  import Names
  import opened NtdsExt
  import opened Options
  import Pkcs7
  import Pkcs7Reader
  import opened Wstep

  /** Once a caller is mapped, the only thing about its request that validation can refuse is the
      CSR: all else was checked when the snapshot was loaded. */
  lemma OnlyPossessionIsLeft(cfg: Config, s: State, id: Id, ask: Ask, account: Account)
    requires Trusted(cfg.registry, cfg.spiffe)
    requires cfg.spiffe(ask.caller) && Mapping.Lookup(cfg.registry, ask.caller) == Some(account)
    ensures Check(cfg, s, id, ask, account).requests[id]
            == if ask.csr.Some? && ask.csr.value.possession then Checked(Assembled(ask, ask.csr.value, account))
               else Done(Refused(InvalidRequest, 0))
  {
    var e := Entry(ask.caller, account.sid, account.name);
    assert ValidEntry(e, cfg.spiffe);
  }

  /** An authorised request reaches the CA exactly when its entry has an account name, its CSR some
      bytes, the backend is usable and its key signs: no admitted account name is ever in the way. */
  lemma AsksForEveryMappedAccount(cfg: Config, r: Request)
    requires Trusted(cfg.registry, cfg.spiffe) && cfg.backend.ByAdcs? && Authorised(cfg, r)
    ensures var b := cfg.backend.adcs;
      Asks(b, r, cfg.spiffe) <==>
        && r.account != [] && r.csr.raw != [] && b.Valid()
        && b.sign(Pkcs7.SignedDigest(Der.Encode(Cmc.PkiData(r.csr.raw, b.template, r.account)), b.sha256)).Some?
  {
    var e := Entry(r.spiffeId, r.sid, r.account);
    assert ValidEntry(e, cfg.spiffe);
    if r.account != [] {
      Names.AccountsAreRequesters(r.account);
    }
  }

  /** The bytes, read as the CA does, ask for this CSR and this account under the agent's signature. */
  ghost predicate AsksFor(b: Adcs.Backend, message: Bytes, csr: Csr, account: Account) {
    && Pkcs7Reader.ReadVerifiable(message).Some?
    && var v := Pkcs7Reader.ReadVerifiable(message).value;
      && Cmc.ReadPkiData(v.content) == Some(Cmc.PkiRequest(csr.raw, b.template, account.name))
      && v.digest == b.sha256(v.content) && b.sign(b.sha256(v.signedBytes)) == Some(v.signature)
      && b.agent.serial.Some? && v.signer == Pkcs7Reader.SignerOf(b.agent, b.agent.serial.value)
  }

  lemma {:induction false} MessageAsksFor(cfg: Config, r: Request)
    requires cfg.backend.ByAdcs? && Authorised(cfg, r) && Asks(cfg.backend.adcs, r, cfg.spiffe)
    requires Der.Countable(|Message(cfg.backend.adcs, r.csr.raw, r.account)|)
    ensures AsksFor(cfg.backend.adcs, Message(cfg.backend.adcs, r.csr.raw, r.account), r.csr,
                    Mapping.Lookup(cfg.registry, r.spiffeId).value)
  {
    MessageSaysWhatWasAsked(cfg.backend.adcs, r.csr.raw, r.account);
  }

  /** What goes to the CA for this request asks for the ask's CSR and its caller's account. */
  ghost predicate CaIsAskedFor(cfg: Config, ask: Ask, r: Request)
    requires cfg.backend.ByAdcs? && Asks(cfg.backend.adcs, r, cfg.spiffe)
  {
    && ask.csr.Some? && Mapping.Lookup(cfg.registry, ask.caller).Some?
    && AsksFor(cfg.backend.adcs, Message(cfg.backend.adcs, r.csr.raw, r.account), ask.csr.value,
               Mapping.Lookup(cfg.registry, ask.caller).value)
  }

  lemma {:induction false} RequestAsksFor(cfg: Config, ask: Ask, r: Request)
    requires cfg.backend.ByAdcs? && For(cfg, ask, r) && Asks(cfg.backend.adcs, r, cfg.spiffe)
    requires Der.Countable(|Message(cfg.backend.adcs, r.csr.raw, r.account)|)
    ensures CaIsAskedFor(cfg, ask, r)
  {
    MessageAsksFor(cfg, r);
  }

  /** What is heard is what one of the request's own turns got for the message. */
  ghost predicate HeardFor(cfg: Config, turns: seq<Played>, e: Event)
    requires cfg.backend.ByAdcs? && e.Calling? && Asks(cfg.backend.adcs, e.request, cfg.spiffe)
  {
    var b := cfg.backend.adcs;
    exists k :: 0 <= k < |turns| && turns[k].id == e.id
      && e.heard == Received(b, turns[k].env.ca(Message(b, e.request.csr.raw, e.request.account)))
  }

  lemma HeardInItsTurn(cfg: Config, turns: seq<Played>, e: Event)
    requires cfg.backend.ByAdcs? && e.Calling? && Asks(cfg.backend.adcs, e.request, cfg.spiffe)
    requires HeardBy(cfg, turns, e)
    ensures HeardFor(cfg, turns, e)
  {
  }

  /** In every run, what goes to the CA in a request's turn asks for the account the snapshot gives the
      caller that opened the request, over the CSR that caller brought, under a signature the CA can
      check; and what is heard is what one of the request's own turns got for that message alone. */
  lemma {:induction false} CaIsAskedForTheMappedAccount(cfg: Config, began: Began, turns: seq<Played>, e: Event)
    requires cfg.Valid() && cfg.backend.ByAdcs? && e in TraceOf(cfg, began, turns) && e.Calling?
    requires Asks(cfg.backend.adcs, e.request, cfg.spiffe)
    requires Der.Countable(|Message(cfg.backend.adcs, e.request.csr.raw, e.request.account)|)
    ensures AskOf(turns, e.id).Some?
    ensures CaIsAskedFor(cfg, AskOf(turns, e.id).value, e.request) && HeardFor(cfg, turns, e)
  {
    EventIsForItsAsk(cfg, began, turns, e);
    HeardInItsTurn(cfg, turns, e);
    RequestAsksFor(cfg, AskOf(turns, e.id).value, e.request);
  }

  /** The certificate names exactly this SID, byte for byte as the builder would write it; the chain is
      the one the CA sent, rearranged, without the leaf and with a certificate that signed it first. */
  ghost predicate NamesSid(b: Adcs.Backend, c: Credential, sid: Bytes, heard: Credential) {
    var exts := c.certificate.extensions;
    && FromExtensions(exts) == Named(sid)
    && FirstAt(exts) < |exts|
    && Build(sid) == Some(Extension(SECURITY_EXT, false, exts[FirstAt(exts)].value))
    && heard.certificate == c.certificate && multiset(c.chain) == multiset(heard.chain)
    && c.chain != [] && b.signedBy(c.certificate, c.chain[0])
  }

  lemma VouchedNames(cfg: Config, m: Minting)
    requires cfg.backend.ByAdcs? && Vouched(cfg, m)
    ensures NamesSid(cfg.backend.adcs, m.credential, m.request.sid, m.heard.value)
  {
    VerifiedCredentials(m.heard.value, m.request.sid, cfg.backend.adcs.signedBy);
  }

  /** Every credential a run delivers names exactly the SID the snapshot gives the caller that opened
      the request, was minted over the CSR that caller brought, and is on record as that caller's. */
  lemma {:induction false} DeliveredNamesTheMappedSid(cfg: Config, began: Began, turns: seq<Played>, e: Event)
    requires cfg.Valid() && cfg.backend.ByAdcs? && e in TraceOf(cfg, began, turns) && e.Delivering?
    ensures AskOf(turns, e.id).Some?
    ensures var ask := AskOf(turns, e.id).value;
      && Mapping.Lookup(cfg.registry, ask.caller).Some? && e.minting.heard.Some?
      && NamesSid(cfg.backend.adcs, e.minting.credential, Mapping.Lookup(cfg.registry, ask.caller).value.sid,
                  e.minting.heard.value)
      && ask.csr == Some(e.minting.request.csr) && e.row.caller == ask.caller
      && e.row.backend == [0x61, 0x64, 0x63, 0x73]
  {
    EventIsForItsAsk(cfg, began, turns, e);
    VouchedNames(cfg, e.minting);
  }

  /** So does every credential that an ask ends in, in whatever company it was served. */
  lemma MintedNamesTheMappedSid(cfg: Config, ask: Ask, credential: Credential)
    requires cfg.backend.ByAdcs? && Ends(cfg, ask, Delivered(credential))
    ensures Mapping.Lookup(cfg.registry, ask.caller).Some?
    ensures FromExtensions(credential.certificate.extensions)
            == Named(Mapping.Lookup(cfg.registry, ask.caller).value.sid)
  {
    var m: Minting :| m.credential == credential && MintedFor(cfg, ask, m);
    VouchedNames(cfg, m);
  }

  lemma OutcomeNamesTheMappedSid(cfg: Config, began: Began, turns: seq<Played>, id: Id, credential: Credential)
    requires cfg.Valid() && cfg.backend.ByAdcs?
    requires var s := Run(cfg, Start(cfg, began), turns);
      id in s.requests && s.requests[id] == Done(Delivered(credential))
    ensures AskOf(turns, id).Some?
    ensures var ask := AskOf(turns, id).value;
      && Mapping.Lookup(cfg.registry, ask.caller).Some?
      && FromExtensions(credential.certificate.extensions)
         == Named(Mapping.Lookup(cfg.registry, ask.caller).value.sid)
  {
    OutcomeIsForItsAsk(cfg, began, turns, id);
    MintedNamesTheMappedSid(cfg, AskOf(turns, id).value, credential);
  }

  lemma RearrangedLeavesOutTheLeaf(c: Credential, heard: Credential)
    requires heard.certificate == c.certificate && multiset(c.chain) == multiset(heard.chain)
    requires heard.certificate.raw !in Raws(heard.chain)
    ensures forall k :: 0 <= k < |c.chain| ==> c.chain[k].raw != c.certificate.raw
  {
    forall k | 0 <= k < |c.chain|
      ensures c.chain[k].raw != c.certificate.raw
    {
      assert c.chain[k] in multiset(heard.chain);
      var i :| 0 <= i < |heard.chain| && heard.chain[i] == c.chain[k];
      assert Raws(heard.chain)[i] == c.chain[k].raw;
    }
  }

  lemma ReceivedLeavesOutTheLeaf(cfg: Config, r: Request, env: Env)
    requires cfg.backend.ByAdcs? && Heard(cfg, r, env).Some?
    ensures var heard := Heard(cfg, r, env).value; heard.certificate.raw !in Raws(heard.chain)
  {
    var b := cfg.backend.adcs;
    RstrcIff(env.ca(Message(b, r.csr.raw, r.account)).value, b.parse);
  }

  /** A delivered credential came of a reply that one of the request's own turns heard. */
  lemma DeliveredWasHeard(cfg: Config, began: Began, turns: seq<Played>, j: nat) returns (k: nat)
    requires cfg.Valid() && cfg.backend.ByAdcs?
    requires j < |TraceOf(cfg, began, turns)| && TraceOf(cfg, began, turns)[j].Delivering?
    ensures var e := TraceOf(cfg, began, turns)[j];
      && k < |turns| && turns[k].id == e.id && e.minting.heard.Some?
      && e.minting.heard == Heard(cfg, e.minting.request, turns[k].env)
  {
    var t := TraceOf(cfg, began, turns);
    var i := DeliveriesAreOnRecord(cfg, began, turns, j);
    RunJustifies(cfg, began, turns, i);
    var e := Calling(t[i].id, t[i].minting.request, t[i].minting.heard);
    assert e in t[..i] && e in t;
    EventIsForItsAsk(cfg, began, turns, e);
    k :| 0 <= k < |turns| && turns[k].id == e.id && e.heard == Heard(cfg, e.request, turns[k].env);
  }

  /** A delivered chain leaves out the leaf. */
  lemma {:induction false} DeliveredChainLeavesOutTheLeaf(cfg: Config, began: Began, turns: seq<Played>, j: nat)
    requires cfg.Valid() && cfg.backend.ByAdcs?
    requires j < |TraceOf(cfg, began, turns)| && TraceOf(cfg, began, turns)[j].Delivering?
    ensures var c := TraceOf(cfg, began, turns)[j].minting.credential;
      forall k :: 0 <= k < |c.chain| ==> c.chain[k].raw != c.certificate.raw
  {
    var e := TraceOf(cfg, began, turns)[j];
    DeliveredNamesTheMappedSid(cfg, began, turns, e);
    var k := DeliveredWasHeard(cfg, began, turns, j);
    ReceivedLeavesOutTheLeaf(cfg, e.minting.request, turns[k].env);
    RearrangedLeavesOutTheLeaf(e.minting.credential, e.minting.heard.value);
  }

  /** And the snapshot's SID is its one entry's for that caller, in whatever order the entries came. */
  lemma DeliveredNamesTheEntrysSid(cfg: Config, snapshot: Snapshot, began: Began, turns: seq<Played>, e: Event)
    requires cfg.Valid() && cfg.backend.ByAdcs? && cfg.registry.entries == Entries(snapshot.entries)
    requires DistinctIds(snapshot.entries)
    requires e in TraceOf(cfg, began, turns) && e.Delivering?
    ensures AskOf(turns, e.id).Some?
    ensures var caller := AskOf(turns, e.id).value.caller;
      exists entry :: (
        && entry in snapshot.entries && entry.spiffeId == caller
        && FromExtensions(e.minting.credential.certificate.extensions) == Named(entry.sid)
        && (forall other :: other in snapshot.entries && other.spiffeId == caller ==> other == entry))
  {
    DeliveredNamesTheMappedSid(cfg, began, turns, e);
    EntriesAreTheMap(snapshot.entries);
    var caller := AskOf(turns, e.id).value.caller;
    var entry :| entry in snapshot.entries && entry.spiffeId == caller;
    forall other | other in snapshot.entries && other.spiffeId == caller
      ensures other == entry
    {
      SameIdSameEntry(snapshot.entries, other, entry);
    }
  }

  /** A caller is refused for having no mapping only if no entry of the snapshot has its ID; and if none
      has, that or an earlier refusal is how its request ends. */
  lemma NoMappingIff(cfg: Config, snapshot: Snapshot, began: Began, turns: seq<Played>, id: Id)
    requires cfg.Valid() && cfg.registry.entries == Entries(snapshot.entries) && DistinctIds(snapshot.entries)
    requires var s := Run(cfg, Start(cfg, began), turns); id in s.requests && s.requests[id].Done?
    ensures AskOf(turns, id).Some?
    ensures var caller := AskOf(turns, id).value.caller;
      var outcome := Run(cfg, Start(cfg, began), turns).requests[id].outcome;
      var mapped := exists entry :: entry in snapshot.entries && entry.spiffeId == caller;
      && (outcome.Refused? && outcome.reason == NoMapping ==> cfg.spiffe(caller) && !mapped)
      && (!mapped ==> outcome.Refused? && outcome.reason in {Unauthenticated, RateLimited, NoMapping})
  {
    OutcomeIsForItsAsk(cfg, began, turns, id);
    LookupIff(cfg.registry, snapshot.entries, AskOf(turns, id).value.caller);
  }

  lemma SameIdSameEntry(entries: seq<Entry>, a: Entry, b: Entry)
    requires DistinctIds(entries) && a in entries && b in entries && a.spiffeId == b.spiffeId
    ensures a == b
  {
    var i, k :| 0 <= i < |entries| && 0 <= k < |entries| && entries[i] == a && entries[k] == b;
    assert i == k;
  }
}
