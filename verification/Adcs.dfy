/** The adcs backend: what it sends to the CA, and what it demands of what comes back. */
module Adcs {
  import opened ByteStrings
  import opened Cmc
  import opened Der
  import DerValues
  import Mapping
  import opened Names
  import opened NtdsExt
  import opened Options
  import opened Pkcs7
  import opened Pkcs7Reader
  import Sid
  import opened Wstep

  /** A CSR as parsed, and whether its proof of possession holds. */
  datatype Csr = Csr(raw: Bytes, possession: bool)

  /** One authenticated ask. */
  datatype Request = Request(csr: Csr, spiffeId: Bytes, sid: Bytes, account: Bytes)

  /** CheckSignatureFrom(leaf, issuer) == nil. */
  type SignedBy = (Certificate, Certificate) -> bool

  // ---------------------------------------------------------------- verify

  /** The first certificate of the chain that signed the leaf; past the end if none did. */
  function IssuerAt(leaf: Certificate, chain: seq<Certificate>, signedBy: SignedBy): (i: nat)
    ensures i <= |chain| && (i < |chain| ==> signedBy(leaf, chain[i]))
    ensures forall j :: 0 <= j < i ==> !signedBy(leaf, chain[j])
  {
    if chain == [] || signedBy(leaf, chain[0]) then 0 else 1 + IssuerAt(leaf, chain[1..], signedBy)
  }

  function Swapped(chain: seq<Certificate>, i: nat): seq<Certificate>
    requires i < |chain|
  {
    chain[0 := chain[i]][i := chain[0]]
  }

  /** verify: the credential as it is handed on, or nothing. */
  function Verified(cred: Credential, sid: Bytes, signedBy: SignedBy): Option<Credential> {
    var i := IssuerAt(cred.certificate, cred.chain, signedBy);
    if FromExtensions(cred.certificate.extensions) != Named(sid) || i == |cred.chain| then None
    else Some(cred.(chain := Swapped(cred.chain, i)))
  }

  /** A credential is accepted if and only if its certificate names the SID that was asked for and any
      certificate of its chain, wherever it stands, signed the leaf. */
  lemma VerifiedIff(cred: Credential, sid: Bytes, signedBy: SignedBy)
    ensures Verified(cred, sid, signedBy).Some? <==>
            && FromExtensions(cred.certificate.extensions) == Named(sid)
            && exists j :: 0 <= j < |cred.chain| && signedBy(cred.certificate, cred.chain[j])
  {
    var i := IssuerAt(cred.certificate, cred.chain, signedBy);
    assert forall j :: 0 <= j < i ==> !signedBy(cred.certificate, cred.chain[j]);
  }

  /** verify, swapping in place. */
  method Verify(leaf: Option<Certificate>, chain: array<Certificate>, sid: Bytes, signedBy: SignedBy) returns (ok: bool)
    modifies chain
    ensures ok <==> leaf.Some? && Verified(Credential(leaf.value, old(chain[..])), sid, signedBy).Some?
    ensures ok ==>
      Some(Credential(leaf.value, chain[..])) == Verified(Credential(leaf.value, old(chain[..])), sid, signedBy)
    ensures !ok ==> chain[..] == old(chain[..])
    ensures ok <==> leaf.Some? && FromExtensions(leaf.value.extensions) == Named(sid)
                    && exists j :: 0 <= j < chain.Length && signedBy(leaf.value, old(chain[j]))
  {
    if leaf.None? {
      return false;
    }
    var named := FromExtensions(leaf.value.extensions);
    if !named.Named? || named.sid != sid {
      return false;
    }
    var issuerAt := -1;
    for i := 0 to chain.Length
      invariant issuerAt == -1
      invariant forall j :: 0 <= j < i ==> !signedBy(leaf.value, chain[j])
    {
      if signedBy(leaf.value, chain[i]) {
        issuerAt := i;
        break;
      }
    }
    IssuerAtIs(leaf.value, chain[..], signedBy, if issuerAt < 0 then chain.Length else issuerAt);
    if issuerAt < 0 {
      return false;
    }
    ghost var before := chain[..];
    chain[0], chain[issuerAt] := chain[issuerAt], chain[0];
    assert chain[..] == Swapped(before, issuerAt);
    ok := true;
  }

  lemma IssuerAtIs(leaf: Certificate, chain: seq<Certificate>, signedBy: SignedBy, i: nat)
    requires i <= |chain| && (i < |chain| ==> signedBy(leaf, chain[i]))
    requires forall j :: 0 <= j < i ==> !signedBy(leaf, chain[j])
    ensures IssuerAt(leaf, chain, signedBy) == i
  {
    var k := IssuerAt(leaf, chain, signedBy);
  }

  /** What is handed on names exactly the SID that was asked for, and its chain is the received one
      with a certificate that signed the leaf moved to the front. */
  lemma VerifiedCredentials(cred: Credential, sid: Bytes, signedBy: SignedBy)
    requires Verified(cred, sid, signedBy).Some?
    ensures var v := Verified(cred, sid, signedBy).value;
      && v.certificate == cred.certificate
      && FromExtensions(v.certificate.extensions) == Named(sid)
      && multiset(v.chain) == multiset(cred.chain)
      && v.chain != [] && signedBy(v.certificate, v.chain[0])
    ensures var at := FirstAt(cred.certificate.extensions);
      && at < |cred.certificate.extensions|
      && Build(sid) == Some(Extension(SECURITY_EXT, false, cred.certificate.extensions[at].value))
  {
    CertificateNamesSid(cred.certificate.extensions, sid);
    SwapPermutes(cred.chain, IssuerAt(cred.certificate, cred.chain, signedBy));
  }

  lemma SwapPermutes(chain: seq<Certificate>, i: nat)
    requires i < |chain|
    ensures multiset(Swapped(chain, i)) == multiset(chain)
    ensures Swapped(chain, i)[0] == chain[i]
  {
    var once := chain[0 := chain[i]];
    UpdateCounts(chain, 0, chain[i]);
    UpdateCounts(once, i, chain[0]);
  }

  lemma UpdateCounts(chain: seq<Certificate>, i: nat, c: Certificate)
    requires i < |chain|
    ensures multiset(chain[i := c]) == multiset(chain) - multiset{chain[i]} + multiset{c}
    ensures chain[i] in multiset(chain)
  {
  }

  // ---------------------------------------------------------------- Issue

  /** The backend's configuration, and the cryptography and certificate parser it uses. */
  datatype Backend = Backend(template: Bytes, agent: Agent, agentIsValid: bool,
                             sha256: Bytes -> Bytes, sign: Bytes -> Option<Bytes>, signedBy: SignedBy,
                             parse: Parser) {
    /** What buildCMC needs of it; New has checked no more than the template and the agent. */
    predicate Valid() {
      ValidTemplate(template) && agentIsValid && !agent.key.OtherKey? && agent.serial.Some?
    }
  }

  /** buildCMC. */
  method BuildCmc(b: Backend, csr: Bytes, requester: Bytes) returns (r: Option<Bytes>)
    ensures r.Some? <==> csr != [] && b.Valid() && ValidRequester(requester)
                         && b.sign(SignedDigest(Encode(PkiData(csr, b.template, requester)), b.sha256)).Some?
    ensures r.Some? ==> r.value == Message(b, csr, requester)
  {
    if csr == [] || !b.agentIsValid || !ValidTemplate(b.template) || !ValidRequester(requester) {
      return None;
    }
    var pkiData := BuildPkiData(csr, b.template, requester);
    if pkiData.None? {
      return None;
    }
    r := SignPkiData(pkiData.value, b.agent, b.sha256, b.sign);
  }

  /** The bytes that go out for a request. */
  function Message(b: Backend, csr: Bytes, requester: Bytes): Bytes
    requires b.Valid() && b.sign(SignedDigest(Encode(PkiData(csr, b.template, requester)), b.sha256)).Some?
  {
    var pkiData := Encode(PkiData(csr, b.template, requester));
    Encode(SignedMessage(pkiData, b.agent, b.agent.serial.value, b.sha256(pkiData),
                         b.sign(SignedDigest(pkiData, b.sha256)).value))
  }

  /** Reading the message as the CA does - the signed content, then the request in it - gives back
      the workload's CSR, the configured template and the account asked for, under a signature
      over the bytes that the verifier recomputes. */
  lemma {:induction false} MessageSaysWhatWasAsked(b: Backend, csr: Bytes, requester: Bytes)
    requires b.Valid() && ValidRequester(requester)
    requires b.sign(SignedDigest(Encode(PkiData(csr, b.template, requester)), b.sha256)).Some?
    requires Countable(|Message(b, csr, requester)|)
    ensures ReadVerifiable(Message(b, csr, requester)).Some?
    ensures var v := ReadVerifiable(Message(b, csr, requester)).value;
      && ReadPkiData(v.content) == Some(PkiRequest(csr, b.template, requester))
      && v.digest == b.sha256(v.content)
      && b.sign(b.sha256(v.signedBytes)) == Some(v.signature)
      && v.version == 3 && v.digestAlgorithms == [Sha256Algorithm()]
      && v.signer == SignerOf(b.agent, b.agent.serial.value)
  {
    var data := PkiData(csr, b.template, requester);
    var pkiData := Encode(data);
    var digest := b.sha256(pkiData);
    var signature := b.sign(SignedDigest(pkiData, b.sha256)).value;
    var message := SignedMessage(pkiData, b.agent, b.agent.serial.value, digest, signature);
    CountablePart(|message.body|, |Encode(message)|);
    SignatureIsVerifiable(pkiData, b.agent, b.agent.serial.value, digest, signature);
    ContentIsShorter(pkiData, b.agent, b.agent.serial.value, digest, signature);
    CountablePart(|data.body|, |Encode(message)|);
    PkiDataReadsBack(csr, b.template, requester);
  }

  lemma {:induction false} ContentIsShorter(pkiData: Bytes, agent: Agent, serial: int, digest: Bytes, signature: Bytes)
    ensures |pkiData| <= |Encode(SignedMessage(pkiData, agent, serial, digest, signature))|
  {
    MessageIsLonger(pkiData, agent, SignerInfo(agent, serial, digest, signature));
  }

  lemma MessageIsLonger(pkiData: Bytes, agent: Agent, info: Tlv)
    ensures |pkiData| <= |Encode(ContentInfo(SignedData(pkiData, agent, info)))|
  {
    EncapsulatedIsLonger(pkiData);
    SignedDataIsLonger(pkiData, agent, info);
    WrappedIsLonger(SIGNED_DATA, SignedData(pkiData, agent, info));
  }

  lemma SignedDataIsLonger(pkiData: Bytes, agent: Agent, info: Tlv)
    ensures |Encapsulated(pkiData).body| <= |SignedData(pkiData, agent, info).body|
  {
    EncodeAllIsLonger(SignedDataParts(pkiData, agent, info), 2);
  }

  lemma WrappedIsLonger(id: DerValues.Oid, t: Tlv)
    requires DerValues.ValidOid(id)
    ensures |t.body| <= |DerValues.Sequence([DerValues.Identified(id), DerValues.Tagged(0, [t])]).body|
  {
    var parts: seq<Tlv> := [DerValues.Identified(id), DerValues.Tagged(0, [t])];
    EncodeAllOne(t);
    EncodeAllIsLonger(parts, 1);
  }

  lemma EncapsulatedIsLonger(pkiData: Bytes)
    ensures |pkiData| <= |Encapsulated(pkiData).body|
  {
    WrappedIsLonger(PKI_DATA_CONTENT, DerValues.OctetString(pkiData));
  }

  /** Request.Validate: possession, the ID, the SID, and the account if there is one. */
  predicate ValidRequest(req: Request, spiffe: Bytes -> bool) {
    && req.csr.possession && spiffe(req.spiffeId)
    && Mapping.ValidSidString(req.sid)
    && (req.account == [] || ValidAccount(req.account))
  }

  /** That is: the codec takes the SID, and an account is two plain names around a backslash, and short. */
  lemma ValidRequestIff(req: Request, spiffe: Bytes -> bool)
    ensures ValidRequest(req, spiffe) <==>
            && req.csr.possession && spiffe(req.spiffeId) && Sid.MarshalSid(req.sid).Some?
            && (req.account == [] || (ValidRequester(req.account) && |req.account| <= 128))
  {
    Mapping.ValidatorsAgree(req.sid);
    AccountsAreRequesters(req.account);
  }

  /** Whether Issue gets as far as the CA. */
  predicate Asks(b: Backend, req: Request, spiffe: Bytes -> bool) {
    && ValidRequest(req, spiffe) && req.account != []
    && req.csr.raw != [] && b.Valid() && ValidRequester(req.account)
    && b.sign(SignedDigest(Encode(PkiData(req.csr.raw, b.template, req.account)), b.sha256)).Some?
  }

  /** What is made of the CA's answer, if there is one. */
  function Received(b: Backend, answer: Option<Envelope>): Option<Credential> {
    var envelope :- answer;
    Rstrc(envelope, b.parse)
  }

  /** What is heard from the CA, if it is asked. `ca` is what it answers to a message: nothing, when it
      cannot be reached or its answer is too long or no XML of the kind. */
  function Hears(b: Backend, req: Request, spiffe: Bytes -> bool, ca: Bytes -> Option<Envelope>): Option<Credential> {
    if Asks(b, req, spiffe) then Received(b, ca(Message(b, req.csr.raw, req.account))) else None
  }

  /** What Issue answers. */
  function Answer(b: Backend, req: Request, spiffe: Bytes -> bool, ca: Bytes -> Option<Envelope>): Option<Credential> {
    var received :- Hears(b, req, spiffe, ca);
    Verified(received, req.sid, b.signedBy)
  }

  /** Issue hands a credential on exactly when the CA was asked, its response holds one, and that names
      the request's SID with its issuer anywhere in the chain. */
  lemma AnswerIff(b: Backend, req: Request, spiffe: Bytes -> bool, ca: Bytes -> Option<Envelope>)
    ensures Answer(b, req, spiffe, ca).Some? <==>
            && Asks(b, req, spiffe)
            && var received := Received(b, ca(Message(b, req.csr.raw, req.account)));
            && received.Some?
            && FromExtensions(received.value.certificate.extensions) == Named(req.sid)
            && exists j :: 0 <= j < |received.value.chain|
                 && b.signedBy(received.value.certificate, received.value.chain[j])
  {
    var received := Hears(b, req, spiffe, ca);
    if received.Some? {
      VerifiedIff(received.value, req.sid, b.signedBy);
    }
  }

  method Accept(received: Credential, sid: Bytes, signedBy: SignedBy) returns (r: Option<Credential>)
    ensures r == Verified(received, sid, signedBy)
  {
    var certs := received.chain;
    var chain := new Certificate[|certs|](i requires 0 <= i < |certs| => certs[i]);
    assert chain[..] == certs;
    var ok := Verify(Some(received.certificate), chain, sid, signedBy);
    if !ok {
      return None;
    }
    r := Some(Credential(received.certificate, chain[..]));
  }

  method Issue(b: Backend, req: Request, spiffe: Bytes -> bool, ca: Bytes -> Option<Envelope>)
    returns (r: Option<Credential>)
    ensures r == Answer(b, req, spiffe, ca)
  {
    if !ValidRequest(req, spiffe) {
      return None;
    }
    if req.account == [] {
      return None;
    }
    var cmc := BuildCmc(b, req.csr.raw, req.account);
    if cmc.None? {
      return None;
    }
    var answer := ca(cmc.value);
    if answer.None? {
      return None;
    }
    var received := ParseRstrc(answer.value, b.parse);
    if received.None? {
      return None;
    }
    r := Accept(received.value, req.sid, b.signedBy);
  }
}
