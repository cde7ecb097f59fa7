/** The hand-written PKCS#7 reader, as lenient as Go's struct decoding is about what follows the
    fields it names, and what it makes of the messages that the signer writes. */
module Pkcs7Reader {
  import opened ByteStrings
  import opened Cmc
  import opened Der
  import opened DerValues
  import opened Options
  import opened Pkcs7
  import opened SetOrder
  import opened NtdsExt

  // ---------------------------------------------------------------- certsFromPKCS7

  /** A SEQUENCE decoded into a struct; whatever follows it is ignored. */
  function Fields(der: Bytes): Option<Bytes> {
    var (t, _) :- Decode(der);
    if IsElement(t, Universal, true, TAG_SEQUENCE) then Some(t.body) else None
  }

  /** The content of a ContentInfo that says signedData. An empty explicit tag at the very end has no child. */
  function ContentOf(fields: Bytes): Option<Bytes> {
    var (id, rest) :- Decode(fields);
    if !IsElement(id, Universal, false, TAG_OID) || ReadOid(id.body) != Some(SIGNED_DATA) then None
    else
      var (content, after) :- Decode(rest);
      if content.cls != Context || content.tag != 0 || !(content.constructed || content.body == []) then None
      else if content.body == [] && after == [] then None
      else Some(content.body)
  }

  function ReadContentInfo(der: Bytes): Option<Bytes> {
    var fields :- Fields(der);
    ContentOf(fields)
  }

  /** The certificate set of a SignedData. It is optional: an element of any other kind in its place,
      of which only the header is read, or none at all, means no certificates. */
  function ReadCertificateSet(der: Bytes): Option<Bytes> {
    var fields :- Fields(der);
    var (version, rest1) :- Decode(fields);
    if !IsElement(version, Universal, false, TAG_INTEGER)
       || ReadInteger(version.body).None? || |version.body| > 8 then None
    else
      var (_, rest2) :- Decode(rest1);
      var (_, rest3) :- Decode(rest2);
      ReadOptionalSet(rest3)
  }

  function ReadOptionalSet(b: Bytes): Option<Bytes> {
    if b == [] then Some([])
    else
      var (t, b1) :- ReadIdentifier(b);
      var (n, b2) :- ReadLength(b1);
      if t.cls != Context || t.tag != 0 then Some([])
      else if |b2| < n then None
      else Some(b2[..n])
  }

  /** Each certificate with its header, all that X.509 accepts. */
  function SplitCertificates(b: Bytes, isCertificate: Bytes -> bool): Option<seq<Bytes>>
    decreases |b|
  {
    if b == [] then Some([])
    else
      var (_, rest) :- Decode(b);
      var first := b[..|b| - |rest|];
      if !isCertificate(first) then None
      else
        var others :- SplitCertificates(rest, isCertificate);
        Some([first] + others)
  }

  function CertsFromPkcs7(der: Bytes, isCertificate: Bytes -> bool): Option<seq<Bytes>> {
    var content :- ReadContentInfo(der);
    var set_ :- ReadCertificateSet(content);
    SplitCertificates(set_, isCertificate)
  }

  function After(certs: seq<Bytes>, others: Option<seq<Bytes>>): Option<seq<Bytes>> {
    if others.None? then None else Some(certs + others.value)
  }

  lemma AfterNothing(others: Option<seq<Bytes>>)
    ensures After([], others) == others
  {
    if others.Some? {
      assert [] + others.value == others.value;
    }
  }

  lemma AfterTwice(certs: seq<Bytes>, cert: Bytes, others: Option<seq<Bytes>>)
    ensures After(certs, After([cert], others)) == After(certs + [cert], others)
  {
    if others.Some? {
      assert certs + ([cert] + others.value) == certs + [cert] + others.value;
    }
  }

  lemma SplitStep(b: Bytes, after: Bytes, cert: Bytes, isCertificate: Bytes -> bool)
    requires b != [] && Decode(b).Some? && after == Decode(b).value.1
    requires cert == b[..|b| - |after|] && isCertificate(cert)
    ensures SplitCertificates(b, isCertificate) == After([cert], SplitCertificates(after, isCertificate))
  {
  }

  method SplitLoop(body: Bytes, isCertificate: Bytes -> bool) returns (r: Option<seq<Bytes>>)
    ensures r == SplitCertificates(body, isCertificate)
  {
    var certs: seq<Bytes> := [];
    var rest := body;
    AfterNothing(SplitCertificates(body, isCertificate));
    while |rest| > 0
      invariant SplitCertificates(body, isCertificate) == After(certs, SplitCertificates(rest, isCertificate))
      decreases |rest|
    {
      var raw := Decode(rest);
      if raw.None? {
        return None;
      }
      var after := raw.value.1;
      var cert := rest[..|rest| - |after|];
      if !isCertificate(cert) {
        return None;
      }
      SplitStep(rest, after, cert, isCertificate);
      AfterTwice(certs, cert, SplitCertificates(after, isCertificate));
      rest := after;
      certs := certs + [cert];
    }
    assert certs + [] == certs;
    r := Some(certs);
  }

  method ReadCertificates(der: Bytes, isCertificate: Bytes -> bool) returns (r: Option<seq<Bytes>>)
    ensures r == CertsFromPkcs7(der, isCertificate)
  {
    var content := ReadContentInfo(der);
    if content.None? {
      return None;
    }
    var body := ReadCertificateSet(content.value);
    if body.None? {
      return None;
    }
    r := SplitLoop(body.value, isCertificate);
  }

  // ---------------------------------------------------------------- chainFrom

  /** One chain token of a response: of PKCS#7 type or not, and its bytes if they decode. */
  datatype Token = Token(isPkcs7: bool, der: Option<Bytes>)

  function Without(certs: seq<Bytes>, leaf: Bytes): (r: seq<Bytes>)
    ensures leaf !in r
    ensures forall c :: c in certs && c != leaf ==> c in r
  {
    if certs == [] then []
    else if certs[|certs| - 1] == leaf then Without(certs[..|certs| - 1], leaf)
    else Without(certs[..|certs| - 1], leaf) + [certs[|certs| - 1]]
  }

  /** The certificates that one token adds to the chain; a token of another type adds none. */
  function Added(t: Token, leaf: Bytes, isCertificate: Bytes -> bool): Option<seq<Bytes>> {
    if !t.isPkcs7 then Some([])
    else
      var der :- t.der;
      var certs :- CertsFromPkcs7(der, isCertificate);
      Some(Without(certs, leaf))
  }

  /** One and then the other, or nothing if either is missing. */
  function Joined(a: Option<seq<Bytes>>, b: Option<seq<Bytes>>): Option<seq<Bytes>> {
    if a.Some? && b.Some? then Some(a.value + b.value) else None
  }

  /** All certificates of the PKCS#7 tokens in order, but for the leaf. */
  function Chain(tokens: seq<Token>, leaf: Bytes, isCertificate: Bytes -> bool): Option<seq<Bytes>> {
    if tokens == [] then Some([])
    else
      Joined(Chain(tokens[..|tokens| - 1], leaf, isCertificate), Added(tokens[|tokens| - 1], leaf, isCertificate))
  }

  method Filter(certs: seq<Bytes>, leaf: Bytes) returns (r: seq<Bytes>)
    ensures r == Without(certs, leaf)
  {
    r := [];
    for j := 0 to |certs|
      invariant r == Without(certs[..j], leaf)
    {
      assert certs[..j + 1][..j] == certs[..j];
      if certs[j] != leaf {
        r := r + [certs[j]];
      }
    }
    assert certs[..|certs|] == certs;
  }

  method ChainFrom(tokens: seq<Token>, leaf: Bytes, isCertificate: Bytes -> bool) returns (r: Option<seq<Bytes>>)
    ensures r == Chain(tokens, leaf, isCertificate)
  {
    var chain: seq<Bytes> := [];
    for i := 0 to |tokens|
      invariant Chain(tokens[..i], leaf, isCertificate) == Some(chain)
    {
      assert tokens[..i + 1][..i] == tokens[..i];
      var t := tokens[i];
      if t.isPkcs7 {
        var certs := None;
        if t.der.Some? {
          certs := ReadCertificates(t.der.value, isCertificate);
        }
        if certs.None? {
          ChainFails(tokens, i, leaf, isCertificate);
          return None;
        }
        var others := Filter(certs.value, leaf);
        chain := chain + others;
      } else {
        assert chain + [] == chain;
      }
    }
    assert tokens[..|tokens|] == tokens;
    r := Some(chain);
  }

  lemma {:induction false} ChainFails(tokens: seq<Token>, i: nat, leaf: Bytes, isCertificate: Bytes -> bool)
    requires i < |tokens| && Chain(tokens[..i + 1], leaf, isCertificate).None?
    ensures Chain(tokens, leaf, isCertificate).None?
    decreases |tokens|
  {
    if i + 1 < |tokens| {
      assert tokens[..|tokens| - 1][..i + 1] == tokens[..i + 1];
      ChainFails(tokens[..|tokens| - 1], i, leaf, isCertificate);
    } else {
      assert tokens[..i + 1] == tokens;
    }
  }

  lemma {:induction false} LeafIsNotInItsChain(tokens: seq<Token>, leaf: Bytes, isCertificate: Bytes -> bool)
    requires Chain(tokens, leaf, isCertificate).Some?
    ensures leaf !in Chain(tokens, leaf, isCertificate).value
  {
    if tokens != [] {
      LeafIsNotInItsChain(tokens[..|tokens| - 1], leaf, isCertificate);
    }
  }

  /** Leaving out the leaf: nothing else goes, and the order stays. */
  lemma {:induction false} WithoutInOrder(a: seq<Bytes>, b: seq<Bytes>, c: Bytes, leaf: Bytes)
    ensures Without([c], leaf) == if c == leaf then [] else [c]
    ensures Without(a + b, leaf) == Without(a, leaf) + Without(b, leaf)
    decreases |b|
  {
    assert Without([c][..0], leaf) == [];
    if b == [] {
      assert a + b == a;
    } else {
      var init := b[..|b| - 1];
      WithoutInOrder(a, init, c, leaf);
      assert (a + b)[..|a + b| - 1] == a + init;
    }
  }

  /** The chain is what the tokens hold, token by token and in order, but for the leaf. */
  lemma {:induction false} ChainInOrder(a: seq<Token>, b: seq<Token>, t: Token, leaf: Bytes,
                                        isCertificate: Bytes -> bool)
    ensures Chain([t], leaf, isCertificate)
            == if !t.isPkcs7 then Some([])
               else if t.der.None? || CertsFromPkcs7(t.der.value, isCertificate).None? then None
               else Some(Without(CertsFromPkcs7(t.der.value, isCertificate).value, leaf))
    ensures Chain(a + b, leaf, isCertificate) == Joined(Chain(a, leaf, isCertificate), Chain(b, leaf, isCertificate))
    decreases |b|
  {
    OneToken(t, leaf, isCertificate);
    if b == [] {
      assert a + b == a;
      assert Chain(a, leaf, isCertificate).Some? ==>
        Chain(a, leaf, isCertificate).value + [] == Chain(a, leaf, isCertificate).value;
    } else {
      var init, last := b[..|b| - 1], b[|b| - 1];
      ChainInOrder(a, init, t, leaf, isCertificate);
      OneMoreToken(a + init, last, leaf, isCertificate);
      OneMoreToken(init, last, leaf, isCertificate);
      assert (a + init) + [last] == a + b && init + [last] == b;
      JoinedAssociates(Chain(a, leaf, isCertificate), Chain(init, leaf, isCertificate),
                       Added(last, leaf, isCertificate));
    }
  }

  lemma OneToken(t: Token, leaf: Bytes, isCertificate: Bytes -> bool)
    ensures Chain([t], leaf, isCertificate) == Added(t, leaf, isCertificate)
  {
    OneMoreToken([], t, leaf, isCertificate);
    assert [] + [t] == [t];
    var added := Added(t, leaf, isCertificate);
    assert added.Some? ==> [] + added.value == added.value;
  }

  lemma OneMoreToken(tokens: seq<Token>, t: Token, leaf: Bytes, isCertificate: Bytes -> bool)
    ensures Chain(tokens + [t], leaf, isCertificate)
            == Joined(Chain(tokens, leaf, isCertificate), Added(t, leaf, isCertificate))
  {
    assert (tokens + [t])[..|tokens|] == tokens;
  }

  lemma JoinedAssociates(a: Option<seq<Bytes>>, b: Option<seq<Bytes>>, c: Option<seq<Bytes>>)
    ensures Joined(Joined(a, b), c) == Joined(a, Joined(b, c))
  {
    if a.Some? && b.Some? && c.Some? {
      assert a.value + b.value + c.value == a.value + (b.value + c.value);
    }
  }

  // ---------------------------------------------------------------- reading what was signed

  /** A certificate as X.509 hands it out: one whole element, which it accepts. */
  predicate WholeCertificate(c: Bytes, isCertificate: Bytes -> bool) {
    DecodeOnly(c).Some? && isCertificate(c)
  }

  predicate AllWhole(certs: seq<Bytes>, isCertificate: Bytes -> bool) {
    forall i :: 0 <= i < |certs| ==> WholeCertificate(certs[i], isCertificate)
  }

  lemma FirstCertificate(c: Bytes, others: Bytes)
    requires DecodeOnly(c).Some?
    ensures Decode(c + others) == Some((DecodeOnly(c).value, others))
    ensures c + others != [] && (c + others)[..|c + others| - |others|] == c
  {
    var t := DecodeOnly(c).value;
    DecodeOnlyIff(c, t);
    DecodeEncoded(t, others);
  }

  lemma {:induction false} SplitFlattened(certs: seq<Bytes>, isCertificate: Bytes -> bool)
    requires AllWhole(certs, isCertificate)
    ensures SplitCertificates(Flatten(certs), isCertificate) == Some(certs)
  {
    if certs != [] {
      assert WholeCertificate(certs[0], isCertificate);
      FirstCertificate(certs[0], Flatten(certs[1..]));
      SplitFlattened(certs[1..], isCertificate);
      SplitStep(Flatten(certs), Flatten(certs[1..]), certs[0], isCertificate);
      assert [certs[0]] + certs[1..] == certs;
    }
  }

  lemma {:induction false} SplitIsWhole(b: Bytes, isCertificate: Bytes -> bool)
    requires SplitCertificates(b, isCertificate).Some?
    ensures var certs := SplitCertificates(b, isCertificate).value;
      AllWhole(certs, isCertificate) && Flatten(certs) == b
    decreases |b|
  {
    if b != [] {
      var (t, rest) := Decode(b).value;
      EncodeDecoded(b);
      SplitIsWhole(rest, isCertificate);
      var first, certs := Encode(t), SplitCertificates(b, isCertificate).value;
      assert b[..|b| - |rest|] == first;
      DecodeOnlyIff(first, t);
      assert certs[0] == first && certs[1..] == SplitCertificates(rest, isCertificate).value;
    }
  }

  /** A certificate set is read as these certificates if and only if each is one whole element that X.509
      accepts, and one after the other they are the set. */
  lemma SplitIff(b: Bytes, certs: seq<Bytes>, isCertificate: Bytes -> bool)
    ensures SplitCertificates(b, isCertificate) == Some(certs)
            <==> AllWhole(certs, isCertificate) && Flatten(certs) == b
  {
    if AllWhole(certs, isCertificate) && Flatten(certs) == b {
      SplitFlattened(certs, isCertificate);
    }
    if SplitCertificates(b, isCertificate) == Some(certs) {
      SplitIsWhole(b, isCertificate);
    }
  }

  lemma {:induction false} FieldsOfBuilt(ts: seq<Tlv>)
    requires Countable(|EncodeAll(ts)|)
    ensures Fields(Encode(Sequence(ts))) == Some(EncodeAll(ts)) && AllCountable(ts)
  {
    PartsAreCountable(ts);
    DecodeEncoded(Sequence(ts), []);
    assert Encode(Sequence(ts)) + [] == Encode(Sequence(ts));
  }

  lemma {:induction false} FirstOf(ts: seq<Tlv>)
    requires ts != [] && Countable(|ts[0].body|)
    ensures Decode(EncodeAll(ts)) == Some((ts[0], EncodeAll(ts[1..])))
  {
    DecodeEncoded(ts[0], EncodeAll(ts[1..]));
  }

  lemma {:induction false} ContentInfoReads(signedData: Tlv)
    requires Countable(|ContentInfo(signedData).body|)
    ensures ReadContentInfo(Encode(ContentInfo(signedData))) == Some(Encode(signedData))
    ensures Countable(|signedData.body|)
  {
    var ts := [Identified(SIGNED_DATA), Tagged(0, [signedData])];
    FieldsOfBuilt(ts);
    FirstOf(ts);
    FirstOf(ts[1..]);
    assert Countable(|ts[1].body|) && ts[1..][0] == ts[1];
    EncodeAllOne(signedData);
    ReadOidIff(OidBody(SIGNED_DATA), SIGNED_DATA);
    CountablePart(|signedData.body|, |ts[1].body|);
  }

  lemma OptionalSetReads(t: Tlv, rest: Bytes)
    requires t.cls == Context && t.tag == 0 && Countable(|t.body|)
    ensures ReadOptionalSet(Encode(t) + rest) == Some(t.body)
  {
    var n := |t.body|;
    assert Encode(t) + rest == Identifier(t) + (Length(n) + (t.body + rest));
    ReadWrittenIdentifier(t, Length(n) + (t.body + rest));
    ReadWrittenLength(n, t.body + rest);
    assert (t.body + rest)[..n] == t.body;
  }

  /** Past a version and two elements of any kind. */
  lemma SkipsToTheSet(version: int, t: Tlv, u: Tlv, rest: seq<Tlv>)
    requires |IntegerBody(version)| <= 8
    requires Countable(|EncodeAll([Integer(version), t, u] + rest)|)
    ensures ReadCertificateSet(Encode(Sequence([Integer(version), t, u] + rest))) == ReadOptionalSet(EncodeAll(rest))
  {
    var v := Integer(version);
    var ts := [v, t, u] + rest;
    FieldsOfBuilt(ts);
    assert Countable(|ts[0].body|) && Countable(|ts[1].body|) && Countable(|ts[2].body|);
    ThreeFirst(v, t, u, rest);
    IntegerReads(version);
    SkipsThree(Encode(Sequence(ts)), v, t, u, rest);
  }

  lemma ThreeFirst(t: Tlv, u: Tlv, v: Tlv, rest: seq<Tlv>)
    requires Countable(|t.body|) && Countable(|u.body|) && Countable(|v.body|)
    ensures Decode(EncodeAll([t, u, v] + rest)) == Some((t, EncodeAll([u, v] + rest)))
    ensures Decode(EncodeAll([u, v] + rest)) == Some((u, EncodeAll([v] + rest)))
    ensures Decode(EncodeAll([v] + rest)) == Some((v, EncodeAll(rest)))
  {
    var ts, ts1, ts2 := [t, u, v] + rest, [u, v] + rest, [v] + rest;
    assert ts[1..] == ts1 && ts1[1..] == ts2 && ts2[1..] == rest;
    FirstOf(ts);
    FirstOf(ts1);
    FirstOf(ts2);
  }

  lemma SkipsThree(der: Bytes, v: Tlv, t: Tlv, u: Tlv, rest: seq<Tlv>)
    requires Fields(der) == Some(EncodeAll([v, t, u] + rest))
    requires IsElement(v, Universal, false, TAG_INTEGER) && ReadInteger(v.body).Some? && |v.body| <= 8
    requires Decode(EncodeAll([v, t, u] + rest)) == Some((v, EncodeAll([t, u] + rest)))
    requires Decode(EncodeAll([t, u] + rest)) == Some((t, EncodeAll([u] + rest)))
    requires Decode(EncodeAll([u] + rest)) == Some((u, EncodeAll(rest)))
    ensures ReadCertificateSet(der) == ReadOptionalSet(EncodeAll(rest))
  {
  }

  lemma OtherElementIsNoSet(t: Tlv, after: Bytes)
    requires (t.cls != Context || t.tag != 0) && Countable(|t.body|)
    ensures ReadOptionalSet(Encode(t) + after) == Some([])
  {
    var n := |t.body|;
    assert Encode(t) + after == Identifier(t) + (Length(n) + (t.body + after));
    ReadWrittenIdentifier(t, Length(n) + (t.body + after));
    ReadWrittenLength(n, t.body + after);
  }

  /** The set is optional: what follows the third field, if it is not tagged [0], means no certificates. */
  lemma NoSetNoCertificates(version: int, t: Tlv, u: Tlv, rest: seq<Tlv>)
    requires |IntegerBody(version)| <= 8
    requires Countable(|EncodeAll([Integer(version), t, u] + rest)|)
    requires rest == [] || rest[0].cls != Context || rest[0].tag != 0
    ensures ReadCertificateSet(Encode(Sequence([Integer(version), t, u] + rest))) == Some([])
  {
    var ts := [Integer(version), t, u] + rest;
    SkipsToTheSet(version, t, u, rest);
    if rest != [] {
      PartsAreCountable(ts);
      assert ts[3] == rest[0] && Countable(|ts[3].body|);
      OtherElementIsNoSet(rest[0], EncodeAll(rest[1..]));
    }
  }

  /** Bytes after the message are ignored. */
  lemma TrailingBytesAreIgnored(der: Bytes, more: Bytes)
    requires Decode(der).Some?
    ensures ReadContentInfo(der + more) == ReadContentInfo(der)
  {
    var (t, rest) := Decode(der).value;
    EncodeDecoded(der);
    DecodeEncoded(t, rest + more);
    assert der + more == Encode(t) + (rest + more);
    assert Fields(der + more) == Fields(der);
  }

  lemma CertificateSetReads(pkiData: Bytes, agent: Agent, signerInfo: Tlv)
    requires Countable(|SignedData(pkiData, agent, signerInfo).body|)
    ensures ReadCertificateSet(Encode(SignedData(pkiData, agent, signerInfo))) == Some(Certificates(agent).body)
  {
    var ts := SignedDataParts(pkiData, agent, signerInfo);
    var rest := [Certificates(agent), SetOf([signerInfo])];
    assert ts == [Integer(3), SetOf([DigestAlgorithm()]), Encapsulated(pkiData)] + rest;
    assert MinBytes(3) == [3];
    PartsAreCountable(ts);
    assert Countable(|ts[3].body|);
    SkipsToTheSet(3, SetOf([DigestAlgorithm()]), Encapsulated(pkiData), rest);
    OptionalSetReads(Certificates(agent), EncodeAll(rest[1..]));
  }

  lemma {:induction false} SetOfCertificatesReads(der: Bytes, content: Bytes, certs: seq<Bytes>,
                                                  isCertificate: Bytes -> bool)
    requires ReadContentInfo(der) == Some(content) && ReadCertificateSet(content) == Some(Flatten(certs))
    requires SplitCertificates(Flatten(certs), isCertificate) == Some(certs)
    ensures CertsFromPkcs7(der, isCertificate) == Some(certs)
  {
  }

  lemma {:induction false} CertificatesReadBack(pkiData: Bytes, agent: Agent, signerInfo: Tlv,
                                                isCertificate: Bytes -> bool)
    requires Countable(|ContentInfo(SignedData(pkiData, agent, signerInfo)).body|)
    requires AllWhole([agent.certificate] + agent.chain, isCertificate)
    ensures CertsFromPkcs7(Encode(ContentInfo(SignedData(pkiData, agent, signerInfo))), isCertificate)
            == Some([agent.certificate] + agent.chain)
  {
    var signedData := SignedData(pkiData, agent, signerInfo);
    var certs := [agent.certificate] + agent.chain;
    ContentInfoReads(signedData);
    CertificateSetReads(pkiData, agent, signerInfo);
    SplitFlattened(certs, isCertificate);
    SetOfCertificatesReads(Encode(ContentInfo(signedData)), Encode(signedData), certs, isCertificate);
  }

  /** The reader applied to what the signer wrote gives the agent's certificate and its chain, in
      order and byte for byte, whatever the content and however long the chain. */
  lemma {:induction false} SignedCertificatesReadBack(pkiData: Bytes, agent: Agent, serial: int,
                                                      digest: Bytes, signature: Bytes, isCertificate: Bytes -> bool)
    requires Countable(|SignedMessage(pkiData, agent, serial, digest, signature).body|)
    requires AllWhole([agent.certificate] + agent.chain, isCertificate)
    ensures CertsFromPkcs7(Encode(SignedMessage(pkiData, agent, serial, digest, signature)), isCertificate)
            == Some([agent.certificate] + agent.chain)
  {
    CertificatesReadBack(pkiData, agent, SignerInfo(agent, serial, digest, signature), isCertificate);
  }

  // ---------------------------------------------------------------- what a verifier recomputes

  /** An AlgorithmIdentifier: its identifier, and whether NULL parameters follow. */
  datatype Algorithm = Algorithm(id: Oid, withNull: bool)

  /** Who signed and how: SignerInfo but for its attributes and signature. */
  datatype Signer = Signer(version: int, id: Bytes, digestAlgorithm: Algorithm, signatureAlgorithm: Algorithm)

  /** What section 5.6 of RFC 5652 has a verifier look at: the content, the digest that the signed
      attributes state, the bytes the signature is over, and the signature; and all that says how to
      check them. */
  datatype Verifiable = Verifiable(content: Bytes, digest: Bytes, signedBytes: Bytes, signature: Bytes,
                                   version: int, digestAlgorithms: seq<Algorithm>, signer: Signer)

  function ReadVersion(t: Tlv): Option<int> {
    if IsElement(t, Universal, false, TAG_INTEGER) then ReadInteger(t.body) else None
  }

  function ReadAlgorithm(t: Tlv): Option<Algorithm> {
    var parts :- Children(t, Universal, TAG_SEQUENCE);
    if parts == [] || !IsElement(parts[0], Universal, false, TAG_OID) then None
    else
      var id :- ReadOid(parts[0].body);
      if |parts| == 1 then Some(Algorithm(id, false))
      else if parts[1..] == [NULL] then Some(Algorithm(id, true))
      else None
  }

  function ReadAlgorithms(ts: seq<Tlv>): Option<seq<Algorithm>> {
    if ts == [] then Some([])
    else
      var first :- ReadAlgorithm(ts[0]);
      var others :- ReadAlgorithms(ts[1..]);
      Some([first] + others)
  }

  function ReadSigner(parts: seq<Tlv>): Option<Signer>
    requires |parts| == 6
  {
    var version :- ReadVersion(parts[0]);
    var digestAlgorithm :- ReadAlgorithm(parts[2]);
    var signatureAlgorithm :- ReadAlgorithm(parts[4]);
    if !IsElement(parts[1], Universal, true, TAG_SEQUENCE) then None
    else Some(Signer(version, parts[1].body, digestAlgorithm, signatureAlgorithm))
  }

  /** The issuer's name, byte for byte, and the serial number under it. */
  function ReadSignerId(id: Bytes): Option<(Bytes, int)> {
    var (name, rest) :- Decode(id);
    var serial :- DecodeOnly(rest);
    var number :- ReadVersion(serial);
    Some((id[..|id| - |rest|], number))
  }

  /** The one value of the first attribute of the given kind. */
  function FindAttribute(ts: seq<Tlv>, kind: Oid): Option<Tlv>
    requires ValidOid(kind)
  {
    if ts == [] then None
    else
      match Children(ts[0], Universal, TAG_SEQUENCE)
      case Some(parts) =>
        if |parts| == 2 && parts[0] == Identified(kind) then
          var values :- Children(parts[1], Universal, TAG_SET);
          if |values| == 1 then Some(values[0]) else None
        else FindAttribute(ts[1..], kind)
      case None => FindAttribute(ts[1..], kind)
  }

  function ReadContent(t: Tlv): Option<Bytes> {
    var parts :- Children(t, Universal, TAG_SEQUENCE);
    if |parts| != 2 || parts[0] != Identified(PKI_DATA_CONTENT) then None
    else
      var inner :- Children(parts[1], Context, 0);
      if |inner| != 1 then None else Contents(inner[0], TAG_OCTET_STRING)
  }

  /** Section 5.4: the signature is over the attributes with the tag of a SET in place of [0]. */
  function Retagged(t: Tlv): Tlv {
    t.(cls := Universal, tag := TAG_SET)
  }

  function ReadSignerParts(parts: seq<Tlv>): Option<(Bytes, Bytes, Bytes)>
    requires |parts| == 6
  {
    var attributes :- Children(parts[3], Context, 0);
    var typ :- FindAttribute(attributes, CONTENT_TYPE);
    var value :- FindAttribute(attributes, MESSAGE_DIGEST);
    var digest :- Contents(value, TAG_OCTET_STRING);
    var signature :- Contents(parts[5], TAG_OCTET_STRING);
    if typ != Identified(PKI_DATA_CONTENT) then None else Some((digest, Encode(Retagged(parts[3])), signature))
  }

  /** The six parts of the only SignerInfo. */
  function ReadSignerInfo(t: Tlv): (r: Option<seq<Tlv>>)
    ensures r.Some? ==> |r.value| == 6
  {
    var infos :- Children(t, Universal, TAG_SET);
    if |infos| != 1 then None
    else
      var parts :- Children(infos[0], Universal, TAG_SEQUENCE);
      if |parts| != 6 then None else Some(parts)
  }

  function ReadVerifiable(der: Bytes): Option<Verifiable> {
    var content :- ReadContentInfo(der);
    var outer :- DecodeOnly(content);
    var parts :- Children(outer, Universal, TAG_SEQUENCE);
    if |parts| != 5 then None
    else
      var version :- ReadVersion(parts[0]);
      var algorithms :- Children(parts[1], Universal, TAG_SET);
      var digestAlgorithms :- ReadAlgorithms(algorithms);
      var pkiData :- ReadContent(parts[2]);
      var signerParts :- ReadSignerInfo(parts[4]);
      var (digest, signedBytes, signature) :- ReadSignerParts(signerParts);
      var signer :- ReadSigner(signerParts);
      Some(Verifiable(pkiData, digest, signedBytes, signature, version, digestAlgorithms, signer))
  }

  lemma AttributeReads(kind: Oid, value: Tlv)
    requires ValidOid(kind) && Countable(|Attribute(kind, value).body|)
    ensures Children(Attribute(kind, value), Universal, TAG_SEQUENCE) == Some([Identified(kind), SetOf([value])])
    ensures Children(SetOf([value]), Universal, TAG_SET) == Some([value])
  {
    var parts := [Identified(kind), SetOf([value])];
    ChildrenOf(Attribute(kind, value), Universal, TAG_SEQUENCE, parts);
    assert Countable(|parts[1].body|);
    SetOfOne(value);
    ChildrenOf(SetOf([value]), Universal, TAG_SET, [value]);
  }

  /** Whichever way two members sort, they are the set's children. */
  lemma ChildrenOfTwo(t: Tlv, u: Tlv, outer: Tlv)
    requires outer.constructed && outer.body == Flatten([Encode(t), Encode(u)]) && Countable(|outer.body|)
    ensures Children(outer, outer.cls, outer.tag) == Some([t, u])
    ensures Countable(|t.body|) && Countable(|u.body|)
  {
    FlattenEncoded([t, u], [Encode(t), Encode(u)]);
    ChildrenOf(outer, outer.cls, outer.tag, [t, u]);
    assert Countable(|[t, u][0].body|) && Countable(|[t, u][1].body|);
  }

  lemma {:induction false} ChildrenOfPair(t: Tlv, u: Tlv, outer: Tlv)
    requires outer.constructed && outer.body == SetOf([t, u]).body && Countable(|outer.body|)
    ensures Children(outer, outer.cls, outer.tag) in {Some([t, u]), Some([u, t])}
    ensures Countable(|t.body|) && Countable(|u.body|)
  {
    PairBody(t, u);
    if outer.body == Flatten([Encode(t), Encode(u)]) {
      ChildrenOfTwo(t, u, outer);
    } else {
      ChildrenOfTwo(u, t, outer);
    }
  }

  lemma PairBody(t: Tlv, u: Tlv)
    ensures
      || SetOf([t, u]).body == Flatten([Encode(t), Encode(u)])
      || SetOf([t, u]).body == Flatten([Encode(u), Encode(t)])
  {
    assert Encodings([t, u]) == [Encode(t), Encode(u)];
    SortOfTwo(Encode(t), Encode(u));
  }

  lemma SortOfTwo(a: Bytes, b: Bytes)
    ensures SortDer([a, b]) == [a, b] || SortDer([a, b]) == [b, a]
  {
    assert [a, b][1..] == [b];
    assert SortDer([b]) == [b];
    assert Insert(a, [b]) == if Less(b, a) then [b] + Insert(a, []) else [a] + [b];
  }

  /** Two attributes of different kinds are each found among a set's children. */
  lemma PairReads(t: Tlv, u: Tlv, outer: Tlv, kind: Oid, value: Tlv, other: Oid, otherValue: Tlv) returns (ts: seq<Tlv>)
    requires ValidOid(kind) && ValidOid(other) && Identified(kind) != Identified(other)
    requires t == Attribute(kind, value) && u == Attribute(other, otherValue)
    requires outer.constructed && outer.body == SetOf([t, u]).body && Countable(|outer.body|)
    ensures Children(outer, outer.cls, outer.tag) == Some(ts)
    ensures FindAttribute(ts, kind) == Some(value) && FindAttribute(ts, other) == Some(otherValue)
  {
    ChildrenOfPair(t, u, outer);
    ts := Children(outer, outer.cls, outer.tag).value;
    AttributeReads(kind, value);
    AttributeReads(other, otherValue);
    FindInPair(t, u, kind, other, value, otherValue);
    FindInPair(u, t, other, kind, otherValue, value);
  }

  /** These attributes say what the signed content is. */
  predicate Say(ts: seq<Tlv>, digest: Bytes) {
    && FindAttribute(ts, CONTENT_TYPE) == Some(Identified(PKI_DATA_CONTENT))
    && FindAttribute(ts, MESSAGE_DIGEST) == Some(OctetString(digest))
  }

  lemma AttributesRead(digest: Bytes) returns (ts: seq<Tlv>)
    requires Countable(|CarriedAttributes(digest).body|)
    ensures Children(CarriedAttributes(digest), Context, 0) == Some(ts) && Say(ts, digest)
  {
    DifferentKinds();
    ts := PairReads(Attribute(CONTENT_TYPE, Identified(PKI_DATA_CONTENT)),
                    Attribute(MESSAGE_DIGEST, OctetString(digest)),
                    CarriedAttributes(digest), CONTENT_TYPE, Identified(PKI_DATA_CONTENT),
                    MESSAGE_DIGEST, OctetString(digest));
  }

  lemma DifferentKinds()
    ensures Identified(CONTENT_TYPE) != Identified(MESSAGE_DIGEST)
  {
    ReadOidIff(OidBody(CONTENT_TYPE), CONTENT_TYPE);
    ReadOidIff(OidBody(MESSAGE_DIGEST), MESSAGE_DIGEST);
  }

  /** An attribute is found whether it comes first or second. */
  lemma FindInPair(t: Tlv, u: Tlv, kind: Oid, other: Oid, value: Tlv, otherValue: Tlv)
    requires ValidOid(kind) && ValidOid(other) && Identified(kind) != Identified(other)
    requires Children(t, Universal, TAG_SEQUENCE) == Some([Identified(kind), SetOf([value])])
    requires Children(SetOf([value]), Universal, TAG_SET) == Some([value])
    requires Children(u, Universal, TAG_SEQUENCE) == Some([Identified(other), SetOf([otherValue])])
    ensures FindAttribute([t, u], kind) == Some(value)
    ensures FindAttribute([u, t], kind) == Some(value)
  {
    assert [u, t][1..] == [t];
    assert FindAttribute([t], kind) == Some(value);
  }

  lemma ContentReads(pkiData: Bytes)
    requires Countable(|Encapsulated(pkiData).body|)
    ensures ReadContent(Encapsulated(pkiData)) == Some(pkiData)
  {
    var parts := [Identified(PKI_DATA_CONTENT), Tagged(0, [OctetString(pkiData)])];
    ChildrenOf(Encapsulated(pkiData), Universal, TAG_SEQUENCE, parts);
    assert Countable(|parts[1].body|);
    ChildrenOf(parts[1], Context, 0, [OctetString(pkiData)]);
  }

  lemma {:induction false} SignerPartsRead(agent: Agent, serial: int, digest: Bytes, signature: Bytes)
    requires Countable(|CarriedAttributes(digest).body|)
    ensures ReadSignerParts(SignerInfoParts(agent, serial, digest, signature))
            == Some((digest, Encode(SetOf(Attributes(digest))), signature))
  {
    var parts := SignerInfoParts(agent, serial, digest, signature);
    assert parts[3] == CarriedAttributes(digest) && parts[5] == OctetString(signature);
    var ts := AttributesRead(digest);
  }

  lemma {:induction false} SignerInfoReads(agent: Agent, serial: int, digest: Bytes, signature: Bytes)
    requires Countable(|SetOf([SignerInfo(agent, serial, digest, signature)]).body|)
    ensures var parts := SignerInfoParts(agent, serial, digest, signature);
      && ReadSignerInfo(SetOf([SignerInfo(agent, serial, digest, signature)])) == Some(parts)
      && AllCountable(parts)
  {
    var info := SignerInfo(agent, serial, digest, signature);
    SetOfOne(info);
    ChildrenOf(SetOf([info]), Universal, TAG_SET, [info]);
    assert Countable(|[info][0].body|);
    var parts := SignerInfoParts(agent, serial, digest, signature);
    ChildrenOf(info, Universal, TAG_SEQUENCE, parts);
  }

  lemma AlgorithmWithNullReads(id: Oid)
    requires ValidOid(id) && Countable(|Sequence([Identified(id), NULL]).body|)
    ensures ReadAlgorithm(Sequence([Identified(id), NULL])) == Some(Algorithm(id, true))
  {
    ChildrenOf(Sequence([Identified(id), NULL]), Universal, TAG_SEQUENCE, [Identified(id), NULL]);
    ReadOidIff(OidBody(id), id);
  }

  lemma AlgorithmAloneReads(id: Oid)
    requires ValidOid(id) && Countable(|Sequence([Identified(id)]).body|)
    ensures ReadAlgorithm(Sequence([Identified(id)])) == Some(Algorithm(id, false))
  {
    ChildrenOf(Sequence([Identified(id)]), Universal, TAG_SEQUENCE, [Identified(id)]);
    ReadOidIff(OidBody(id), id);
  }

  /** RSA is named by rsaEncryption with NULL parameters, ECDSA by ecdsa-with-SHA256 without any. */
  lemma SignatureAlgorithmReads(key: KeyKind)
    requires Countable(|SignatureAlgorithm(key).body|)
    ensures ReadAlgorithm(SignatureAlgorithm(key))
            == Some(if key.Rsa? then Algorithm([1, 2, 840, 113549, 1, 1, 1], true)
                    else Algorithm([1, 2, 840, 10045, 4, 3, 2], false))
  {
    if key.Rsa? {
      AlgorithmWithNullReads([1, 2, 840, 113549, 1, 1, 1]);
    } else {
      AlgorithmAloneReads([1, 2, 840, 10045, 4, 3, 2]);
    }
  }

  /** SHA-256 with NULL parameters. */
  function Sha256Algorithm(): Algorithm {
    Algorithm([2, 16, 840, 1, 101, 3, 4, 2, 1], true)
  }

  lemma DigestAlgorithmReads()
    requires Countable(|DigestAlgorithm().body|)
    ensures ReadAlgorithm(DigestAlgorithm()) == Some(Sha256Algorithm())
  {
    AlgorithmWithNullReads([2, 16, 840, 1, 101, 3, 4, 2, 1]);
  }

  /** How the signer is described: version 1, under its issuer's name and serial number, with SHA-256,
      and with the algorithm of its key. */
  function SignerOf(agent: Agent, serial: int): Signer {
    Signer(1, agent.issuer + Encode(Integer(serial)), Sha256Algorithm(),
           if agent.key.Rsa? then Algorithm([1, 2, 840, 113549, 1, 1, 1], true)
           else Algorithm([1, 2, 840, 10045, 4, 3, 2], false))
  }

  lemma SignerFromParts(parts: seq<Tlv>, version: int, digest: Algorithm, signature: Algorithm)
    requires |parts| == 6 && ReadVersion(parts[0]) == Some(version)
    requires IsElement(parts[1], Universal, true, TAG_SEQUENCE)
    requires ReadAlgorithm(parts[2]) == Some(digest) && ReadAlgorithm(parts[4]) == Some(signature)
    ensures ReadSigner(parts) == Some(Signer(version, parts[1].body, digest, signature))
  {
  }

  lemma VersionReads(version: int)
    ensures ReadVersion(Integer(version)) == Some(version)
  {
    IntegerReads(version);
  }

  lemma {:induction false} SignerReads(agent: Agent, serial: int, digest: Bytes, signature: Bytes)
    requires AllCountable(SignerInfoParts(agent, serial, digest, signature))
    ensures ReadSigner(SignerInfoParts(agent, serial, digest, signature)) == Some(SignerOf(agent, serial))
  {
    var parts := SignerInfoParts(agent, serial, digest, signature);
    assert Countable(|parts[2].body|) && Countable(|parts[4].body|);
    VersionReads(1);
    DigestAlgorithmReads();
    SignatureAlgorithmReads(agent.key);
    SignerFromParts(parts, 1, Sha256Algorithm(), SignerOf(agent, serial).signatureAlgorithm);
  }

  /** Decoding the signer's ID gives the agent's issuer, if that is one whole element as X.509 has it,
      and then its serial number. */
  lemma SignerIdReads(agent: Agent, serial: int)
    requires DecodeOnly(agent.issuer).Some? && Countable(|IntegerBody(serial)|)
    ensures ReadSignerId(SignerOf(agent, serial).id) == Some((agent.issuer, serial))
  {
    var name, number := DecodeOnly(agent.issuer).value, Integer(serial);
    DecodeOnlyIff(agent.issuer, name);
    DecodeEncoded(name, Encode(number));
    DecodeOnlyIff(Encode(number), number);
    IntegerReads(serial);
    var id := agent.issuer + Encode(number);
    assert id[..|id| - |Encode(number)|] == agent.issuer;
  }

  lemma SetOfOneReads(t: Tlv)
    requires Countable(|SetOf([t]).body|)
    ensures Children(SetOf([t]), Universal, TAG_SET) == Some([t]) && Countable(|t.body|)
  {
    SetOfOne(t);
    ChildrenOf(SetOf([t]), Universal, TAG_SET, [t]);
    assert Countable(|[t][0].body|);
  }

  lemma OneAlgorithmReads(t: Tlv, a: Algorithm)
    requires ReadAlgorithm(t) == Some(a)
    ensures ReadAlgorithms([t]) == Some([a])
  {
    assert [t][1..] == [] && ReadAlgorithms([]) == Some([]) && [a] + [] == [a];
  }

  lemma DigestAlgorithmsRead()
    requires Countable(|SetOf([DigestAlgorithm()]).body|)
    ensures Children(SetOf([DigestAlgorithm()]), Universal, TAG_SET) == Some([DigestAlgorithm()])
    ensures ReadAlgorithms([DigestAlgorithm()]) == Some([Sha256Algorithm()])
  {
    SetOfOneReads(DigestAlgorithm());
    DigestAlgorithmReads();
    OneAlgorithmReads(DigestAlgorithm(), Sha256Algorithm());
  }

  /** What the verifier's reader makes of the five parts. */
  lemma {:induction false} SignedDataReads(pkiData: Bytes, agent: Agent, serial: int, digest: Bytes, signature: Bytes)
    requires Countable(|SignedData(pkiData, agent, SignerInfo(agent, serial, digest, signature)).body|)
    ensures var parts := SignedDataParts(pkiData, agent, SignerInfo(agent, serial, digest, signature));
      var signerParts := SignerInfoParts(agent, serial, digest, signature);
      && Children(SignedData(pkiData, agent, SignerInfo(agent, serial, digest, signature)), Universal, TAG_SEQUENCE)
         == Some(parts)
      && ReadVersion(parts[0]) == Some(3)
      && Children(parts[1], Universal, TAG_SET) == Some([DigestAlgorithm()])
      && ReadAlgorithms([DigestAlgorithm()]) == Some([Sha256Algorithm()])
      && ReadContent(parts[2]) == Some(pkiData)
      && ReadSignerInfo(parts[4]) == Some(signerParts)
      && ReadSignerParts(signerParts) == Some((digest, Encode(SetOf(Attributes(digest))), signature))
      && ReadSigner(signerParts) == Some(SignerOf(agent, serial))
  {
    var signerInfo := SignerInfo(agent, serial, digest, signature);
    var parts := SignedDataParts(pkiData, agent, signerInfo);
    ChildrenOf(SignedData(pkiData, agent, signerInfo), Universal, TAG_SEQUENCE, parts);
    assert Countable(|parts[1].body|) && Countable(|parts[2].body|) && Countable(|parts[4].body|);
    VersionReads(3);
    DigestAlgorithmsRead();
    ContentReads(pkiData);
    SignerInfoReads(agent, serial, digest, signature);
    var signerParts := SignerInfoParts(agent, serial, digest, signature);
    assert Countable(|signerParts[3].body|);
    SignerPartsRead(agent, serial, digest, signature);
    SignerReads(agent, serial, digest, signature);
  }

  /** What a verifier takes out of the message is what went in: the content, its digest, as the
      signed bytes exactly those that the agent's key was given to sign, and how to check them: version
      3, SHA-256, and the signer under its own name and serial with its own key's algorithm. */
  lemma {:induction false} SignatureIsVerifiable(pkiData: Bytes, agent: Agent, serial: int,
                                                 digest: Bytes, signature: Bytes)
    requires Countable(|SignedMessage(pkiData, agent, serial, digest, signature).body|)
    ensures ReadVerifiable(Encode(SignedMessage(pkiData, agent, serial, digest, signature)))
            == Some(Verifiable(pkiData, digest, Encode(SetOf(Attributes(digest))), signature,
                               3, [Algorithm([2, 16, 840, 1, 101, 3, 4, 2, 1], true)], SignerOf(agent, serial)))
  {
    var signedData := SignedData(pkiData, agent, SignerInfo(agent, serial, digest, signature));
    ContentInfoReads(signedData);
    DecodeOnlyIff(Encode(signedData), signedData);
    SignedDataReads(pkiData, agent, serial, digest, signature);
  }
}
