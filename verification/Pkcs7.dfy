/** CMS SignedData (section 5 of RFC 5652): the wrapping that the enrollment agent signs, and the
    hand-written reader that takes the certificates out of a PKCS#7 response. */
module Pkcs7 {
  import opened ByteStrings
  import opened Cmc
  import opened Der
  import opened DerValues
  import opened Options
  import opened SetOrder

  const SIGNED_DATA: Oid := [1, 2, 840, 113549, 1, 7, 2]
  const PKI_DATA_CONTENT: Oid := [1, 3, 6, 1, 5, 5, 7, 12, 2]
  const CONTENT_TYPE: Oid := [1, 2, 840, 113549, 1, 9, 3]
  const MESSAGE_DIGEST: Oid := [1, 2, 840, 113549, 1, 9, 4]
  const SHA256: Oid := [2, 16, 840, 1, 101, 3, 4, 2, 1]
  const RSA_ENCRYPTION: Oid := [1, 2, 840, 113549, 1, 1, 1]
  const ECDSA_WITH_SHA256: Oid := [1, 2, 840, 10045, 4, 3, 2]

  datatype KeyKind = Rsa | Ecdsa | OtherKey

  /** What of the enrollment agent goes into a request; certificates are their raw bytes. */
  datatype Agent = Agent(certificate: Bytes, issuer: Bytes, serial: Option<int>, chain: seq<Bytes>, key: KeyKind)

  // ---------------------------------------------------------------- what is built

  function DigestAlgorithm(): Tlv {
    Sequence([Identified(SHA256), NULL])
  }

  function SignatureAlgorithm(key: KeyKind): Tlv {
    if key.Rsa? then Sequence([Identified(RSA_ENCRYPTION), NULL]) else Sequence([Identified(ECDSA_WITH_SHA256)])
  }

  /** The two signed attributes. */
  function Attribute(kind: Oid, value: Tlv): Tlv
    requires ValidOid(kind)
  {
    Sequence([Identified(kind), SetOf([value])])
  }

  function Attributes(digest: Bytes): (r: seq<Tlv>)
    ensures |r| == 2
  {
    [Attribute(CONTENT_TYPE, Identified(PKI_DATA_CONTENT)), Attribute(MESSAGE_DIGEST, OctetString(digest))]
  }

  /** They are carried under [0] ... */
  function CarriedAttributes(digest: Bytes): Tlv {
    Tlv(Context, true, 0, SetOf(Attributes(digest)).body)
  }

  /** How version 1 names the signer. */
  function IssuerAndSerial(agent: Agent, serial: int): Tlv {
    Tlv(Universal, true, TAG_SEQUENCE, agent.issuer + Encode(Integer(serial)))
  }

  function SignerInfoParts(agent: Agent, serial: int, digest: Bytes, signature: Bytes): (r: seq<Tlv>)
    ensures |r| == 6
  {
    [Integer(1), IssuerAndSerial(agent, serial), DigestAlgorithm(),
     CarriedAttributes(digest), SignatureAlgorithm(agent.key), OctetString(signature)]
  }

  function SignerInfo(agent: Agent, serial: int, digest: Bytes, signature: Bytes): Tlv {
    Sequence(SignerInfoParts(agent, serial, digest, signature))
  }

  function Encapsulated(pkiData: Bytes): Tlv {
    Sequence([Identified(PKI_DATA_CONTENT), Tagged(0, [OctetString(pkiData)])])
  }

  /** [0] IMPLICIT CertificateSet: the agent's certificate, then its chain. */
  function Certificates(agent: Agent): Tlv {
    Tlv(Context, true, 0, Flatten([agent.certificate] + agent.chain))
  }

  function SignedDataParts(pkiData: Bytes, agent: Agent, signerInfo: Tlv): (r: seq<Tlv>)
    ensures |r| == 5
  {
    [Integer(3), SetOf([DigestAlgorithm()]), Encapsulated(pkiData), Certificates(agent), SetOf([signerInfo])]
  }

  function SignedData(pkiData: Bytes, agent: Agent, signerInfo: Tlv): Tlv {
    Sequence(SignedDataParts(pkiData, agent, signerInfo))
  }

  function ContentInfo(signedData: Tlv): Tlv {
    Sequence([Identified(SIGNED_DATA), Tagged(0, [signedData])])
  }

  function SignedMessage(pkiData: Bytes, agent: Agent, serial: int, digest: Bytes, signature: Bytes): Tlv {
    ContentInfo(SignedData(pkiData, agent, SignerInfo(agent, serial, digest, signature)))
  }

  // ---------------------------------------------------------------- the signer

  lemma FlattenFive(t: Tlv, u: Tlv, v: Tlv, w: Tlv, x: Tlv)
    ensures Flatten([Encode(t), Encode(u), Encode(v), Encode(w), Encode(x)]) == EncodeAll([t, u, v, w, x])
  {
    FlattenEncoded([t, u, v, w, x], [Encode(t), Encode(u), Encode(v), Encode(w), Encode(x)]);
  }

  lemma FlattenSix(t: Tlv, u: Tlv, v: Tlv, w: Tlv, x: Tlv, y: Tlv)
    ensures Flatten([Encode(t), Encode(u), Encode(v), Encode(w), Encode(x), Encode(y)]) == EncodeAll([t, u, v, w, x, y])
  {
    FlattenEncoded([t, u, v, w, x, y], [Encode(t), Encode(u), Encode(v), Encode(w), Encode(x), Encode(y)]);
  }

  method AlgorithmOf(b: DerBuilder, key: KeyKind) returns (out: Bytes)
    requires !b.err && !key.OtherKey?
    modifies b
    ensures !b.err && out == Encode(SignatureAlgorithm(key))
  {
    if key.Rsa? {
      var id := b.ObjectIdentifier(RSA_ENCRYPTION);
      var none := b.Null();
      out := b.SequenceOf([id, none]);
      FlattenEncoded([Identified(RSA_ENCRYPTION), NULL], [id, none]);
    } else {
      var id := b.ObjectIdentifier(ECDSA_WITH_SHA256);
      out := b.SequenceOf([id]);
      FlattenEncoded([Identified(ECDSA_WITH_SHA256)], [id]);
    }
  }

  method DigestAlgorithmOf(b: DerBuilder) returns (out: Bytes)
    requires !b.err
    modifies b
    ensures !b.err && out == Encode(DigestAlgorithm())
  {
    var id := b.ObjectIdentifier(SHA256);
    var none := b.Null();
    out := b.SequenceOf([id, none]);
    FlattenEncoded([Identified(SHA256), NULL], [id, none]);
  }

  method AttributeOf(b: DerBuilder, kind: Oid, ghost value: Tlv, encoded: Bytes) returns (out: Bytes)
    requires !b.err && ValidOid(kind) && encoded == Encode(value)
    modifies b
    ensures !b.err && out == Encode(Attribute(kind, value))
  {
    var id := b.ObjectIdentifier(kind);
    var values := b.Set([encoded]);
    SetOfOne(value);
    out := b.SequenceOf([id, values]);
    FlattenEncoded([Identified(kind), SetOf([value])], [id, values]);
  }

  /** The signed attributes twice: as the SET that is signed, and as the [0] that is carried. */
  method AttributesOf(b: DerBuilder, digest: Bytes) returns (toSign: Bytes, carried: Bytes)
    requires !b.err
    modifies b
    ensures !b.err && toSign == Encode(SetOf(Attributes(digest))) && carried == Encode(CarriedAttributes(digest))
  {
    var typ := b.ObjectIdentifier(PKI_DATA_CONTENT);
    var contentType := AttributeOf(b, CONTENT_TYPE, Identified(PKI_DATA_CONTENT), typ);
    var octets := b.OctetStringOf(digest);
    var messageDigest := AttributeOf(b, MESSAGE_DIGEST, OctetString(digest), octets);
    assert Encodings(Attributes(digest)) == [contentType, messageDigest];
    var attrs := SortDer([contentType, messageDigest]);
    SortIsTheOnlyOne([contentType, messageDigest], attrs);
    toSign := b.Set(attrs);
    carried := b.Implicit(0, attrs);
  }

  method IssuerAndSerialOf(b: DerBuilder, agent: Agent) returns (out: Bytes)
    requires !b.err
    modifies b
    ensures b.err <==> agent.serial.None?
    ensures !b.err ==> out == Encode(IssuerAndSerial(agent, agent.serial.value))
  {
    var serial := b.BigInteger(agent.serial);
    out := b.SequenceOf([agent.issuer, serial]);
    FlattenTwo(agent.issuer, serial);
  }

  method SignerInfoOf(b: DerBuilder, agent: Agent, serial: int, name: Bytes, digestAlg: Bytes, carried: Bytes,
                      sigAlg: Bytes, ghost digest: Bytes, signature: Bytes) returns (out: Bytes)
    requires !b.err && name == Encode(IssuerAndSerial(agent, serial))
    requires digestAlg == Encode(DigestAlgorithm()) && carried == Encode(CarriedAttributes(digest))
    requires sigAlg == Encode(SignatureAlgorithm(agent.key))
    ensures out == Encode(SignerInfo(agent, serial, digest, signature))
  {
    var version := b.IntegerOf(1);
    var sig := b.OctetStringOf(signature);
    out := b.SequenceOf([version, name, digestAlg, carried, sigAlg, sig]);
    FlattenSix(Integer(1), IssuerAndSerial(agent, serial), DigestAlgorithm(), CarriedAttributes(digest),
               SignatureAlgorithm(agent.key), OctetString(signature));
  }

  method EncapsulatedOf(b: DerBuilder, pkiData: Bytes) returns (out: Bytes)
    requires !b.err
    modifies b
    ensures !b.err && out == Encode(Encapsulated(pkiData))
  {
    var typ := b.ObjectIdentifier(PKI_DATA_CONTENT);
    var octets := b.OctetStringOf(pkiData);
    var wrapped := b.Explicit(0, [octets]);
    FlattenEncoded([OctetString(pkiData)], [octets]);
    out := b.SequenceOf([typ, wrapped]);
    FlattenEncoded([Identified(PKI_DATA_CONTENT), Tagged(0, [OctetString(pkiData)])], [typ, wrapped]);
  }

  method ContentInfoOf(b: DerBuilder, ghost signedData: Tlv, encoded: Bytes) returns (out: Bytes)
    requires !b.err && encoded == Encode(signedData)
    modifies b
    ensures !b.err && out == Encode(ContentInfo(signedData))
  {
    var id := b.ObjectIdentifier(SIGNED_DATA);
    var wrapped := b.Explicit(0, [encoded]);
    FlattenEncoded([signedData], [encoded]);
    out := b.SequenceOf([id, wrapped]);
    FlattenEncoded([Identified(SIGNED_DATA), Tagged(0, [signedData])], [id, wrapped]);
  }

  method CertificatesOf(b: DerBuilder, agent: Agent) returns (out: Bytes)
    requires !b.err
    ensures out == Encode(Certificates(agent))
  {
    var certs := [agent.certificate];
    for i := 0 to |agent.chain|
      invariant certs == [agent.certificate] + agent.chain[..i]
    {
      certs := certs + [agent.chain[i]];
    }
    assert agent.chain[..|agent.chain|] == agent.chain;
    out := b.Implicit(0, certs);
  }

  /** What the agent's key is asked to sign. */
  function SignedDigest(pkiData: Bytes, sha256: Bytes -> Bytes): Bytes {
    sha256(Encode(SetOf(Attributes(sha256(pkiData)))))
  }

  /** signPKIData. It fails for a key of no known kind, when the key does not sign, or without a serial number. */
  method SignPkiData(pkiData: Bytes, agent: Agent, sha256: Bytes -> Bytes, sign: Bytes -> Option<Bytes>)
    returns (r: Option<Bytes>)
    ensures r.Some? <==> !agent.key.OtherKey? && agent.serial.Some? && sign(SignedDigest(pkiData, sha256)).Some?
    ensures r.Some? ==> r.value == Encode(SignedMessage(pkiData, agent, agent.serial.value, sha256(pkiData),
                                                        sign(SignedDigest(pkiData, sha256)).value))
  {
    if agent.key.OtherKey? {
      return None;
    }
    var b := new DerBuilder();
    var sigAlg := AlgorithmOf(b, agent.key);
    var digestAlg := DigestAlgorithmOf(b);
    var digest := sha256(pkiData);
    var toSign, carried := AttributesOf(b, digest);
    var signature := sign(sha256(toSign));
    if signature.None? {
      return None;
    }
    var name := IssuerAndSerialOf(b, agent);
    if b.err {
      return None;
    }
    ghost var info := SignerInfo(agent, agent.serial.value, digest, signature.value);
    var signerInfo := SignerInfoOf(b, agent, agent.serial.value, name, digestAlg, carried, sigAlg,
                                   digest, signature.value);
    var signed := SignedDataOf(b, pkiData, agent, digestAlg, info, signerInfo);
    var out := ContentInfoOf(b, SignedData(pkiData, agent, info), signed);
    r := Some(out);
  }

  method SetOfOneOf(b: DerBuilder, ghost t: Tlv, encoded: Bytes) returns (out: Bytes)
    requires !b.err && encoded == Encode(t)
    ensures out == Encode(SetOf([t]))
  {
    out := b.Set([encoded]);
    SetOfOne(t);
  }

  method SignedDataOf(b: DerBuilder, pkiData: Bytes, agent: Agent, digestAlg: Bytes,
                      ghost signerInfo: Tlv, encoded: Bytes)
    returns (out: Bytes)
    requires !b.err && digestAlg == Encode(DigestAlgorithm()) && encoded == Encode(signerInfo)
    modifies b
    ensures !b.err && out == Encode(SignedData(pkiData, agent, signerInfo))
  {
    var version := b.IntegerOf(3);
    var algs := SetOfOneOf(b, DigestAlgorithm(), digestAlg);
    var content := EncapsulatedOf(b, pkiData);
    var certificates := CertificatesOf(b, agent);
    var infos := SetOfOneOf(b, signerInfo, encoded);
    out := b.SequenceOf([version, algs, content, certificates, infos]);
    FlattenFive(Integer(3), SetOf([DigestAlgorithm()]), Encapsulated(pkiData), Certificates(agent),
                SetOf([signerInfo]));
  }
}
