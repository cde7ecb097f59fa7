/** The request to the CA octet by octet: the CMC body and the SignedData around it. */
module SpelledRequests {
  import opened ByteStrings
  import opened Cmc
  import opened Der
  import opened DerValues
  import Names
  import opened NtdsExt
  import opened Pkcs7
  import Pkcs7Reader
  import opened SetOrder
  import opened Spelled
  import Utf

  // ---------------------------------------------------------------- short lists

  lemma EncodeAllThree(t: Tlv, u: Tlv, v: Tlv)
    ensures EncodeAll([t, u, v]) == Encode(t) + Encode(u) + Encode(v)
  {
    assert [t, u, v][1..] == [u, v];
    EncodeAllTwo(u, v);
  }

  lemma EncodeAllFour(t: Tlv, u: Tlv, v: Tlv, w: Tlv)
    ensures EncodeAll([t, u, v, w]) == Encode(t) + Encode(u) + Encode(v) + Encode(w)
  {
    assert [t, u, v, w][1..] == [u, v, w];
    EncodeAllThree(u, v, w);
  }

  lemma EncodeAllFive(t: Tlv, u: Tlv, v: Tlv, w: Tlv, x: Tlv)
    ensures EncodeAll([t, u, v, w, x]) == Encode(t) + Encode(u) + Encode(v) + Encode(w) + Encode(x)
  {
    assert [t, u, v, w, x][1..] == [u, v, w, x];
    EncodeAllFour(u, v, w, x);
  }

  lemma EncodeAllSix(t: Tlv, u: Tlv, v: Tlv, w: Tlv, x: Tlv, y: Tlv)
    ensures EncodeAll([t, u, v, w, x, y]) == Encode(t) + Encode(u) + Encode(v) + Encode(w) + Encode(x) + Encode(y)
  {
    assert [t, u, v, w, x, y][1..] == [u, v, w, x, y];
    EncodeAllFive(u, v, w, x, y);
  }

  lemma SequenceIsSpelled(ts: seq<Tlv>)
    ensures Encode(Sequence(ts)) == Element(0x30, EncodeAll(ts))
  {
    ElementsAreSpelled(ts, [], 0);
  }

  lemma OctetsAreSpelled(b: Bytes)
    ensures Encode(OctetString(b)) == Element(0x04, b)
  {
    ElementsAreSpelled([], b, 0);
  }

  lemma SetOfOneIsSpelled(t: Tlv)
    ensures Encode(SetOf([t])) == Element(0x31, Encode(t))
  {
    SetOfOne(t);
    EncodeAllOne(t);
    ElementsAreSpelled([t], Encode(t), 0);
  }

  lemma OneOctet(head: Byte, body: Bytes)
    requires |body| == 1
    ensures Element(head, body) == [head, 0x01, body[0]]
  {
  }

  /** The four small numbers that are written. */
  lemma SmallIntegerIsSpelled(v: int)
    requires 0 <= v < 4
    ensures Encode(Integer(v)) == [0x02, 0x01, v]
  {
    SmallIntegers();
    ElementsAreSpelled([], [], v);
    OneOctet(0x02, IntegerBody(v));
  }

  // ---------------------------------------------------------------- the CMC body

  /** An ASCII text in UTF-16: every octet after a zero one. */
  lemma {:induction false} AsciiIsSpelled(s: Bytes)
    requires Utf.AllAscii(s)
    ensures |Utf16(s)| == 2 * |s| && forall i :: 0 <= i < |s| ==> Utf16(s)[2 * i] == 0 && Utf16(s)[2 * i + 1] == s[i]
  {
    Utf.AsciiRunes(s);
    PlainUnits(Utf.Runes(s));
    OctetsAt(Utf.Units(Utf.Runes(s)));
  }

  lemma {:induction false} PlainUnits(runes: seq<Utf.Rune>)
    requires forall i :: 0 <= i < |runes| ==> runes[i] < 128
    ensures |Utf.Units(runes)| == |runes| && forall i :: 0 <= i < |runes| ==> Utf.Units(runes)[i] == runes[i]
  {
    if runes != [] {
      PlainUnits(runes[1..]);
    }
  }

  lemma {:induction false} OctetsAt(units: seq<Utf.Unit>)
    ensures forall i :: 0 <= i < |units| ==>
      Utf.Octets(units)[2 * i] == units[i] / 256 && Utf.Octets(units)[2 * i + 1] == units[i] % 256
  {
    if units != [] {
      OctetsAt(units[..|units| - 1]);
    }
  }

  function TemplateOctets(template: Bytes): Bytes {
    Element(0x30, CERT_TYPE_OCTETS + Element(0x04, Element(0x1E, Utf16(template))))
  }

  /** The extensions to add: to request 1 of this message, in one list. */
  function AddedOctets(template: Bytes): Bytes {
    Element(0x30, [0x02, 0x01, 0x00] + Element(0x30, [0x02, 0x01, 0x01]) + Element(0x30, TemplateOctets(template)))
  }

  function FirstControlOctets(template: Bytes): Bytes {
    Element(0x30, [0x02, 0x01, 0x02] + ADD_EXTENSIONS_OCTETS + Element(0x31, AddedOctets(template)))
  }

  function SecondControlOctets(template: Bytes, requester: Bytes): Bytes {
    Element(0x30, [0x02, 0x01, 0x03] + REG_INFO_OCTETS
                  + Element(0x31, Element(0x04, Names.RegInfo(template, requester))))
  }

  /** Two controls, the workload's request byte for byte as number 1, and two empty lists. */
  function PkiDataOctets(csr: Bytes, template: Bytes, requester: Bytes): Bytes {
    Element(0x30, Element(0x30, FirstControlOctets(template) + SecondControlOctets(template, requester))
                  + Element(0x30, Element(0xA0, [0x02, 0x01, 0x01] + csr)) + [0x30, 0x00] + [0x30, 0x00])
  }

  lemma TemplateIsSpelled(template: Bytes)
    ensures Encode(TemplateExtension(template)) == TemplateOctets(template)
  {
    var bmp := Encode(BmpStringOf(template));
    ElementsAreSpelled([], Utf16(template), 0);
    OctetsAreSpelled(bmp);
    CertTypeIsSpelled();
    EncodeAllTwo(Identified(ENROLLMENT_CERT_TYPE), OctetString(bmp));
    SequenceIsSpelled([Identified(ENROLLMENT_CERT_TYPE), OctetString(bmp)]);
  }

  lemma AddedIsSpelled(template: Bytes)
    ensures Encode(AddExtensions(template)) == AddedOctets(template)
  {
    var ref, exts := Sequence([Integer(1)]), Sequence([TemplateExtension(template)]);
    SmallIntegerIsSpelled(0);
    SmallIntegerIsSpelled(1);
    EncodeAllOne(Integer(1));
    SequenceIsSpelled([Integer(1)]);
    TemplateIsSpelled(template);
    EncodeAllOne(TemplateExtension(template));
    SequenceIsSpelled([TemplateExtension(template)]);
    EncodeAllThree(Integer(0), ref, exts);
    SequenceIsSpelled([Integer(0), ref, exts]);
  }

  lemma FirstControlIsSpelled(template: Bytes)
    ensures Encode(AddExtensionsControl(template)) == FirstControlOctets(template)
  {
    SmallIntegerIsSpelled(2);
    AddExtensionsIsSpelled();
    AddedIsSpelled(template);
    SetOfOneIsSpelled(AddExtensions(template));
    EncodeAllThree(Integer(2), Identified(CMC_ADD_EXTENSIONS), SetOf([AddExtensions(template)]));
    SequenceIsSpelled([Integer(2), Identified(CMC_ADD_EXTENSIONS), SetOf([AddExtensions(template)])]);
  }

  lemma SecondControlIsSpelled(template: Bytes, requester: Bytes)
    ensures Encode(RegInfoControl(template, requester)) == SecondControlOctets(template, requester)
  {
    var info := OctetString(Names.RegInfo(template, requester));
    SmallIntegerIsSpelled(3);
    RegInfoIsSpelled();
    OctetsAreSpelled(Names.RegInfo(template, requester));
    SetOfOneIsSpelled(info);
    EncodeAllThree(Integer(3), Identified(CMC_REG_INFO), SetOf([info]));
    SequenceIsSpelled([Integer(3), Identified(CMC_REG_INFO), SetOf([info])]);
  }

  lemma RequestIsSpelled(csr: Bytes)
    ensures Encode(Sequence([TaggedRequest(csr)])) == Element(0x30, Element(0xA0, [0x02, 0x01, 0x01] + csr))
  {
    SmallIntegerIsSpelled(1);
    ElementsAreSpelled([], Encode(Integer(1)) + csr, 0);
    EncodeAllOne(TaggedRequest(csr));
    SequenceIsSpelled([TaggedRequest(csr)]);
  }

  lemma ControlsAreSpelled(template: Bytes, requester: Bytes)
    ensures Encode(Controls(template, requester))
            == Element(0x30, FirstControlOctets(template) + SecondControlOctets(template, requester))
  {
    var first, second := AddExtensionsControl(template), RegInfoControl(template, requester);
    FirstControlIsSpelled(template);
    SecondControlIsSpelled(template, requester);
    EncodeAllTwo(first, second);
    SequenceIsSpelled([first, second]);
  }

  lemma TwoListsAndNoMore(controls: Tlv, requests: Tlv)
    ensures Encode(Sequence([controls, requests, Sequence([]), Sequence([])]))
            == Element(0x30, Encode(controls) + Encode(requests) + [0x30, 0x00] + [0x30, 0x00])
  {
    var none := Sequence([]);
    SequenceIsSpelled([]);
    assert Encode(none) == [0x30, 0x00];
    EncodeAllFour(controls, requests, none, none);
    SequenceIsSpelled([controls, requests, none, none]);
  }

  /** The CMC body, octet by octet. */
  lemma PkiDataIsSpelledOut(csr: Bytes, template: Bytes, requester: Bytes)
    ensures Encode(PkiData(csr, template, requester)) == PkiDataOctets(csr, template, requester)
  {
    ControlsAreSpelled(template, requester);
    RequestIsSpelled(csr);
    TwoListsAndNoMore(Controls(template, requester), Sequence([TaggedRequest(csr)]));
  }

  // ---------------------------------------------------------------- the SignedData around it

  /** SHA-256, with NULL parameters. */
  function DigestOctets(): Bytes {
    Element(0x30, SHA256_OCTETS + [0x05, 0x00])
  }

  /** rsaEncryption with NULL parameters for an RSA key, ecdsa-with-SHA256 alone for an ECDSA one. */
  function SignatureOctets(key: KeyKind): Bytes {
    if key == Rsa then Element(0x30, RSA_ENCRYPTION_OCTETS + [0x05, 0x00]) else Element(0x30, ECDSA_WITH_SHA256_OCTETS)
  }

  function ContentTypeAttribute(): Bytes {
    Element(0x30, CONTENT_TYPE_OCTETS + Element(0x31, PKI_DATA_OCTETS))
  }

  function DigestAttribute(digest: Bytes): Bytes {
    Element(0x30, MESSAGE_DIGEST_OCTETS + Element(0x31, Element(0x04, digest)))
  }

  lemma AlgorithmsAreSpelled(key: KeyKind)
    ensures Encode(DigestAlgorithm()) == DigestOctets() && Encode(SignatureAlgorithm(key)) == SignatureOctets(key)
  {
    Sha256IsSpelled();
    ElementsAreSpelled([], [], 0);
    EncodeAllTwo(Identified(SHA256), NULL);
    SequenceIsSpelled([Identified(SHA256), NULL]);
    if key.Rsa? {
      RsaEncryptionIsSpelled();
      EncodeAllTwo(Identified(RSA_ENCRYPTION), NULL);
      SequenceIsSpelled([Identified(RSA_ENCRYPTION), NULL]);
    } else {
      EcdsaWithSha256IsSpelled();
      EncodeAllOne(Identified(ECDSA_WITH_SHA256));
      SequenceIsSpelled([Identified(ECDSA_WITH_SHA256)]);
    }
  }

  lemma AttributeIsSpelled(kind: Oid, value: Tlv)
    requires ValidOid(kind)
    ensures Encode(Attribute(kind, value)) == Element(0x30, Encode(Identified(kind)) + Element(0x31, Encode(value)))
  {
    SetOfOneIsSpelled(value);
    EncodeAllTwo(Identified(kind), SetOf([value]));
    SequenceIsSpelled([Identified(kind), SetOf([value])]);
  }

  lemma AttributesAreSpelled(digest: Bytes)
    ensures Encode(Attributes(digest)[0]) == ContentTypeAttribute()
    ensures Encode(Attributes(digest)[1]) == DigestAttribute(digest)
  {
    ContentTypeIsSpelled();
    PkiDataIsSpelled();
    MessageDigestIsSpelled();
    OctetsAreSpelled(digest);
    AttributeIsSpelled(CONTENT_TYPE, Identified(PKI_DATA_CONTENT));
    AttributeIsSpelled(MESSAGE_DIGEST, OctetString(digest));
  }

  lemma FirstOctets(digest: Bytes)
    requires |digest| == 32
    ensures var a, b := ContentTypeAttribute(), DigestAttribute(digest);
      |a| > 2 && |b| > 2 && a[0] == 0x30 && a[1] == 0x17 && b[0] == 0x30 && b[1] == 0x2F
  {
    assert |Element(0x31, PKI_DATA_OCTETS)| == 12;
    assert |Element(0x04, digest)| == 34 && |Element(0x31, Element(0x04, digest))| == 36;
  }

  /** In a SET OF, the content type comes before a SHA-256 digest. */
  lemma AttributesInOrder(digest: Bytes)
    requires |digest| == 32
    ensures SetOf(Attributes(digest)).body == ContentTypeAttribute() + DigestAttribute(digest)
  {
    var a, b := ContentTypeAttribute(), DigestAttribute(digest);
    AttributesAreSpelled(digest);
    FirstOctets(digest);
    assert Encodings(Attributes(digest)) == [a, b];
    SecondDiffers(b, a);
    SortedPair(a, b);
    FlattenTwo(a, b);
  }

  lemma SecondDiffers(b: Bytes, a: Bytes)
    requires |a| > 1 && |b| > 1 && a[0] == b[0] && a[1] < b[1]
    ensures !Less(b, a)
  {
    assert a[1..][0] == a[1] && b[1..][0] == b[1];
    assert !Less(b[1..], a[1..]);
  }

  lemma SortedPair(a: Bytes, b: Bytes)
    requires !Less(b, a)
    ensures SortDer([a, b]) == [a, b]
  {
    assert [a, b][1..] == [b] && SortDer([b]) == [b];
  }

  function SignerOctets(agent: Agent, serial: int, digest: Bytes, signature: Bytes): Bytes {
    Element(0x30, [0x02, 0x01, 0x01] + Element(0x30, agent.issuer + Element(0x02, IntegerBody(serial)))
                  + DigestOctets() + Element(0xA0, ContentTypeAttribute() + DigestAttribute(digest))
                  + SignatureOctets(agent.key) + Element(0x04, signature))
  }

  function SignedDataOctets(pkiData: Bytes, agent: Agent, signer: Bytes): Bytes {
    Element(0x30, [0x02, 0x01, 0x03] + Element(0x31, DigestOctets())
                  + Element(0x30, PKI_DATA_OCTETS + Element(0xA0, Element(0x04, pkiData)))
                  + Element(0xA0, agent.certificate + Flatten(agent.chain)) + Element(0x31, signer))
  }

  lemma SignerIsSpelled(agent: Agent, serial: int, digest: Bytes, signature: Bytes)
    requires |digest| == 32
    ensures Encode(SignerInfo(agent, serial, digest, signature)) == SignerOctets(agent, serial, digest, signature)
  {
    var name, carried := IssuerAndSerial(agent, serial), CarriedAttributes(digest);
    SmallIntegerIsSpelled(1);
    ElementsAreSpelled([], name.body, serial);
    ElementsAreSpelled([], carried.body, 0);
    AlgorithmsAreSpelled(agent.key);
    AttributesInOrder(digest);
    OctetsAreSpelled(signature);
    EncodeAllSix(Integer(1), name, DigestAlgorithm(), carried, SignatureAlgorithm(agent.key), OctetString(signature));
    SequenceIsSpelled(SignerInfoParts(agent, serial, digest, signature));
  }

  lemma EncapsulatedIsSpelled(pkiData: Bytes)
    ensures Encode(Encapsulated(pkiData)) == Element(0x30, PKI_DATA_OCTETS + Element(0xA0, Element(0x04, pkiData)))
  {
    PkiDataIsSpelled();
    OctetsAreSpelled(pkiData);
    EncodeAllOne(OctetString(pkiData));
    ElementsAreSpelled([OctetString(pkiData)], [], 0);
    EncodeAllTwo(Identified(PKI_DATA_CONTENT), Tagged(0, [OctetString(pkiData)]));
    SequenceIsSpelled([Identified(PKI_DATA_CONTENT), Tagged(0, [OctetString(pkiData)])]);
  }

  lemma CertificatesAreSpelled(agent: Agent)
    ensures Encode(Certificates(agent)) == Element(0xA0, agent.certificate + Flatten(agent.chain))
  {
    FlattenAppend([agent.certificate], agent.chain);
    FlattenOne(agent.certificate);
    ElementsAreSpelled([], Certificates(agent).body, 0);
  }

  lemma SignedDataIsSpelledOut(pkiData: Bytes, agent: Agent, info: Tlv)
    ensures Encode(SignedData(pkiData, agent, info)) == SignedDataOctets(pkiData, agent, Encode(info))
  {
    SmallIntegerIsSpelled(3);
    AlgorithmsAreSpelled(agent.key);
    SetOfOneIsSpelled(DigestAlgorithm());
    EncapsulatedIsSpelled(pkiData);
    CertificatesAreSpelled(agent);
    SetOfOneIsSpelled(info);
    EncodeAllFive(Integer(3), SetOf([DigestAlgorithm()]), Encapsulated(pkiData), Certificates(agent), SetOf([info]));
    SequenceIsSpelled(SignedDataParts(pkiData, agent, info));
  }

  lemma ContentInfoIsSpelled(signedData: Tlv)
    ensures Encode(ContentInfo(signedData)) == Element(0x30, SIGNED_DATA_OCTETS + Element(0xA0, Encode(signedData)))
  {
    SignedDataIsSpelled();
    EncodeAllOne(signedData);
    ElementsAreSpelled([signedData], [], 0);
    EncodeAllTwo(Identified(SIGNED_DATA), Tagged(0, [signedData]));
    SequenceIsSpelled([Identified(SIGNED_DATA), Tagged(0, [signedData])]);
  }

  /** The whole message, octet by octet, around a SHA-256 digest. */
  lemma MessageIsSpelledOut(pkiData: Bytes, agent: Agent, serial: int, digest: Bytes, signature: Bytes)
    requires |digest| == 32
    ensures Encode(SignedMessage(pkiData, agent, serial, digest, signature))
            == Element(0x30, SIGNED_DATA_OCTETS
                             + Element(0xA0, SignedDataOctets(pkiData, agent,
                                                              SignerOctets(agent, serial, digest, signature))))
  {
    var info := SignerInfo(agent, serial, digest, signature);
    SignerIsSpelled(agent, serial, digest, signature);
    SignedDataIsSpelledOut(pkiData, agent, info);
    ContentInfoIsSpelled(SignedData(pkiData, agent, info));
  }

  /** What the reader of responses takes begins, in its outer sequence, with the identifier of
      SignedData. */
  lemma OnlySignedDataIsRead(der: Bytes)
    requires Pkcs7Reader.ReadContentInfo(der).Some?
    ensures Pkcs7Reader.Fields(der).Some? && SIGNED_DATA_OCTETS <= Pkcs7Reader.Fields(der).value
  {
    var fields := Pkcs7Reader.Fields(der).value;
    var (id, rest) := Decode(fields).value;
    EncodeDecoded(fields);
    ReadOidIff(id.body, SIGNED_DATA);
    SignedDataIsSpelled();
    assert id == Identified(SIGNED_DATA);
  }
}
