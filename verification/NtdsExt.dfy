/** The AD SID security extension: SEQUENCE { [0] { OID, [0] { OCTET STRING "S-1-..." } } }. */
module NtdsExt {
  import opened ByteStrings
  import opened Der
  import opened DerValues
  import opened Options
  import Sid

  /** szOID_NTDS_CA_SECURITY_EXT and szOID_NTDS_OBJECTSID. */
  const SECURITY_EXT: Oid := [1, 3, 6, 1, 4, 1, 311, 25, 2]
  const OBJECT_SID: Oid := [1, 3, 6, 1, 4, 1, 311, 25, 2, 1]

  datatype Extension = Extension(id: Oid, critical: bool, value: Bytes)

  function OtherName(sid: Bytes): Tlv {
    Tagged(0, [Identified(OBJECT_SID), Tagged(0, [OctetString(sid)])])
  }

  /** BuildNTDSCASecurityExt: refuses a text that is not a SID. */
  function Build(sid: Bytes): Option<Extension> {
    if Sid.MarshalSid(sid).None? then None
    else Some(Extension(SECURITY_EXT, false, Encode(Sequence([OtherName(sid)]))))
  }

  predicate IsElement(t: Tlv, cls: Class, constructed: bool, tag: nat) {
    t.cls == cls && t.constructed == constructed && t.tag == tag
  }

  /** parseNTDSCASecurityExt, one layer after the other; every layer must be all there is. */
  function Parse(der: Bytes): Option<Bytes> {
    match DecodeOnly(der)
    case None => None
    case Some(outer) =>
      if !IsElement(outer, Universal, true, TAG_SEQUENCE) then None
      else
        match DecodeOnly(outer.body)
        case None => None
        case Some(name) =>
          if !IsElement(name, Context, true, 0) then None else ParseOtherName(name.body)
  }

  function ParseOtherName(body: Bytes): Option<Bytes> {
    match Decode(body)
    case None => None
    case Some((id, rest)) =>
      if !IsElement(id, Universal, false, TAG_OID) || ReadOid(id.body) != Some(OBJECT_SID) then None
      else
        match DecodeOnly(rest)
        case None => None
        case Some(wrapper) =>
          if !IsElement(wrapper, Context, true, 0) then None else ParseOctets(wrapper.body)
  }

  function ParseOctets(body: Bytes): Option<Bytes> {
    match DecodeOnly(body)
    case None => None
    case Some(octets) =>
      if !IsElement(octets, Universal, false, TAG_OCTET_STRING) || Sid.MarshalSid(octets.body).None? then None
      else Some(octets.body)
  }

  /** Absent and malformed are different failures. */
  datatype SidResult = Named(sid: Bytes) | NoSid | Malformed

  /** SIDFromCertificateExtensions: the first extension with the identifier decides. */
  function FromExtensions(exts: seq<Extension>): SidResult {
    if exts == [] then NoSid
    else if exts[0].id != SECURITY_EXT then FromExtensions(exts[1..])
    else
      match Parse(exts[0].value)
      case None => Malformed
      case Some(sid) => Named(sid)
  }

  // ---------------------------------------------------------------- one spelling

  lemma EncodeAllOne(t: Tlv)
    ensures EncodeAll([t]) == Encode(t)
  {
    assert EncodeAll([t]) == Encode(t) + EncodeAll([]);
  }

  lemma EncodeAllTwo(t: Tlv, u: Tlv)
    ensures EncodeAll([t, u]) == Encode(t) + Encode(u)
  {
    assert [t, u][1..] == [u];
    EncodeAllOne(u);
  }

  lemma ParseOctetsIff(body: Bytes, sid: Bytes)
    ensures ParseOctets(body) == Some(sid) <==>
            Sid.MarshalSid(sid).Some? && Countable(|sid|) && body == Encode(OctetString(sid))
  {
    DecodeOnlyIff(body, OctetString(sid));
  }

  lemma {:induction false} ParseOtherNameIff(body: Bytes, sid: Bytes)
    ensures ParseOtherName(body) == Some(sid) <==>
            && Sid.MarshalSid(sid).Some? && Countable(|sid|) && Countable(|Encode(OctetString(sid))|)
            && body == EncodeAll([Identified(OBJECT_SID), Tagged(0, [OctetString(sid)])])
  {
    var id, inner := Identified(OBJECT_SID), Encode(OctetString(sid));
    var wrapper := Tagged(0, [OctetString(sid)]);
    EncodeAllOne(OctetString(sid));
    EncodeAllTwo(id, wrapper);
    ParseOctetsIff(inner, sid);
    ReadOidIff(id.body, OBJECT_SID);
    ObjectSidIsShort();
    DecodeEncoded(id, Encode(wrapper));
    DecodeOnlyIff(Encode(wrapper), wrapper);
    if ParseOtherName(body) == Some(sid) {
      var (t, rest) := Decode(body).value;
      EncodeDecoded(body);
      ReadOidIff(t.body, OBJECT_SID);
      var w := DecodeOnly(rest).value;
      DecodeOnlyIff(rest, w);
      ParseOctetsIff(w.body, sid);
    }
  }

  lemma ObjectSidIsShort()
    ensures Countable(|OidBody(OBJECT_SID)|) && |OidBody(OBJECT_SID)| < 128
  {
    assert |OidBody(OBJECT_SID)| < 128 by {
      var xs := [40 * OBJECT_SID[0] + OBJECT_SID[1]] + OBJECT_SID[2..];
      assert xs == [43, 6, 1, 4, 1, 311, 25, 2, 1];
      ShortArcs(xs);
    }
    SmallIsCountable(|OidBody(OBJECT_SID)|);
  }

  lemma {:induction false} ShortArcs(xs: seq<nat>)
    requires forall i :: 0 <= i < |xs| ==> xs[i] < 16384
    ensures |Arcs(xs)| <= 2 * |xs|
  {
    if xs != [] {
      ShortArcs(xs[1..]);
      assert Leading128(xs[0] / 128 / 128) == [];
    }
  }

  /** The sizes of the five layers stay far below what a length can count. */
  lemma LayersAreCountable(sid: Bytes)
    requires |sid| < 288
    ensures Countable(|sid|) && Countable(|Encode(OctetString(sid))|)
    ensures Countable(|OtherName(sid).body|) && Countable(|Encode(OtherName(sid))|)
  {
    var wrapper := Tagged(0, [OctetString(sid)]);
    SmallIsCountable(|sid|);
    EncodeAllOne(OctetString(sid));
    SmallIsCountable(|wrapper.body|);
    ObjectSidIsShort();
    SmallIsCountable(|OidBody(OBJECT_SID)|);
    EncodeAllTwo(Identified(OBJECT_SID), wrapper);
    SmallIsCountable(|OtherName(sid).body|);
    SmallIsCountable(|Encode(OtherName(sid))|);
  }

  /** The parser accepts exactly the builder's image: it reads back what was built, and what it
      reads was built from the SID that it returns. */
  lemma {:induction false} ParseIsBuildBackwards(der: Bytes, sid: Bytes)
    ensures Parse(der) == Some(sid) <==> Build(sid) == Some(Extension(SECURITY_EXT, false, der))
  {
    if Sid.MarshalSid(sid).Some? {
      Sid.AcceptedTextsAreShort(sid);
      LayersAreCountable(sid);
      var name, outer := OtherName(sid), Sequence([OtherName(sid)]);
      EncodeAllOne(name);
      ParseOtherNameIff(name.body, sid);
      DecodeOnlyIff(outer.body, name);
      DecodeOnlyIff(der, outer);
    }
    if Parse(der) == Some(sid) {
      var outer := DecodeOnly(der).value;
      var name := DecodeOnly(outer.body).value;
      ParseOtherNameIff(name.body, sid);
      DecodeOnlyIff(outer.body, name);
      DecodeOnlyIff(der, outer);
      EncodeAllOne(OtherName(sid));
    }
  }

  /** So two SIDs never share an extension, and an accepted extension names one SID. */
  lemma ExtensionsNameOneSid(sid: Bytes, other: Bytes)
    requires Build(sid).Some? && Build(sid) == Build(other)
    ensures sid == other
  {
    ParseIsBuildBackwards(Build(sid).value.value, sid);
    ParseIsBuildBackwards(Build(sid).value.value, other);
  }

  /** Where the first AD SID extension is; past the end if there is none. */
  function FirstAt(exts: seq<Extension>): (i: nat)
    ensures i <= |exts| && (i < |exts| ==> exts[i].id == SECURITY_EXT)
    ensures forall j :: 0 <= j < i ==> exts[j].id != SECURITY_EXT
  {
    if exts == [] || exts[0].id == SECURITY_EXT then 0 else 1 + FirstAt(exts[1..])
  }

  /** A certificate names a SID if and only if its first AD SID extension carries, byte for byte,
      what the builder makes of that SID; and none is reported only when there is none. */
  lemma {:induction false} CertificateNamesSid(exts: seq<Extension>, sid: Bytes)
    ensures var i := FirstAt(exts);
      && (FromExtensions(exts) == Named(sid) <==>
          i < |exts| && Build(sid) == Some(Extension(SECURITY_EXT, false, exts[i].value)))
      && (FromExtensions(exts) == NoSid <==> i == |exts|)
  {
    if exts != [] {
      if exts[0].id == SECURITY_EXT {
        ParseIsBuildBackwards(exts[0].value, sid);
      } else {
        CertificateNamesSid(exts[1..], sid);
      }
    }
  }
}
