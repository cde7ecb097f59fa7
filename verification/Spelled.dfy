/** The encodings octet by octet: what the program writes, without the element type, the tags and the
    object identifiers that its builders and readers share. */
module Spelled {
  import opened ByteStrings
  import Cdp
  import Cmc
  import opened Der
  import opened DerValues
  import opened NtdsExt
  import opened Options
  import Pkcs7
  import Sid

  // ---------------------------------------------------------------- lengths and elements

  /** Length octets (section 10.1 of ITU-T X.690), for all lengths below 2 to the power of 24. */
  function LengthOctets(n: nat): Bytes {
    if n < 0x80 then [n]
    else if n < 0x100 then [0x81, n]
    else if n < 0x1_0000 then [0x82, n / 0x100, n % 0x100]
    else if n < 0x100_0000 then [0x83, n / 0x1_0000, n / 0x100 % 0x100, n % 0x100]
    else Length(n)
  }

  lemma LengthIsSpelled(n: nat)
    ensures Length(n) == LengthOctets(n)
  {
    var a, b := n / 0x100, n / 0x100 / 0x100;
    assert a / 0x100 == b && b / 0x100 == n / 0x100_0000;
    if n < 0x100_0000 {
      assert MinBytes(b / 0x100) == [];
      assert MinBytes(b) == if b == 0 then [] else [b];
      assert MinBytes(a) == if a == 0 then [] else MinBytes(b) + [a % 0x100];
      assert MinBytes(n) == if n == 0 then [] else MinBytes(a) + [n % 0x100];
      assert |MinBytes(n)| <= 3;
    }
  }

  /** The identifier octet, the length and the contents. */
  function Element(head: Byte, body: Bytes): Bytes {
    [head] + LengthOctets(|body|) + body
  }

  /** The kinds of elements there are, by their identifier octets. */
  lemma ElementsAreSpelled(ts: seq<Tlv>, b: Bytes, v: int)
    ensures Encode(Sequence(ts)) == Element(0x30, EncodeAll(ts))
    ensures Encode(Tlv(Universal, true, TAG_SEQUENCE, b)) == Element(0x30, b)
    ensures Encode(Tlv(Universal, true, TAG_SET, b)) == Element(0x31, b)
    ensures Encode(Tagged(0, ts)) == Element(0xA0, EncodeAll(ts))
    ensures Encode(Tlv(Context, true, 0, b)) == Element(0xA0, b)
    ensures Encode(OctetString(b)) == Element(0x04, b)
    ensures Encode(Integer(v)) == Element(0x02, IntegerBody(v))
    ensures Encode(Tlv(Universal, false, TAG_BMP_STRING, b)) == Element(0x1E, b)
    ensures Encode(Cdp.UriName(b)) == Element(0x86, b)
    ensures Encode(NULL) == [0x05, 0x00]
  {
    LengthIsSpelled(|EncodeAll(ts)|);
    LengthIsSpelled(|b|);
    LengthIsSpelled(|IntegerBody(v)|);
  }

  lemma IdentifiedIsSpelled(arcs: Oid)
    requires ValidOid(arcs)
    ensures Encode(Identified(arcs)) == Element(0x06, OidBody(arcs))
  {
    LengthIsSpelled(|OidBody(arcs)|);
  }

  // ---------------------------------------------------------------- integers

  lemma {:induction false} ValueOfInverse(b: Bytes)
    ensures Value(Invert(b)) + Value(b) + 1 == Power256(|b|)
  {
    if b != [] {
      var init := b[..|b| - 1];
      ValueOfInverse(init);
      assert Invert(b)[..|b| - 1] == Invert(init);
    }
  }

  /** Two's complement: the octets are worth the number, or, for a negative one, the number and as many
      256s multiplied as there are octets. */
  lemma IntegerIsTwosComplement(v: int)
    ensures var b := IntegerBody(v);
      && b != [] && (b[0] < 128 <==> v >= 0)
      && Value(b) == if v >= 0 then v else v + Power256(|b|)
  {
    if v >= 0 {
      ValueOfPad(v);
    } else {
      ValueOfPad(-v - 1);
      ValueOfInverse(Pad(MinBytes(-v - 1)));
    }
  }

  lemma SmallIntegers()
    ensures IntegerBody(0) == [0] && IntegerBody(1) == [1] && IntegerBody(2) == [2] && IntegerBody(3) == [3]
  {
  }

  // ---------------------------------------------------------------- object identifiers

  /** One number in base 128, all octets but the last with the high bit set. */
  function ArcOctets(n: nat): Bytes
    requires n < 0x20_0000
  {
    if n < 0x80 then [n]
    else if n < 0x4000 then [0x80 + n / 0x80, n % 0x80]
    else [0x80 + n / 0x4000, 0x80 + n / 0x80 % 0x80, n % 0x80]
  }

  lemma ArcIsSpelled(n: nat)
    requires n < 0x20_0000
    ensures Base128(n) == ArcOctets(n)
  {
    var a, b := n / 0x80, n / 0x80 / 0x80;
    assert b == n / 0x4000 && b / 0x80 == 0;
    assert Leading128(b / 0x80) == [];
    assert Leading128(b) == if b == 0 then [] else [0x80 + b];
    assert Leading128(a) == if a == 0 then [] else Leading128(b) + [0x80 + a % 0x80];
  }

  function AllArcOctets(xs: seq<nat>): Bytes
    requires forall i :: 0 <= i < |xs| ==> xs[i] < 0x20_0000
  {
    if xs == [] then [] else ArcOctets(xs[0]) + AllArcOctets(xs[1..])
  }

  lemma {:induction false} ArcsAreSpelled(xs: seq<nat>)
    requires forall i :: 0 <= i < |xs| ==> xs[i] < 0x20_0000
    ensures Arcs(xs) == AllArcOctets(xs)
  {
    if xs != [] {
      ArcIsSpelled(xs[0]);
      ArcsAreSpelled(xs[1..]);
    }
  }

  // ---------------------------------------------------------------- the identifiers in use

  const OBJECT_SID_OCTETS: Bytes :=
    [0x06, 0x0A, 0x2B, 0x06, 0x01, 0x04, 0x01, 0x82, 0x37, 0x19, 0x02, 0x01]

  const ADD_EXTENSIONS_OCTETS: Bytes :=
    [0x06, 0x08, 0x2B, 0x06, 0x01, 0x05, 0x05, 0x07, 0x07, 0x08]

  const REG_INFO_OCTETS: Bytes :=
    [0x06, 0x08, 0x2B, 0x06, 0x01, 0x05, 0x05, 0x07, 0x07, 0x12]

  const CERT_TYPE_OCTETS: Bytes :=
    [0x06, 0x09, 0x2B, 0x06, 0x01, 0x04, 0x01, 0x82, 0x37, 0x14, 0x02]

  const SIGNED_DATA_OCTETS: Bytes :=
    [0x06, 0x09, 0x2A, 0x86, 0x48, 0x86, 0xF7, 0x0D, 0x01, 0x07, 0x02]

  const PKI_DATA_OCTETS: Bytes :=
    [0x06, 0x08, 0x2B, 0x06, 0x01, 0x05, 0x05, 0x07, 0x0C, 0x02]

  const CONTENT_TYPE_OCTETS: Bytes :=
    [0x06, 0x09, 0x2A, 0x86, 0x48, 0x86, 0xF7, 0x0D, 0x01, 0x09, 0x03]

  const MESSAGE_DIGEST_OCTETS: Bytes :=
    [0x06, 0x09, 0x2A, 0x86, 0x48, 0x86, 0xF7, 0x0D, 0x01, 0x09, 0x04]

  const SHA256_OCTETS: Bytes :=
    [0x06, 0x09, 0x60, 0x86, 0x48, 0x01, 0x65, 0x03, 0x04, 0x02, 0x01]

  const RSA_ENCRYPTION_OCTETS: Bytes :=
    [0x06, 0x09, 0x2A, 0x86, 0x48, 0x86, 0xF7, 0x0D, 0x01, 0x01, 0x01]

  const ECDSA_WITH_SHA256_OCTETS: Bytes :=
    [0x06, 0x08, 0x2A, 0x86, 0x48, 0xCE, 0x3D, 0x04, 0x03, 0x02]

  lemma {:induction false} ArcsInTwo(xs: seq<nat>, ys: seq<nat>)
    requires forall i :: 0 <= i < |xs| ==> xs[i] < 0x20_0000
    requires forall i :: 0 <= i < |ys| ==> ys[i] < 0x20_0000
    ensures AllArcOctets(xs + ys) == AllArcOctets(xs) + AllArcOctets(ys)
  {
    if xs == [] {
      assert xs + ys == ys;
    } else {
      assert (xs + ys)[1..] == xs[1..] + ys;
      ArcsInTwo(xs[1..], ys);
    }
  }

  predicate Small(xs: Bytes) {
    forall i :: 0 <= i < |xs| ==> xs[i] < 0x80
  }

  lemma {:induction false} SmallArcs(xs: Bytes)
    requires Small(xs)
    ensures AllArcOctets(xs) == xs
  {
    if xs != [] {
      SmallArcs(xs[1..]);
      assert xs == [xs[0]] + xs[1..];
    }
  }

  lemma OneArc(n: nat)
    requires n < 0x20_0000
    ensures AllArcOctets([n]) == ArcOctets(n)
  {
    assert AllArcOctets([n]) == ArcOctets(n) + AllArcOctets([]);
  }

  lemma ArcsInThree(xs: Bytes, large: seq<nat>, ys: Bytes)
    requires Small(xs) && Small(ys) && forall i :: 0 <= i < |large| ==> large[i] < 0x20_0000
    ensures forall i :: 0 <= i < |xs + large + ys| ==> (xs + large + ys)[i] < 0x20_0000
    ensures AllArcOctets(xs + large + ys) == xs + AllArcOctets(large) + ys
  {
    SmallArcs(xs);
    SmallArcs(ys);
    ArcsInTwo(xs, large);
    ArcsInTwo(xs + large, ys);
  }

  lemma ArcsOf(arcs: Oid, xs: seq<nat>)
    requires ValidOid(arcs) && [40 * arcs[0] + arcs[1]] + arcs[2..] == xs
    ensures OidBody(arcs) == Arcs(xs)
  {
  }

  /** An identifier's element: some small numbers, at most two others, and small ones again. */
  lemma IdentifierIsSpelled(arcs: Oid, xs: Bytes, large: seq<nat>, ys: Bytes)
    requires ValidOid(arcs) && [40 * arcs[0] + arcs[1]] + arcs[2..] == xs + large + ys
    requires Small(xs) && Small(ys) && forall i :: 0 <= i < |large| ==> large[i] < 0x20_0000
    ensures Encode(Identified(arcs)) == Element(0x06, xs + AllArcOctets(large) + ys)
  {
    var all := xs + large + ys;
    ArcsInThree(xs, large, ys);
    ArcsAreSpelled(all);
    ArcsOf(arcs, all);
    IdentifiedIsSpelled(arcs);
  }

  lemma TwoArcs(n: nat, m: nat)
    requires n < 0x20_0000 && m < 0x20_0000
    ensures AllArcOctets([n, m]) == ArcOctets(n) + ArcOctets(m)
  {
    OneArc(m);
    assert [n, m][1..] == [m];
  }

  lemma ObjectSidIsSpelled()
    ensures Encode(Identified(OBJECT_SID)) == OBJECT_SID_OCTETS
  {
    var arcs: Oid :| arcs == OBJECT_SID;
    OneArc(311);
    IdentifierIsSpelled(arcs, [43, 6, 1, 4, 1], [311], [25, 2, 1]);
  }

  lemma CertTypeIsSpelled()
    ensures Encode(Identified(Cmc.ENROLLMENT_CERT_TYPE)) == CERT_TYPE_OCTETS
  {
    var arcs: Oid :| arcs == Cmc.ENROLLMENT_CERT_TYPE;
    OneArc(311);
    IdentifierIsSpelled(arcs, [43, 6, 1, 4, 1], [311], [20, 2]);
  }

  lemma AddExtensionsIsSpelled()
    ensures Encode(Identified(Cmc.CMC_ADD_EXTENSIONS)) == ADD_EXTENSIONS_OCTETS
  {
    var arcs: Oid :| arcs == Cmc.CMC_ADD_EXTENSIONS;
    IdentifierIsSpelled(arcs, [43, 6, 1, 5, 5, 7, 7, 8], [], []);
  }

  lemma RegInfoIsSpelled()
    ensures Encode(Identified(Cmc.CMC_REG_INFO)) == REG_INFO_OCTETS
  {
    var arcs: Oid :| arcs == Cmc.CMC_REG_INFO;
    IdentifierIsSpelled(arcs, [43, 6, 1, 5, 5, 7, 7, 18], [], []);
  }

  lemma PkiDataIsSpelled()
    ensures Encode(Identified(Pkcs7.PKI_DATA_CONTENT)) == PKI_DATA_OCTETS
  {
    var arcs: Oid :| arcs == Pkcs7.PKI_DATA_CONTENT;
    IdentifierIsSpelled(arcs, [43, 6, 1, 5, 5, 7, 12, 2], [], []);
  }

  lemma SignedDataIsSpelled()
    ensures Encode(Identified(Pkcs7.SIGNED_DATA)) == SIGNED_DATA_OCTETS
  {
    var arcs: Oid :| arcs == Pkcs7.SIGNED_DATA;
    TwoArcs(840, 113549);
    IdentifierIsSpelled(arcs, [42], [840, 113549], [1, 7, 2]);
  }

  lemma ContentTypeIsSpelled()
    ensures Encode(Identified(Pkcs7.CONTENT_TYPE)) == CONTENT_TYPE_OCTETS
  {
    var arcs: Oid :| arcs == Pkcs7.CONTENT_TYPE;
    TwoArcs(840, 113549);
    IdentifierIsSpelled(arcs, [42], [840, 113549], [1, 9, 3]);
  }

  lemma MessageDigestIsSpelled()
    ensures Encode(Identified(Pkcs7.MESSAGE_DIGEST)) == MESSAGE_DIGEST_OCTETS
  {
    var arcs: Oid :| arcs == Pkcs7.MESSAGE_DIGEST;
    TwoArcs(840, 113549);
    IdentifierIsSpelled(arcs, [42], [840, 113549], [1, 9, 4]);
  }

  lemma Sha256IsSpelled()
    ensures Encode(Identified(Pkcs7.SHA256)) == SHA256_OCTETS
  {
    var arcs: Oid :| arcs == Pkcs7.SHA256;
    OneArc(840);
    IdentifierIsSpelled(arcs, [96], [840], [1, 101, 3, 4, 2, 1]);
  }

  lemma RsaEncryptionIsSpelled()
    ensures Encode(Identified(Pkcs7.RSA_ENCRYPTION)) == RSA_ENCRYPTION_OCTETS
  {
    var arcs: Oid :| arcs == Pkcs7.RSA_ENCRYPTION;
    TwoArcs(840, 113549);
    IdentifierIsSpelled(arcs, [42], [840, 113549], [1, 1, 1]);
  }

  lemma EcdsaWithSha256IsSpelled()
    ensures Encode(Identified(Pkcs7.ECDSA_WITH_SHA256)) == ECDSA_WITH_SHA256_OCTETS
  {
    var arcs: Oid :| arcs == Pkcs7.ECDSA_WITH_SHA256;
    TwoArcs(840, 10045);
    IdentifierIsSpelled(arcs, [42], [840, 10045], [4, 3, 2]);
  }

  // ---------------------------------------------------------------- the AD SID extension

  /** The builder's extension, octet by octet. */
  lemma ExtensionIsSpelled(sid: Bytes)
    requires Build(sid).Some?
    ensures Build(sid).value.id == [1, 3, 6, 1, 4, 1, 311, 25, 2] && !Build(sid).value.critical
    ensures Build(sid).value.value
            == Element(0x30, Element(0xA0, OBJECT_SID_OCTETS + Element(0xA0, Element(0x04, sid))))
  {
    var octets, wrapper := OctetString(sid), Tagged(0, [OctetString(sid)]);
    EncodeAllOne(octets);
    EncodeAllTwo(Identified(OBJECT_SID), wrapper);
    EncodeAllOne(OtherName(sid));
    ElementsAreSpelled([octets], sid, 0);
    ElementsAreSpelled([Identified(OBJECT_SID), wrapper], [], 0);
    ElementsAreSpelled([OtherName(sid)], [], 0);
    ObjectSidIsSpelled();
  }

  lemma ShortNest(id: Bytes, sid: Bytes)
    requires |id| == 12 && |sid| <= 109
    ensures var n := |sid|;
      Element(0x30, Element(0xA0, id + Element(0xA0, Element(0x04, sid))))
      == [0x30, n + 18, 0xA0, n + 16] + id + [0xA0, n + 2, 0x04, n] + sid
  {
    var n := |sid|;
    assert Element(0x04, sid) == [0x04, n] + sid;
    assert Element(0xA0, Element(0x04, sid)) == [0xA0, n + 2, 0x04, n] + sid;
  }

  /** With every length in one octet, as for the SID of any domain account. */
  lemma ShortExtensionIsSpelled(sid: Bytes)
    requires Build(sid).Some? && |sid| <= 109
    ensures var n := |sid|;
      Build(sid).value.value
      == [0x30, n + 18, 0xA0, n + 16] + [0x06, 0x0A, 0x2B, 0x06, 0x01, 0x04, 0x01, 0x82, 0x37, 0x19, 0x02, 0x01]
         + [0xA0, n + 2, 0x04, n] + sid
  {
    ExtensionIsSpelled(sid);
    ShortNest(OBJECT_SID_OCTETS, sid);
  }

  // ---------------------------------------------------------------- CRL distribution points

  function PointOctets(uri: Bytes): Bytes {
    Element(0x30, Element(0xA0, Element(0xA0, Element(0x86, uri))))
  }

  function AllPointOctets(uris: seq<Bytes>): Bytes {
    if uris == [] then [] else PointOctets(uris[0]) + AllPointOctets(uris[1..])
  }

  lemma PointIsSpelled(uri: Bytes)
    ensures Encode(Cdp.Point(uri)) == PointOctets(uri)
  {
    var fullName := Tagged(0, [Cdp.UriName(uri)]);
    EncodeAllOne(Cdp.UriName(uri));
    EncodeAllOne(fullName);
    EncodeAllOne(Tagged(0, [fullName]));
    ElementsAreSpelled([Cdp.UriName(uri)], uri, 0);
    ElementsAreSpelled([fullName], [], 0);
    ElementsAreSpelled([Tagged(0, [fullName])], [], 0);
  }

  lemma {:induction false} PointsAreSpelled(uris: seq<Bytes>)
    ensures EncodeAll(Cdp.Points(uris)) == AllPointOctets(uris)
  {
    if uris != [] {
      PointIsSpelled(uris[0]);
      PointsAreSpelled(uris[1..]);
      assert Cdp.Points(uris)[1..] == Cdp.Points(uris[1..]);
    }
  }

  /** The extension's value: one point after the other in one sequence. */
  lemma CdpIsSpelled(uris: seq<Bytes>)
    ensures Encode(Sequence(Cdp.Points(uris))) == Element(0x30, AllPointOctets(uris))
  {
    PointsAreSpelled(uris);
    ElementsAreSpelled(Cdp.Points(uris), [], 0);
  }

  // ---------------------------------------------------------------- SIDs

  /** Each number after a dash. */
  function Dashed(xs: seq<nat>): Bytes {
    if xs == [] then [] else [0x2D] + Sid.Decimal(xs[0]) + Dashed(xs[1..])
  }

  lemma JoinFirst(first: Bytes, others: seq<Bytes>, sep: Byte)
    requires others != []
    ensures Join([first] + others, sep) == first + [sep] + Join(others, sep)
  {
    assert ([first] + others)[1..] == others;
  }

  lemma DecimalsOf(xs: seq<nat>)
    requires xs != []
    ensures Sid.Decimals(xs) == [Sid.Decimal(xs[0])] + Sid.Decimals(xs[1..])
  {
  }

  lemma {:induction false} JoinIsDashed(first: Bytes, xs: seq<nat>)
    ensures Join([first] + Sid.Decimals(xs), 0x2D) == first + Dashed(xs)
    decreases |xs|
  {
    if xs == [] {
      assert [first] + Sid.Decimals(xs) == [first];
    } else {
      var number, others := Sid.Decimal(xs[0]), Dashed(xs[1..]);
      DecimalsOf(xs);
      JoinFirst(first, Sid.Decimals(xs), 0x2D);
      JoinIsDashed(number, xs[1..]);
      assert first + [0x2D] + (number + others) == first + ([0x2D] + number + others);
    }
  }

  /** "S-1", and then the authority and the sub-authorities, each after a dash. */
  lemma TextIsSpelled(sid: Sid.Sid)
    ensures Sid.Text(sid) == [0x53, 0x2D, 0x31] + Dashed([sid.authority] + sid.subs)
  {
    var numbers := [sid.authority] + sid.subs;
    var parts: seq<Bytes> := [[83], [49]] + Sid.Decimals(numbers);
    assert Sid.Decimals(numbers) == [Sid.Decimal(sid.authority)] + Sid.Decimals(sid.subs);
    assert parts == [[83], [49], Sid.Decimal(sid.authority)] + Sid.Decimals(sid.subs);
    assert parts[1..] == [[49]] + Sid.Decimals(numbers);
    JoinIsDashed([49], numbers);
  }

  /** The digits: 0 is octet 0x30, and the last one is the rest by ten. */
  lemma DecimalIsSpelled(n: nat)
    ensures n < 10 ==> Sid.Decimal(n) == [0x30 + n]
    ensures n >= 10 ==> Sid.Decimal(n) == Sid.Decimal(n / 10) + [0x30 + n % 10]
  {
  }

  lemma {:induction false} SubAuthorityAt(subs: seq<nat>, i: nat)
    requires i < |subs|
    ensures Sid.SubBytes(subs)[4 * i..4 * i + 4] == Sid.LittleEndian(subs[i])
  {
    var init := subs[..|subs| - 1];
    if i < |init| {
      SubAuthorityAt(init, i);
      assert Sid.SubBytes(subs)[4 * i..4 * i + 4] == Sid.SubBytes(init)[4 * i..4 * i + 4];
    }
  }

  lemma BigEndianStep(v: nat, q: nat, k: nat)
    requires k > 0 && q == v / 0x100
    ensures Sid.BigEndian(v, k) == Sid.BigEndian(q, k - 1) + [v % 0x100]
  {
  }

  lemma SixSteps(v5: nat, v4: nat, v3: nat, v2: nat, v1: nat, v: nat)
    requires v5 == v4 / 0x100 && v4 == v3 / 0x100 && v3 == v2 / 0x100 && v2 == v1 / 0x100 && v1 == v / 0x100
    ensures Sid.BigEndian(v, 6)
            == [v5 % 0x100, v4 % 0x100, v3 % 0x100, v2 % 0x100, v1 % 0x100, v % 0x100]
  {
    BigEndianStep(v, v1, 6);
    BigEndianStep(v1, v2, 5);
    BigEndianStep(v2, v3, 4);
    BigEndianStep(v3, v4, 3);
    BigEndianStep(v4, v5, 2);
    BigEndianStep(v5, v5 / 0x100, 1);
    assert Sid.BigEndian(v5 / 0x100, 0) == [];
  }

  lemma Quotients(v: nat)
    ensures v / 0x1_0000 == v / 0x100 / 0x100 && v / 0x100_0000 == v / 0x1_0000 / 0x100
    ensures v / 0x1_0000_0000 == v / 0x100_0000 / 0x100 && v / 0x100_0000_0000 == v / 0x1_0000_0000 / 0x100
  {
  }

  lemma SixOctets(v: nat)
    ensures Sid.BigEndian(v, 6)
            == [v / 0x100_0000_0000 % 0x100, v / 0x1_0000_0000 % 0x100, v / 0x100_0000 % 0x100,
                v / 0x1_0000 % 0x100, v / 0x100 % 0x100, v % 0x100]
  {
    Quotients(v);
    SixSteps(v / 0x100_0000_0000, v / 0x1_0000_0000, v / 0x100_0000, v / 0x1_0000, v / 0x100, v);
  }

  /** Revision 1, the number of sub-authorities, the authority with its high octet first, and each
      sub-authority with its low octet first. */
  lemma BinaryIsSpelled(sid: Sid.Sid)
    requires sid.Valid()
    ensures var b, v := Sid.Binary(sid), sid.authority;
      && |b| == 8 + 4 * |sid.subs| && b[0] == 1 && b[1] == |sid.subs|
      && b[2..8] == [v / 0x100_0000_0000 % 0x100, v / 0x1_0000_0000 % 0x100, v / 0x100_0000 % 0x100,
                     v / 0x1_0000 % 0x100, v / 0x100 % 0x100, v % 0x100]
      && forall i :: 0 <= i < |sid.subs| ==>
           b[8 + 4 * i..12 + 4 * i]
           == [sid.subs[i] % 0x100, sid.subs[i] / 0x100 % 0x100, sid.subs[i] / 0x1_0000 % 0x100,
               sid.subs[i] / 0x100_0000 % 0x100]
  {
    var b := Sid.Binary(sid);
    SixOctets(sid.authority);
    assert b[2..8] == Sid.BigEndian(sid.authority, 6);
    forall i | 0 <= i < |sid.subs|
      ensures b[8 + 4 * i..12 + 4 * i]
              == [sid.subs[i] % 0x100, sid.subs[i] / 0x100 % 0x100, sid.subs[i] / 0x1_0000 % 0x100,
                  sid.subs[i] / 0x100_0000 % 0x100]
    {
      SubAuthorityAt(sid.subs, i);
      assert b[8 + 4 * i..12 + 4 * i] == Sid.SubBytes(sid.subs)[4 * i..4 * i + 4];
    }
  }
}
