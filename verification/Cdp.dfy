/** The CRL distribution points extension (section 4.2.1.13 of RFC 5280): one distribution point,
    with one name, for each URI. */
module Cdp {
  import opened ByteStrings
  import opened Cmc
  import opened Der
  import opened DerValues
  import opened Options

  const CRL_DISTRIBUTION_POINTS: Oid := [2, 5, 29, 31]
  const URI_NAME: nat := 6
  const MAX_URI: nat := 1024

  /** validateCDPURI; `absolute` says that the URI parses and has a scheme. */
  predicate ValidUri(uri: Bytes, absolute: Bytes -> bool) {
    && uri != [] && |uri| <= MAX_URI
    && (forall i :: 0 <= i < |uri| ==> 0x20 < uri[i] <= 0x7e)
    && absolute(uri)
  }

  /** Of 1 to 1024 octets, all of them printable ASCII and none a space. */
  lemma ValidUriIff(uri: Bytes, absolute: Bytes -> bool)
    ensures ValidUri(uri, absolute) <==>
            1 <= |uri| <= 1024 && absolute(uri) && forall i :: 0 <= i < |uri| ==> 0x21 <= uri[i] <= 0x7E
  {
  }

  datatype Built =
    | Empty                                   // no URI at all
    | BadUri(index: nat)
    | Duplicate(index: nat)
    | Extension(id: Oid, critical: bool, value: Bytes)

  function UriName(uri: Bytes): Tlv {
    Tlv(Context, false, URI_NAME, uri)
  }

  /** DistributionPoint { [0] DistributionPointName { [0] fullName { uri } } }. */
  function Point(uri: Bytes): Tlv {
    Sequence([Tagged(0, [Tagged(0, [UriName(uri)])])])
  }

  function Points(uris: seq<Bytes>): (r: seq<Tlv>)
    ensures |r| == |uris| && forall i :: 0 <= i < |r| ==> r[i] == Point(uris[i])
  {
    seq(|uris|, i requires 0 <= i < |uris| => Point(uris[i]))
  }

  predicate Distinct(uris: seq<Bytes>) {
    forall i, j :: 0 <= i < j < |uris| ==> uris[i] != uris[j]
  }

  predicate AllValid(uris: seq<Bytes>, absolute: Bytes -> bool) {
    forall i :: 0 <= i < |uris| ==> ValidUri(uris[i], absolute)
  }

  lemma OneMoreUri(uris: seq<Bytes>, i: nat, absolute: Bytes -> bool)
    requires i < |uris|
    ensures AllValid(uris[..i], absolute) && ValidUri(uris[i], absolute) ==> AllValid(uris[..i + 1], absolute)
    ensures Distinct(uris[..i]) && uris[i] !in uris[..i] ==> Distinct(uris[..i + 1])
    ensures Points(uris[..i + 1]) == Points(uris[..i]) + [Point(uris[i])]
    ensures forall u :: u in uris[..i + 1] <==> u in uris[..i] || u == uris[i]
    ensures AllValid(uris, absolute) && Distinct(uris) ==> ValidUri(uris[i], absolute) && uris[i] !in uris[..i]
  {
    assert uris[..i + 1] == uris[..i] + [uris[i]];
  }

  /** CRLDistributionPoints. A list is refused exactly for being empty, or at its first URI that is
      not valid or that came before. */
  method Build(uris: seq<Bytes>, absolute: Bytes -> bool) returns (r: Built)
    ensures r.Empty? <==> uris == []
    ensures r.Extension? <==> uris != [] && AllValid(uris, absolute) && Distinct(uris)
    ensures r.Extension? ==> r.id == [2, 5, 29, 31] && !r.critical && r.value == Encode(Sequence(Points(uris)))
    ensures r.BadUri? || r.Duplicate? ==>
      && r.index < |uris| && AllValid(uris[..r.index], absolute) && Distinct(uris[..r.index])
      && (r.BadUri? <==> !ValidUri(uris[r.index], absolute))
      && (r.Duplicate? ==> uris[r.index] in uris[..r.index])
  {
    if |uris| == 0 {
      return Empty;
    }
    var seen: set<Bytes> := {};
    var points: seq<Tlv> := [];
    for i := 0 to |uris|
      invariant forall u :: u in seen <==> u in uris[..i]
      invariant points == Points(uris[..i])
      invariant AllValid(uris[..i], absolute) && Distinct(uris[..i])
    {
      var uri := uris[i];
      OneMoreUri(uris, i, absolute);
      if !ValidUri(uri, absolute) {
        return BadUri(i);
      }
      if uri in seen {
        return Duplicate(i);
      }
      seen := seen + {uri};
      points := points + [Point(uri)];
    }
    assert uris[..|uris|] == uris;
    r := Extension(CRL_DISTRIBUTION_POINTS, false, Encode(Sequence(points)));
  }

  // ---------------------------------------------------------------- a reader

  function OneChild(t: Tlv, cls: Class, tag: nat): Option<Tlv> {
    var ts :- Children(t, cls, tag);
    if |ts| == 1 then Some(ts[0]) else None
  }

  function ReadPoint(t: Tlv): Option<Bytes> {
    var name :- OneChild(t, Universal, TAG_SEQUENCE);
    var fullName :- OneChild(name, Context, 0);
    var uri :- OneChild(fullName, Context, 0);
    if uri.cls == Context && !uri.constructed && uri.tag == URI_NAME then Some(uri.body) else None
  }

  function ReadPoints(ts: seq<Tlv>): Option<seq<Bytes>> {
    if ts == [] then Some([])
    else
      var uri :- ReadPoint(ts[0]);
      var uris :- ReadPoints(ts[1..]);
      Some([uri] + uris)
  }

  /** Reads the extension's value, which must be nothing more. */
  function Read(der: Bytes): Option<seq<Bytes>> {
    var outer :- DecodeOnly(der);
    var ts :- Children(outer, Universal, TAG_SEQUENCE);
    ReadPoints(ts)
  }

  lemma OneChildOf(t: Tlv, cls: Class, tag: nat, child: Tlv)
    requires t == Tlv(cls, true, tag, EncodeAll([child])) && Countable(|t.body|)
    ensures OneChild(t, cls, tag) == Some(child) && Countable(|child.body|)
  {
    ChildrenOf(t, cls, tag, [child]);
    assert Countable(|[child][0].body|);
  }

  lemma ReadPointBuilt(uri: Bytes)
    requires Countable(|Point(uri).body|)
    ensures ReadPoint(Point(uri)) == Some(uri)
  {
    var fullName := Tagged(0, [UriName(uri)]);
    OneChildOf(Point(uri), Universal, TAG_SEQUENCE, Tagged(0, [fullName]));
    OneChildOf(Tagged(0, [fullName]), Context, 0, fullName);
    OneChildOf(fullName, Context, 0, UriName(uri));
  }

  lemma ReadOneMore(t: Tlv, ts: seq<Tlv>, uri: Bytes, uris: seq<Bytes>)
    requires ReadPoint(t) == Some(uri) && ReadPoints(ts) == Some(uris)
    ensures ReadPoints([t] + ts) == Some([uri] + uris)
  {
    assert ([t] + ts)[1..] == ts;
  }

  lemma {:induction false} ReadPointsOf(ts: seq<Tlv>, uris: seq<Bytes>)
    requires |ts| == |uris| && forall i :: 0 <= i < |ts| ==> ReadPoint(ts[i]) == Some(uris[i])
    ensures ReadPoints(ts) == Some(uris)
  {
    if uris != [] {
      ReadPointsOf(ts[1..], uris[1..]);
      ReadOneMore(ts[0], ts[1..], uris[0], uris[1..]);
      assert [ts[0]] + ts[1..] == ts && [uris[0]] + uris[1..] == uris;
    }
  }

  lemma ReadPointsBuilt(uris: seq<Bytes>)
    requires AllCountable(Points(uris))
    ensures ReadPoints(Points(uris)) == Some(uris)
  {
    forall i | 0 <= i < |uris|
      ensures ReadPoint(Points(uris)[i]) == Some(uris[i])
    {
      assert Countable(|Points(uris)[i].body|);
      ReadPointBuilt(uris[i]);
    }
    ReadPointsOf(Points(uris), uris);
  }

  /** What is built reads back as the same list in the same order, however long. */
  lemma BuiltReadsBack(uris: seq<Bytes>)
    requires Countable(|Sequence(Points(uris)).body|)
    ensures Read(Encode(Sequence(Points(uris)))) == Some(uris)
  {
    DecodeOnlyIff(Encode(Sequence(Points(uris))), Sequence(Points(uris)));
    ChildrenOf(Sequence(Points(uris)), Universal, TAG_SEQUENCE, Points(uris));
    ReadPointsBuilt(uris);
  }
}
