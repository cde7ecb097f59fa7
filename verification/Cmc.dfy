/** The CMC request body (section 3.2.1 of RFC 5272): which template, for whose account, and the
    workload's PKCS#10. */
module Cmc {
  import opened ByteStrings
  import opened Der
  import opened DerValues
  import opened Names
  import opened Options
  import opened SetOrder
  import Utf

  const CMC_ADD_EXTENSIONS: Oid := [1, 3, 6, 1, 5, 5, 7, 7, 8]
  const CMC_REG_INFO: Oid := [1, 3, 6, 1, 5, 5, 7, 7, 18]
  const ENROLLMENT_CERT_TYPE: Oid := [1, 3, 6, 1, 4, 1, 311, 20, 2]

  const BODY_PART_REQUEST: int := 1
  const BODY_PART_ADD_EXTENSIONS: int := 2
  const BODY_PART_REG_INFO: int := 3

  // ---------------------------------------------------------------- the builder

  function Encodings(ts: seq<Tlv>): (r: seq<Bytes>)
    ensures |r| == |ts| && forall i :: 0 <= i < |ts| ==> r[i] == Encode(ts[i])
  {
    seq(|ts|, i requires 0 <= i < |ts| => Encode(ts[i]))
  }

  /** SET OF: the members in the order of their encodings. */
  function SetOf(ts: seq<Tlv>): Tlv {
    Tlv(Universal, true, TAG_SET, Flatten(SortDer(Encodings(ts))))
  }

  /** A text as UTF-16BE. */
  function Utf16(s: Bytes): Bytes {
    Utf.Octets(Utf.Units(Utf.Runes(s)))
  }

  /** derBuilder: after the first failure every method gives nothing. */
  class DerBuilder {
    var err: bool

    constructor ()
      ensures !err
    {
      err := false;
    }

    method Wrap(cls: Class, constructed: bool, tag: nat, body: Bytes) returns (out: Bytes)
      ensures out == if err then [] else Encode(Tlv(cls, constructed, tag, body))
    {
      if err {
        return [];
      }
      out := Encode(Tlv(cls, constructed, tag, body));
    }

    method SequenceOf(parts: seq<Bytes>) returns (out: Bytes)
      ensures out == if err then [] else Encode(Tlv(Universal, true, TAG_SEQUENCE, Flatten(parts)))
    {
      var body := Concat(parts);
      out := Wrap(Universal, true, TAG_SEQUENCE, body);
    }

    method Set(parts: seq<Bytes>) returns (out: Bytes)
      ensures out == if err then [] else Encode(Tlv(Universal, true, TAG_SET, Flatten(SortDer(parts))))
    {
      var body := Concat(SortDer(parts));
      out := Wrap(Universal, true, TAG_SET, body);
    }

    method Implicit(tag: nat, contents: seq<Bytes>) returns (out: Bytes)
      ensures out == if err then [] else Encode(Tlv(Context, true, tag, Flatten(contents)))
    {
      var body := Concat(contents);
      out := Wrap(Context, true, tag, body);
    }

    method Explicit(tag: nat, elements: seq<Bytes>) returns (out: Bytes)
      ensures out == if err then [] else Encode(Tlv(Context, true, tag, Flatten(elements)))
    {
      var body := Concat(elements);
      out := Wrap(Context, true, tag, body);
    }

    method OctetStringOf(v: Bytes) returns (out: Bytes)
      ensures out == if err then [] else Encode(OctetString(v))
    {
      out := Wrap(Universal, false, TAG_OCTET_STRING, v);
    }

    method Null() returns (out: Bytes)
      ensures out == if err then [] else Encode(NULL)
    {
      out := Wrap(Universal, false, TAG_NULL, []);
    }

    method ObjectIdentifier(arcs: Oid) returns (out: Bytes)
      modifies this
      ensures err == (old(err) || !ValidOid(arcs))
      ensures out == if err then [] else Encode(Identified(arcs))
    {
      if err {
        return [];
      }
      if !ValidOid(arcs) {
        err := true;
        return [];
      }
      out := Encode(Identified(arcs));
    }

    method IntegerOf(v: int) returns (out: Bytes)
      ensures out == if err then [] else Encode(Integer(v))
    {
      if err {
        return [];
      }
      out := Encode(Integer(v));
    }

    /** A certificate's serial number, which may be missing. */
    method BigInteger(v: Option<int>) returns (out: Bytes)
      modifies this
      ensures err == (old(err) || v.None?)
      ensures out == if err then [] else Encode(Integer(v.value))
    {
      if err {
        return [];
      }
      if v.None? {
        err := true;
        return [];
      }
      out := Encode(Integer(v.value));
    }

    method BmpString(s: Bytes) returns (out: Bytes)
      ensures out == if err then [] else Encode(Tlv(Universal, false, TAG_BMP_STRING, Utf16(s)))
    {
      var units := Utf.Units(Utf.Runes(s));
      var octets: Bytes := [];
      for i := 0 to |units|
        invariant octets == Utf.Octets(units[..i])
      {
        assert units[..i + 1][..i] == units[..i];
        octets := octets + [units[i] / 256, units[i] % 256];
      }
      assert units[..|units|] == units;
      out := Wrap(Universal, false, TAG_BMP_STRING, octets);
    }
  }

  // ---------------------------------------------------------------- what is built

  function BmpStringOf(s: Bytes): Tlv {
    Tlv(Universal, false, TAG_BMP_STRING, Utf16(s))
  }

  function TemplateExtension(template: Bytes): Tlv {
    Sequence([Identified(ENROLLMENT_CERT_TYPE), OctetString(Encode(BmpStringOf(template)))])
  }

  /** Control 1: put the template's name into the request it refers to. */
  function AddExtensions(template: Bytes): Tlv {
    Sequence([Integer(0), Sequence([Integer(BODY_PART_REQUEST)]), Sequence([TemplateExtension(template)])])
  }

  function AddExtensionsControl(template: Bytes): Tlv {
    Sequence([Integer(BODY_PART_ADD_EXTENSIONS), Identified(CMC_ADD_EXTENSIONS), SetOf([AddExtensions(template)])])
  }

  /** Control 2: the authorization statement. */
  function RegInfoControl(template: Bytes, requester: Bytes): Tlv {
    Sequence([Integer(BODY_PART_REG_INFO), Identified(CMC_REG_INFO),
              SetOf([OctetString(RegInfo(template, requester))])])
  }

  /** [0] IMPLICIT: the PKCS#10 follows its number, byte for byte. */
  function TaggedRequest(csr: Bytes): Tlv {
    Tlv(Context, true, 0, Encode(Integer(BODY_PART_REQUEST)) + csr)
  }

  function Controls(template: Bytes, requester: Bytes): Tlv {
    Sequence([AddExtensionsControl(template), RegInfoControl(template, requester)])
  }

  /** Two more sequences, of CMS messages and other bodies, stay empty. */
  function PkiDataParts(csr: Bytes, template: Bytes, requester: Bytes): (r: seq<Tlv>)
    ensures |r| == 4
  {
    [Controls(template, requester), Sequence([TaggedRequest(csr)]), Sequence([]), Sequence([])]
  }

  function PkiData(csr: Bytes, template: Bytes, requester: Bytes): Tlv {
    Sequence(PkiDataParts(csr, template, requester))
  }

  lemma SetOfOne(t: Tlv)
    ensures SetOf([t]) == Tlv(Universal, true, TAG_SET, EncodeAll([t]))
    ensures Flatten(SortDer([Encode(t)])) == EncodeAll([t])
  {
    assert Encodings([t]) == [Encode(t)];
    assert SortDer([Encode(t)]) == [Encode(t)];
    FlattenEncoded([t], [Encode(t)]);
  }

  lemma FlattenTwo(a: Bytes, b: Bytes)
    ensures Flatten([a, b]) == a + b
  {
    assert [a, b][1..] == [b];
    FlattenOne(b);
  }

  method BuildTemplateExtension(b: DerBuilder, template: Bytes) returns (out: Bytes)
    requires !b.err
    modifies b
    ensures !b.err && out == Encode(TemplateExtension(template))
  {
    var typ := b.ObjectIdentifier(ENROLLMENT_CERT_TYPE);
    var bmp := b.BmpString(template);
    var octets := b.OctetStringOf(bmp);
    out := b.SequenceOf([typ, octets]);
    FlattenEncoded([Identified(ENROLLMENT_CERT_TYPE), OctetString(bmp)], [typ, octets]);
  }

  method BuildAddedExtensions(b: DerBuilder, template: Bytes) returns (out: Bytes)
    requires !b.err
    modifies b
    ensures !b.err && out == Encode(AddExtensions(template))
  {
    var templateExt := BuildTemplateExtension(b, template);
    var dataRef := b.IntegerOf(0);
    var bodyRef := b.IntegerOf(BODY_PART_REQUEST);
    var certRefs := b.SequenceOf([bodyRef]);
    FlattenEncoded([Integer(BODY_PART_REQUEST)], [bodyRef]);
    var exts := b.SequenceOf([templateExt]);
    FlattenEncoded([TemplateExtension(template)], [templateExt]);
    out := b.SequenceOf([dataRef, certRefs, exts]);
    FlattenThree(Integer(0), Sequence([Integer(BODY_PART_REQUEST)]), Sequence([TemplateExtension(template)]));
  }

  method BuildAddExtensions(b: DerBuilder, template: Bytes) returns (out: Bytes)
    requires !b.err
    modifies b
    ensures !b.err && out == Encode(AddExtensionsControl(template))
  {
    var addExtensions := BuildAddedExtensions(b, template);
    var id := b.IntegerOf(BODY_PART_ADD_EXTENSIONS);
    var control := b.ObjectIdentifier(CMC_ADD_EXTENSIONS);
    var values := b.Set([addExtensions]);
    SetOfOne(AddExtensions(template));
    out := b.SequenceOf([id, control, values]);
    FlattenThree(Integer(BODY_PART_ADD_EXTENSIONS), Identified(CMC_ADD_EXTENSIONS), SetOf([AddExtensions(template)]));
  }

  method BuildRegInfo(b: DerBuilder, template: Bytes, requester: Bytes) returns (out: Bytes)
    requires !b.err
    modifies b
    ensures !b.err && out == Encode(RegInfoControl(template, requester))
  {
    var id := b.IntegerOf(BODY_PART_REG_INFO);
    var control := b.ObjectIdentifier(CMC_REG_INFO);
    var info := b.OctetStringOf(RegInfo(template, requester));
    var values := b.Set([info]);
    SetOfOne(OctetString(RegInfo(template, requester)));
    out := b.SequenceOf([id, control, values]);
    FlattenThree(Integer(BODY_PART_REG_INFO), Identified(CMC_REG_INFO),
                 SetOf([OctetString(RegInfo(template, requester))]));
  }

  method BuildControls(b: DerBuilder, template: Bytes, requester: Bytes) returns (out: Bytes)
    requires !b.err
    modifies b
    ensures !b.err && out == Encode(Controls(template, requester))
  {
    var control1 := BuildAddExtensions(b, template);
    var control2 := BuildRegInfo(b, template, requester);
    out := b.SequenceOf([control1, control2]);
    FlattenEncoded([AddExtensionsControl(template), RegInfoControl(template, requester)], [control1, control2]);
  }

  method BuildRequests(b: DerBuilder, csr: Bytes) returns (out: Bytes)
    requires !b.err
    ensures out == Encode(Sequence([TaggedRequest(csr)]))
  {
    var id := b.IntegerOf(BODY_PART_REQUEST);
    var tagged := b.Implicit(0, [id, csr]);
    FlattenTwo(id, csr);
    out := b.SequenceOf([tagged]);
    FlattenEncoded([TaggedRequest(csr)], [tagged]);
  }

  lemma FlattenThree(t: Tlv, u: Tlv, v: Tlv)
    ensures Flatten([Encode(t), Encode(u), Encode(v)]) == EncodeAll([t, u, v])
  {
    FlattenEncoded([t, u, v], [Encode(t), Encode(u), Encode(v)]);
  }

  lemma FlattenFour(t: Tlv, u: Tlv, v: Tlv, w: Tlv)
    ensures Flatten([Encode(t), Encode(u), Encode(v), Encode(w)]) == EncodeAll([t, u, v, w])
  {
    FlattenEncoded([t, u, v, w], [Encode(t), Encode(u), Encode(v), Encode(w)]);
  }

  /** buildPKIData; buildCMC has validated the names by then. */
  method BuildPkiData(csr: Bytes, template: Bytes, requester: Bytes) returns (r: Option<Bytes>)
    ensures r == Some(Encode(PkiData(csr, template, requester)))
  {
    var b := new DerBuilder();
    var controls := BuildControls(b, template, requester);
    var requests := BuildRequests(b, csr);
    var none := b.SequenceOf([]);
    var pkiData := b.SequenceOf([controls, requests, none, none]);
    FlattenFour(Controls(template, requester), Sequence([TaggedRequest(csr)]), Sequence([]), Sequence([]));
    if b.err {
      return None;
    }
    r := Some(pkiData);
  }

  // ---------------------------------------------------------------- a reader

  /** What a request says. */
  datatype PkiRequest = PkiRequest(csr: Bytes, template: Bytes, requester: Bytes)

  /** The parts of a constructed element of the given kind. */
  function Children(t: Tlv, cls: Class, tag: nat): Option<seq<Tlv>> {
    if t.cls == cls && t.constructed && t.tag == tag then DecodeAll(t.body) else None
  }

  function Contents(t: Tlv, tag: nat): Option<Bytes> {
    if t.cls == Universal && !t.constructed && t.tag == tag then Some(t.body) else None
  }

  /** The ASCII text of a UTF-16BE string. */
  function ReadUtf16(b: Bytes): Option<Bytes> {
    if |b| % 2 != 0 || !Utf.Paired(Utf.UnitsIn(b)) then None
    else AsciiOf(Utf.RunesOf(Utf.UnitsIn(b)))
  }

  function AsciiOf(runes: seq<Utf.Rune>): Option<Bytes> {
    if exists i :: 0 <= i < |runes| && runes[i] >= 128 then None
    else Some(seq(|runes|, i requires 0 <= i < |runes| => runes[i]))
  }

  function ReadTemplateExtension(t: Tlv): Option<Bytes> {
    var parts :- Children(t, Universal, TAG_SEQUENCE);
    if |parts| != 2 || parts[0] != Identified(ENROLLMENT_CERT_TYPE) then None
    else
      var octets :- Contents(parts[1], TAG_OCTET_STRING);
      var bmp :- DecodeOnly(octets);
      var units :- Contents(bmp, TAG_BMP_STRING);
      ReadUtf16(units)
  }

  function ReadAddExtensions(t: Tlv): Option<Bytes> {
    var parts :- Children(t, Universal, TAG_SEQUENCE);
    if |parts| != 3 || parts[0] != Integer(0) then None
    else
      var refs :- Children(parts[1], Universal, TAG_SEQUENCE);
      var exts :- Children(parts[2], Universal, TAG_SEQUENCE);
      if refs != [Integer(BODY_PART_REQUEST)] || |exts| != 1 then None else ReadTemplateExtension(exts[0])
  }

  /** The one value of the control with the given number and type. */
  function ReadControl(t: Tlv, id: int, kind: Oid): Option<Tlv>
    requires ValidOid(kind)
  {
    var parts :- Children(t, Universal, TAG_SEQUENCE);
    if |parts| != 3 || parts[0] != Integer(id) || parts[1] != Identified(kind) then None
    else
      var values :- Children(parts[2], Universal, TAG_SET);
      if |values| != 1 then None else Some(values[0])
  }

  function ReadTemplateControl(t: Tlv): Option<Bytes> {
    var added :- ReadControl(t, BODY_PART_ADD_EXTENSIONS, CMC_ADD_EXTENSIONS);
    ReadAddExtensions(added)
  }

  function ReadInfoControl(t: Tlv): Option<seq<(Bytes, Bytes)>> {
    var info :- ReadControl(t, BODY_PART_REG_INFO, CMC_REG_INFO);
    var text :- Contents(info, TAG_OCTET_STRING);
    ReadFields(text)
  }

  function ReadControls(t: Tlv): Option<(Bytes, seq<(Bytes, Bytes)>)> {
    var controls :- Children(t, Universal, TAG_SEQUENCE);
    if |controls| != 2 then None
    else
      var template :- ReadTemplateControl(controls[0]);
      var fields :- ReadInfoControl(controls[1]);
      Some((template, fields))
  }

  function ReadRequests(t: Tlv): Option<Bytes> {
    var requests :- Children(t, Universal, TAG_SEQUENCE);
    if |requests| != 1 || requests[0].cls != Context || !requests[0].constructed || requests[0].tag != 0 then None
    else
      var (id, csr) :- Decode(requests[0].body);
      if id != Integer(BODY_PART_REQUEST) then None else Some(csr)
  }

  function ReadParts(der: Bytes): (r: Option<seq<Tlv>>)
    ensures r.Some? ==> |r.value| == 4
  {
    var outer :- DecodeOnly(der);
    var parts :- Children(outer, Universal, TAG_SEQUENCE);
    if |parts| != 4 || parts[2] != Sequence([]) || parts[3] != Sequence([]) then None else Some(parts)
  }

  /** Reads a request back; both statements of the template must agree. */
  function ReadPkiData(der: Bytes): Option<PkiRequest> {
    var parts :- ReadParts(der);
    var (template, fields) :- ReadControls(parts[0]);
    var csr :- ReadRequests(parts[1]);
    if |fields| != 2 || fields[0] != (TEMPLATE_KEY, template) || fields[1].0 != REQUESTER_KEY then None
    else Some(PkiRequest(csr, template, fields[1].1))
  }

  // ---------------------------------------------------------------- reading what was built

  lemma ChildrenOf(t: Tlv, cls: Class, tag: nat, ts: seq<Tlv>)
    requires t == Tlv(cls, true, tag, EncodeAll(ts)) && Countable(|t.body|)
    ensures Children(t, cls, tag) == Some(ts) && AllCountable(ts)
  {
    PartsReadBack(ts);
  }

  lemma ReadUtf16Written(s: Bytes)
    requires Utf.AllAscii(s)
    ensures ReadUtf16(Utf16(s)) == Some(s)
  {
    Utf.AsciiRunes(s);
    Utf.UnitsReadBack(Utf.Runes(s));
    Utf.OctetsReadBack(Utf.Units(Utf.Runes(s)));
    assert AsciiOf(Utf.Runes(s)).value == s;
  }

  lemma ReadTemplateExtensionBuilt(template: Bytes)
    requires ValidTemplate(template)
    requires Countable(|TemplateExtension(template).body|)
    ensures ReadTemplateExtension(TemplateExtension(template)) == Some(template)
  {
    var bmp := BmpStringOf(template);
    var parts := [Identified(ENROLLMENT_CERT_TYPE), OctetString(Encode(bmp))];
    ChildrenOf(TemplateExtension(template), Universal, TAG_SEQUENCE, parts);
    assert Countable(|parts[1].body|);
    CountablePart(|bmp.body|, |Encode(bmp)|);
    DecodeOnlyIff(Encode(bmp), bmp);
    ReadUtf16Written(template);
  }

  lemma OnlyChild(t: Tlv)
    requires Countable(|Sequence([t]).body|)
    ensures Children(Sequence([t]), Universal, TAG_SEQUENCE) == Some([t]) && Countable(|t.body|)
  {
    var ts := [t];
    ChildrenOf(Sequence(ts), Universal, TAG_SEQUENCE, ts);
    assert Countable(|ts[0].body|);
  }

  /** The list that names the template extension, whatever the extension is. */
  lemma ExtensionListReads(ext: Tlv, template: Bytes)
    requires Countable(|Sequence([Integer(0), Sequence([Integer(BODY_PART_REQUEST)]), Sequence([ext])]).body|)
    requires Countable(|ext.body|) ==> ReadTemplateExtension(ext) == Some(template)
    ensures ReadAddExtensions(Sequence([Integer(0), Sequence([Integer(BODY_PART_REQUEST)]), Sequence([ext])]))
            == Some(template)
  {
    var ref := Integer(BODY_PART_REQUEST);
    var parts := [Integer(0), Sequence([ref]), Sequence([ext])];
    ChildrenOf(Sequence(parts), Universal, TAG_SEQUENCE, parts);
    assert Countable(|parts[1].body|) && Countable(|parts[2].body|);
    OnlyChild(ref);
    OnlyChild(ext);
  }

  lemma ReadAddExtensionsBuilt(template: Bytes)
    requires ValidTemplate(template)
    requires Countable(|AddExtensions(template).body|)
    ensures ReadAddExtensions(AddExtensions(template)) == Some(template)
  {
    var ext := TemplateExtension(template);
    if Countable(|ext.body|) {
      ReadTemplateExtensionBuilt(template);
    }
    ExtensionListReads(ext, template);
  }

  lemma ReadControlBuilt(id: int, kind: Oid, value: Tlv)
    requires ValidOid(kind)
    requires Countable(|Sequence([Integer(id), Identified(kind), SetOf([value])]).body|)
    ensures ReadControl(Sequence([Integer(id), Identified(kind), SetOf([value])]), id, kind) == Some(value)
    ensures Countable(|value.body|)
  {
    var parts := [Integer(id), Identified(kind), SetOf([value])];
    ChildrenOf(Sequence(parts), Universal, TAG_SEQUENCE, parts);
    assert Countable(|parts[2].body|);
    SetOfOne(value);
    ChildrenOf(parts[2], Universal, TAG_SET, [value]);
    assert Countable(|[value][0].body|);
  }

  lemma ReadTemplateControlBuilt(template: Bytes)
    requires ValidTemplate(template)
    requires Countable(|AddExtensionsControl(template).body|)
    ensures ReadTemplateControl(AddExtensionsControl(template)) == Some(template)
  {
    ReadControlBuilt(BODY_PART_ADD_EXTENSIONS, CMC_ADD_EXTENSIONS, AddExtensions(template));
    ReadAddExtensionsBuilt(template);
  }

  lemma ReadInfoControlBuilt(template: Bytes, requester: Bytes)
    requires ValidTemplate(template) && ValidRequester(requester)
    requires Countable(|RegInfoControl(template, requester).body|)
    ensures ReadInfoControl(RegInfoControl(template, requester))
            == Some([(TEMPLATE_KEY, template), (REQUESTER_KEY, requester)])
  {
    ReadControlBuilt(BODY_PART_REG_INFO, CMC_REG_INFO, OctetString(RegInfo(template, requester)));
    RegInfoIsUnambiguous(template, requester);
    InfoReads(RegInfoControl(template, requester), RegInfo(template, requester));
  }

  lemma InfoReads(t: Tlv, text: Bytes)
    requires ReadControl(t, BODY_PART_REG_INFO, CMC_REG_INFO) == Some(OctetString(text))
    ensures ReadInfoControl(t) == ReadFields(text)
  {
  }

  lemma {:induction false} ReadControlsBuilt(template: Bytes, requester: Bytes)
    requires ValidTemplate(template) && ValidRequester(requester)
    requires Countable(|Controls(template, requester).body|)
    ensures ReadControls(Controls(template, requester))
            == Some((template, [(TEMPLATE_KEY, template), (REQUESTER_KEY, requester)]))
  {
    var parts := [AddExtensionsControl(template), RegInfoControl(template, requester)];
    ChildrenOf(Controls(template, requester), Universal, TAG_SEQUENCE, parts);
    assert Countable(|parts[0].body|) && Countable(|parts[1].body|);
    ReadTemplateControlBuilt(template);
    ReadInfoControlBuilt(template, requester);
  }

  lemma ReadRequestsBuilt(csr: Bytes)
    requires Countable(|Sequence([TaggedRequest(csr)]).body|)
    ensures ReadRequests(Sequence([TaggedRequest(csr)])) == Some(csr)
  {
    ChildrenOf(Sequence([TaggedRequest(csr)]), Universal, TAG_SEQUENCE, [TaggedRequest(csr)]);
    assert Countable(|[TaggedRequest(csr)][0].body|);
    CountablePart(|Integer(BODY_PART_REQUEST).body|, |TaggedRequest(csr).body|);
    DecodeEncoded(Integer(BODY_PART_REQUEST), csr);
  }

  lemma {:induction false} ReadPartsBuilt(csr: Bytes, template: Bytes, requester: Bytes)
    requires Countable(|PkiData(csr, template, requester).body|)
    ensures ReadParts(Encode(PkiData(csr, template, requester))) == Some(PkiDataParts(csr, template, requester))
    ensures AllCountable(PkiDataParts(csr, template, requester))
  {
    var outer := PkiData(csr, template, requester);
    DecodeOnlyIff(Encode(outer), outer);
    ChildrenOf(outer, Universal, TAG_SEQUENCE, PkiDataParts(csr, template, requester));
  }

  /** Whatever bytes the workload sent are read back unchanged, with the one template and the one
      requester that were asked for. */
  lemma {:induction false} PkiDataReadsBack(csr: Bytes, template: Bytes, requester: Bytes)
    requires ValidTemplate(template) && ValidRequester(requester)
    requires Countable(|PkiData(csr, template, requester).body|)
    ensures ReadPkiData(Encode(PkiData(csr, template, requester))) == Some(PkiRequest(csr, template, requester))
  {
    ReadPartsBuilt(csr, template, requester);
    var parts := PkiDataParts(csr, template, requester);
    assert Countable(|parts[0].body|) && Countable(|parts[1].body|);
    ReadControlsBuilt(template, requester);
    ReadRequestsBuilt(csr);
    PartsRead(Encode(PkiData(csr, template, requester)), parts, csr, template, requester);
  }

  lemma PartsRead(der: Bytes, parts: seq<Tlv>, csr: Bytes, template: Bytes, requester: Bytes)
    requires ReadParts(der) == Some(parts) && |parts| == 4 && ReadRequests(parts[1]) == Some(csr)
    requires ReadControls(parts[0]) == Some((template, [(TEMPLATE_KEY, template), (REQUESTER_KEY, requester)]))
    ensures ReadPkiData(der) == Some(PkiRequest(csr, template, requester))
  {
  }

  /** So two different requests never share an encoding. */
  lemma {:induction false} PkiDataIsInjective(a: PkiRequest, b: PkiRequest)
    requires ValidTemplate(a.template) && ValidRequester(a.requester)
    requires ValidTemplate(b.template) && ValidRequester(b.requester)
    requires Countable(|PkiData(a.csr, a.template, a.requester).body|)
    requires Countable(|PkiData(b.csr, b.template, b.requester).body|)
    requires Encode(PkiData(a.csr, a.template, a.requester)) == Encode(PkiData(b.csr, b.template, b.requester))
    ensures a == b
  {
    PkiDataReadsBack(a.csr, a.template, a.requester);
    PkiDataReadsBack(b.csr, b.template, b.requester);
  }
}
