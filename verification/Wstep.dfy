/** The CES response: what parseRSTRC makes of it, once its XML is bound. */
module Wstep {
  import opened ByteStrings
  import Der
  import opened NtdsExt
  import opened Options
  import opened Pkcs7Reader

  /** A parsed certificate. */
  datatype Certificate = Certificate(raw: Bytes, serial: int, issuer: Bytes, notBefore: int, notAfter: int,
                                     extensions: seq<Extension>)

  datatype Credential = Credential(certificate: Certificate, chain: seq<Certificate>)

  /** x509.ParseCertificate. */
  type Parser = Bytes -> Option<Certificate>

  function IsCertificate(parse: Parser): Bytes -> bool {
    der => parse(der).Some?
  }

  /** A parsed certificate keeps the bytes it was parsed from. */
  function Parsed(der: Bytes, parse: Parser): Option<Certificate> {
    var c :- parse(der);
    Some(c.(raw := der))
  }

  function Raws(certs: seq<Certificate>): (r: seq<Bytes>)
    ensures |r| == |certs| && forall i :: 0 <= i < |r| ==> r[i] == certs[i].raw
  {
    seq(|certs|, i requires 0 <= i < |certs| => certs[i].raw)
  }

  /** The certificates of a chain, each as parsed. */
  function AllParsed(ders: seq<Bytes>, parse: Parser): (r: seq<Certificate>)
    requires forall der :: der in ders ==> parse(der).Some?
    ensures Raws(r) == ders
    ensures forall i :: 0 <= i < |r| ==> r[i] == parse(ders[i]).value.(raw := ders[i])
  {
    if ders == [] then []
    else AllParsed(ders[..|ders| - 1], parse) + [Parsed(ders[|ders| - 1], parse).value]
  }

  /** One token response: whether the issued token is tagged as an X.509 certificate, its bytes if
      they decode, and the tokens beside it. */
  datatype TokenResponse = TokenResponse(isX509: bool, leaf: Option<Bytes>, tokens: seq<Token>)

  /** A response: whether it is a fault, whether its action is the one asked for, and what it holds. */
  datatype Envelope = Envelope(fault: bool, isRstrc: bool, responses: seq<TokenResponse>)

  /** The chain holds only what parsed as a certificate. */
  lemma {:induction false} ChainParses(tokens: seq<Token>, leaf: Bytes, isCertificate: Bytes -> bool)
    requires Chain(tokens, leaf, isCertificate).Some?
    ensures forall der :: der in Chain(tokens, leaf, isCertificate).value ==> isCertificate(der)
  {
    if tokens != [] {
      ChainParses(tokens[..|tokens| - 1], leaf, isCertificate);
      var t := tokens[|tokens| - 1];
      if t.isPkcs7 {
        PartsParse(ReadCertificateSet(ReadContentInfo(t.der.value).value).value, isCertificate);
        WithoutIsAPart(CertsFromPkcs7(t.der.value, isCertificate).value, leaf);
      }
    }
  }

  lemma {:induction false} PartsParse(b: Bytes, isCertificate: Bytes -> bool)
    requires SplitCertificates(b, isCertificate).Some?
    ensures forall der :: der in SplitCertificates(b, isCertificate).value ==> isCertificate(der)
    decreases |b|
  {
    if b != [] {
      PartsParse(Der.Decode(b).value.1, isCertificate);
    }
  }

  lemma {:induction false} WithoutIsAPart(certs: seq<Bytes>, leaf: Bytes)
    ensures forall der :: der in Without(certs, leaf) ==> der in certs
  {
    if certs != [] {
      WithoutIsAPart(certs[..|certs| - 1], leaf);
    }
  }

  /** parseRSTRC: everything or nothing. */
  function Rstrc(e: Envelope, parse: Parser): Option<Credential> {
    if e.fault || !e.isRstrc || |e.responses| != 1 || !e.responses[0].isX509 then None
    else
      var der :- e.responses[0].leaf;
      var leaf :- Parsed(der, parse);
      var chain :- Chain(e.responses[0].tokens, leaf.raw, IsCertificate(parse));
      ChainParses(e.responses[0].tokens, leaf.raw, IsCertificate(parse));
      Some(Credential(leaf, AllParsed(chain, parse)))
  }

  /** Each is what its own bytes parse as. */
  predicate AsParsed(certs: seq<Certificate>, parse: Parser) {
    forall i :: 0 <= i < |certs| ==>
      parse(certs[i].raw).Some? && certs[i] == parse(certs[i].raw).value.(raw := certs[i].raw)
  }

  lemma ParsedFromRaw(ders: seq<Bytes>, parse: Parser)
    requires forall der :: der in ders ==> parse(der).Some?
    ensures AsParsed(AllParsed(ders, parse), parse)
  {
    var certs := AllParsed(ders, parse);
    forall i | 0 <= i < |certs|
      ensures parse(certs[i].raw).Some? && certs[i] == parse(certs[i].raw).value.(raw := certs[i].raw)
    {
      assert Raws(certs)[i] == ders[i];
    }
  }

  /** It fails closed: a credential comes of a response exactly when that is no fault, has the right
      action and one answer, whose issued token is an X.509 certificate that parses, and all PKCS#7
      tokens beside it hold only certificates that parse. It is then that certificate, with all the
      others in the order they came, and the leaf is not among them. */
  lemma RstrcIff(e: Envelope, parse: Parser)
    ensures Rstrc(e, parse).Some? <==>
            && !e.fault && e.isRstrc && |e.responses| == 1
            && e.responses[0].isX509 && e.responses[0].leaf.Some? && parse(e.responses[0].leaf.value).Some?
            && Chain(e.responses[0].tokens, e.responses[0].leaf.value, IsCertificate(parse)).Some?
    ensures Rstrc(e, parse).Some? ==>
      var c := Rstrc(e, parse).value;
      && c.certificate == parse(e.responses[0].leaf.value).value.(raw := e.responses[0].leaf.value)
      && Chain(e.responses[0].tokens, c.certificate.raw, IsCertificate(parse)) == Some(Raws(c.chain))
      && AsParsed(c.chain, parse)
      && c.certificate.raw !in Raws(c.chain)
  {
    if Rstrc(e, parse).Some? {
      ChainParses(e.responses[0].tokens, e.responses[0].leaf.value, IsCertificate(parse));
      LeafIsNotInItsChain(e.responses[0].tokens, e.responses[0].leaf.value, IsCertificate(parse));
      ParsedFromRaw(Chain(e.responses[0].tokens, e.responses[0].leaf.value, IsCertificate(parse)).value, parse);
    }
  }

  method ParseRstrc(e: Envelope, parse: Parser) returns (r: Option<Credential>)
    ensures r == Rstrc(e, parse)
  {
    if e.fault || !e.isRstrc || |e.responses| != 1 {
      return None;
    }
    var only := e.responses[0];
    if !only.isX509 || only.leaf.None? {
      return None;
    }
    var leaf := Parsed(only.leaf.value, parse);
    if leaf.None? {
      return None;
    }
    var ders := ChainFrom(only.tokens, leaf.value.raw, IsCertificate(parse));
    if ders.None? {
      return None;
    }
    ChainParses(only.tokens, leaf.value.raw, IsCertificate(parse));
    r := Some(Credential(leaf.value, AllParsed(ders.value, parse)));
  }
}
