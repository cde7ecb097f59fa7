/** The contents octets of the ASN.1 types the program uses: INTEGER and OBJECT IDENTIFIER
    (sections 8.3 and 8.19 of ITU-T X.690), and elements built from other elements. */
module DerValues {
  import opened ByteStrings
  import opened Der
  import opened Options

  // ---------------------------------------------------------------- OBJECT IDENTIFIER

  type Oid = seq<nat>

  predicate ValidOid(arcs: Oid) {
    |arcs| >= 2 && arcs[0] <= 2 && (arcs[0] < 2 ==> arcs[1] < 40)
  }

  function Arcs(xs: seq<nat>): Bytes {
    if xs == [] then [] else Base128(xs[0]) + Arcs(xs[1..])
  }

  function OidBody(arcs: Oid): Bytes
    requires ValidOid(arcs)
  {
    Arcs([40 * arcs[0] + arcs[1]] + arcs[2..])
  }

  function ReadArcs(b: Bytes): Option<seq<nat>>
    decreases |b|
  {
    if b == [] then Some([])
    else
      match ReadBase128(b, 0)
      case None => None
      case Some((x, rest)) =>
        match ReadArcs(rest)
        case None => None
        case Some(xs) => Some([x] + xs)
  }

  function ReadOid(body: Bytes): Option<Oid> {
    match ReadArcs(body)
    case None => None
    case Some(xs) =>
      if xs == [] then None
      else if xs[0] < 80 then Some([xs[0] / 40, xs[0] % 40] + xs[1..])
      else Some([2, xs[0] - 80] + xs[1..])
  }

  lemma {:induction false} ReadWrittenArcs(xs: seq<nat>)
    ensures ReadArcs(Arcs(xs)) == Some(xs)
  {
    if xs != [] {
      ReadWritten128(xs[0], Arcs(xs[1..]));
      ReadWrittenArcs(xs[1..]);
      assert [xs[0]] + xs[1..] == xs;
    }
  }

  lemma {:induction false} WrittenIsReadArcs(b: Bytes)
    requires ReadArcs(b).Some?
    ensures Arcs(ReadArcs(b).value) == b
    decreases |b|
  {
    if b != [] {
      var (x, rest) := ReadBase128(b, 0).value;
      WrittenIsRead128(b, 0);
      assert Leading128(0) + b == b;
      WrittenIsReadArcs(rest);
      var xs := ReadArcs(rest).value;
      assert ([x] + xs)[1..] == xs;
    }
  }

  /** An identifier has exactly one encoding that is accepted. */
  lemma ReadOidIff(body: Bytes, arcs: Oid)
    ensures ReadOid(body) == Some(arcs) <==> ValidOid(arcs) && body == OidBody(arcs)
  {
    if ValidOid(arcs) && body == OidBody(arcs) {
      var xs := [40 * arcs[0] + arcs[1]] + arcs[2..];
      ReadWrittenArcs(xs);
      assert xs[1..] == arcs[2..];
      assert arcs == [arcs[0], arcs[1]] + arcs[2..];
    }
    if ReadOid(body) == Some(arcs) {
      WrittenIsReadArcs(body);
      var xs := ReadArcs(body).value;
      assert arcs[2..] == xs[1..];
      assert xs == [40 * arcs[0] + arcs[1]] + arcs[2..];
    }
  }

  // ---------------------------------------------------------------- INTEGER

  function Pad(b: Bytes): (r: Bytes)
    ensures r != [] && r[0] < 128
  {
    if b == [] || b[0] >= 128 then [0] + b else b
  }

  function Invert(b: Bytes): Bytes {
    seq(|b|, i requires 0 <= i < |b| => 255 - b[i])
  }

  /** Two's complement in the fewest octets. */
  function IntegerBody(v: int): Bytes {
    if v >= 0 then Pad(MinBytes(v)) else Invert(Pad(MinBytes(-v - 1)))
  }

  function ReadInteger(b: Bytes): Option<int> {
    if b == [] || (|b| > 1 && ((b[0] == 0 && b[1] < 128) || (b[0] == 255 && b[1] >= 128))) then None
    else if b[0] < 128 then Some(Value(b))
    else Some(-1 - Value(Invert(b)))
  }

  lemma {:induction false} ValueOfLeadingZero(b: Bytes)
    ensures Value([0] + b) == Value(b)
  {
    if b == [] {
      assert [0] + b == [] + [0];
      ValueSnoc([], 0);
    } else {
      var init, last := b[..|b| - 1], b[|b| - 1];
      ValueOfLeadingZero(init);
      assert [0] + b == ([0] + init) + [last];
      ValueSnoc([0] + init, last);
    }
  }

  lemma ValueOfPad(n: nat)
    ensures Value(Pad(MinBytes(n))) == n
    ensures var b := Pad(MinBytes(n)); |b| > 1 && b[0] == 0 ==> b[1] >= 128
  {
    ValueOfMinBytes(n);
    ValueOfLeadingZero(MinBytes(n));
  }

  lemma {:induction false} PadOfValue(b: Bytes)
    requires b != [] && b[0] < 128 && !(|b| > 1 && b[0] == 0 && b[1] < 128)
    ensures Pad(MinBytes(Value(b))) == b
  {
    if b[0] == 0 {
      assert b == [0] + b[1..];
      ValueOfLeadingZero(b[1..]);
      MinBytesOfValue(b[1..]);
    } else {
      MinBytesOfValue(b);
    }
  }

  lemma InvertTwice(b: Bytes)
    ensures Invert(Invert(b)) == b
  {
  }

  lemma IntegerReads(v: int)
    ensures ReadInteger(IntegerBody(v)) == Some(v)
  {
    var n := if v >= 0 then v else -v - 1;
    ValueOfPad(n);
    InvertTwice(Pad(MinBytes(n)));
  }

  lemma IntegerIsRead(b: Bytes)
    requires ReadInteger(b).Some?
    ensures b == IntegerBody(ReadInteger(b).value)
  {
    InvertTwice(b);
    PadOfValue(if b[0] < 128 then b else Invert(b));
  }

  /** Every integer has exactly one encoding that is accepted. */
  lemma ReadIntegerIff(b: Bytes, v: int)
    ensures ReadInteger(b) == Some(v) <==> b == IntegerBody(v)
  {
    IntegerReads(v);
    if ReadInteger(b) == Some(v) {
      IntegerIsRead(b);
    }
  }

  // ---------------------------------------------------------------- elements of elements

  const TAG_INTEGER: nat := 2
  const TAG_OCTET_STRING: nat := 4
  const TAG_NULL: nat := 5
  const TAG_OID: nat := 6
  const TAG_SEQUENCE: nat := 16
  const TAG_SET: nat := 17
  const TAG_BMP_STRING: nat := 30

  function Sequence(ts: seq<Tlv>): Tlv {
    Tlv(Universal, true, TAG_SEQUENCE, EncodeAll(ts))
  }

  function Tagged(tag: nat, ts: seq<Tlv>): Tlv {
    Tlv(Context, true, tag, EncodeAll(ts))
  }

  function OctetString(b: Bytes): Tlv {
    Tlv(Universal, false, TAG_OCTET_STRING, b)
  }

  function Integer(v: int): Tlv {
    Tlv(Universal, false, TAG_INTEGER, IntegerBody(v))
  }

  function Identified(arcs: Oid): Tlv
    requires ValidOid(arcs)
  {
    Tlv(Universal, false, TAG_OID, OidBody(arcs))
  }

  const NULL := Tlv(Universal, false, TAG_NULL, [])

  /** Gluing encodings is encoding the run. */
  lemma {:induction false} FlattenEncoded(ts: seq<Tlv>, parts: seq<Bytes>)
    requires |parts| == |ts| && forall i :: 0 <= i < |ts| ==> parts[i] == Encode(ts[i])
    ensures Flatten(parts) == EncodeAll(ts)
  {
    if ts != [] {
      FlattenEncoded(ts[1..], parts[1..]);
    }
  }

  /** A constructed element that can be counted reads back as its parts. */
  lemma PartsReadBack(ts: seq<Tlv>)
    requires Countable(|EncodeAll(ts)|)
    ensures AllCountable(ts) && DecodeAll(EncodeAll(ts)) == Some(ts)
  {
    PartsAreCountable(ts);
    DecodeAllEncoded(ts);
  }
}
