/** DER: identifier, length and contents octets (sections 8.1 and 10.1 of ITU-T X.690), as Go's
    encoding/asn1 writes them and as strictly as it reads them. */
module Der {
  import opened ByteStrings
  import opened Options

  datatype Class = Universal | Application | Context | PrivateUse

  /** One element. */
  datatype Tlv = Tlv(cls: Class, constructed: bool, tag: nat, body: Bytes)

  function ClassBits(c: Class): Byte {
    match c
    case Universal => 0
    case Application => 64
    case Context => 128
    case PrivateUse => 192
  }

  function ClassOf(b: Byte): Class {
    if b < 64 then Universal else if b < 128 then Application else if b < 192 then Context else PrivateUse
  }

  // ---------------------------------------------------------------- base 128

  /** All digits of `n` but the last, each with its continuation bit. */
  function Leading128(n: nat): Bytes {
    if n == 0 then [] else Leading128(n / 128) + [128 + n % 128]
  }

  function Base128(n: nat): (b: Bytes)
    ensures |b| >= 1
  {
    Leading128(n / 128) + [n % 128]
  }

  /** Reads one base-128 number whose digits so far are worth `acc`; a first digit of zero with
      more to follow is not minimal. */
  function ReadBase128(b: Bytes, acc: nat): (r: Option<(nat, Bytes)>)
    ensures r.Some? ==> |r.value.1| < |b|
  {
    if b == [] || (acc == 0 && b[0] == 128) then None
    else if b[0] < 128 then Some((acc * 128 + b[0], b[1..]))
    else ReadBase128(b[1..], acc * 128 + b[0] - 128)
  }

  lemma {:induction false} ReadLeading(n: nat, rest: Bytes)
    ensures ReadBase128(Leading128(n) + rest, 0) == ReadBase128(rest, n)
  {
    if n == 0 {
      assert Leading128(0) + rest == rest;
    } else {
      var digit := 128 + n % 128;
      assert Leading128(n) + rest == Leading128(n / 128) + ([digit] + rest);
      ReadLeading(n / 128, [digit] + rest);
      assert ([digit] + rest)[1..] == rest;
    }
  }

  lemma ReadWritten128(n: nat, rest: Bytes)
    ensures ReadBase128(Base128(n) + rest, 0) == Some((n, rest))
  {
    var digit: Byte := n % 128;
    assert Base128(n) + rest == Leading128(n / 128) + ([digit] + rest);
    ReadLeading(n / 128, [digit] + rest);
    assert ([digit] + rest)[1..] == rest;
  }

  /** What is read is what would be written. */
  lemma {:induction false} WrittenIsRead128(b: Bytes, acc: nat)
    requires ReadBase128(b, acc).Some?
    ensures var (n, rest) := ReadBase128(b, acc).value; Leading128(acc) + b == Base128(n) + rest
  {
    var (n, rest) := ReadBase128(b, acc).value;
    assert b == [b[0]] + b[1..];
    if b[0] >= 128 {
      var acc' := acc * 128 + b[0] - 128;
      WrittenIsRead128(b[1..], acc');
      assert acc' / 128 == acc && 128 + acc' % 128 == b[0];
      assert Leading128(acc') == Leading128(acc) + [b[0]];
      assert Leading128(acc) + b == Leading128(acc') + b[1..];
    }
  }

  // ---------------------------------------------------------------- identifier

  /** The first octet: class, constructed or not, and the tag if it fits. */
  function Head(cls: Class, constructed: bool, low: nat): Byte
    requires low < 32
  {
    ClassBits(cls) + (if constructed then 32 else 0) + low
  }

  function Identifier(t: Tlv): Bytes {
    if t.tag < 31 then [Head(t.cls, t.constructed, t.tag)]
    else [Head(t.cls, t.constructed, 31)] + Base128(t.tag)
  }

  function IsConstructed(b: Byte): bool {
    (b / 32) % 2 == 1
  }

  /** The element with no body yet, and what follows its identifier. */
  function ReadIdentifier(b: Bytes): (r: Option<(Tlv, Bytes)>)
    ensures r.Some? ==> |r.value.1| < |b|
  {
    if b == [] then None
    else
      var cls, constructed := ClassOf(b[0]), IsConstructed(b[0]);
      if b[0] % 32 != 31 then Some((Tlv(cls, constructed, b[0] % 32, []), b[1..]))
      else
        match ReadBase128(b[1..], 0)
        case None => None
        case Some((tag, rest)) => if tag < 31 then None else Some((Tlv(cls, constructed, tag, []), rest))
  }

  lemma HeadReadsBack(cls: Class, constructed: bool, low: nat)
    requires low < 32
    ensures var b := Head(cls, constructed, low); ClassOf(b) == cls && IsConstructed(b) == constructed && b % 32 == low
  {
  }

  lemma HeadIsRead(b: Byte)
    ensures Head(ClassOf(b), IsConstructed(b), b % 32) == b
  {
  }

  lemma ReadWrittenIdentifier(t: Tlv, rest: Bytes)
    ensures ReadIdentifier(Identifier(t) + rest) == Some((t.(body := []), rest))
  {
    var b := Identifier(t) + rest;
    HeadReadsBack(t.cls, t.constructed, if t.tag < 31 then t.tag else 31);
    if t.tag < 31 {
      assert b[1..] == rest;
    } else {
      assert b[1..] == Base128(t.tag) + rest;
      ReadWritten128(t.tag, rest);
    }
  }

  lemma LongIdentifier(head: Byte, t: Tlv, rest: Bytes)
    requires t.tag >= 31 && head == Head(t.cls, t.constructed, 31)
    ensures [head] + (Base128(t.tag) + rest) == Identifier(t) + rest
  {
    var digits := Base128(t.tag);
    assert [head] + (digits + rest) == [head] + digits + rest;
  }

  lemma WrittenIsReadIdentifier(b: Bytes)
    requires ReadIdentifier(b).Some?
    ensures b == Identifier(ReadIdentifier(b).value.0) + ReadIdentifier(b).value.1
  {
    HeadIsRead(b[0]);
    assert b == [b[0]] + b[1..];
    if b[0] % 32 == 31 {
      WrittenIsRead128(b[1..], 0);
      var (t, rest) := ReadIdentifier(b).value;
      assert Leading128(0) + b[1..] == b[1..];
      LongIdentifier(b[0], t, rest);
    }
  }

  // ---------------------------------------------------------------- length

  /** The long form counts its octets in seven bits, of which section 8.1.3.5 of X.690 reserves
      the value 127. */
  predicate Countable(n: nat) {
    |MinBytes(n)| < 127
  }

  /** The length octets; there are none for a length that the long form cannot count. */
  function Length(n: nat): Bytes {
    if n < 128 then [n]
    else if Countable(n) then [128 + |MinBytes(n)|] + MinBytes(n)
    else []
  }

  /** Minimal lengths only: no indefinite form, no long form where the short one would do, no
      leading zero. */
  function ReadLength(b: Bytes): (r: Option<(nat, Bytes)>)
    ensures r.Some? ==> |r.value.1| < |b|
  {
    if b == [] then None
    else if b[0] < 128 then Some((b[0], b[1..]))
    else
      var k := b[0] - 128;
      if k == 0 || k == 127 || |b| < 1 + k || b[1] == 0 || Value(b[1..1 + k]) < 128 then None
      else Some((Value(b[1..1 + k]), b[1 + k..]))
  }

  lemma ReadWrittenLength(n: nat, rest: Bytes)
    requires Countable(n)
    ensures ReadLength(Length(n) + rest) == Some((n, rest))
  {
    var b := Length(n) + rest;
    if n < 128 {
      assert b[1..] == rest;
    } else {
      var k := |MinBytes(n)|;
      assert b[1..1 + k] == MinBytes(n) && b[1 + k..] == rest;
      ValueOfMinBytes(n);
    }
  }

  /** Which lengths those are: all below 2 to the power of 1008. */
  lemma CountableIff(n: nat)
    ensures Countable(n) <==> n < Power256(126)
  {
    MinBytesWithin(n, 126);
  }

  lemma SmallIsCountable(n: nat)
    requires n < 0x1_0000
    ensures Countable(n)
    ensures |Length(n)| <= 3
  {
    assert n / 256 / 256 == 0;
    assert |MinBytes(n / 256)| <= 1;
    assert |MinBytes(n)| <= 2;
  }

  lemma LongLengthIsRead(k: Byte, digits: Bytes, rest: Bytes)
    requires |digits| == k && 0 < k < 127 && digits[0] != 0 && Value(digits) >= 128
    ensures var n := Value(digits); Countable(n) && [128 + k] + digits + rest == Length(n) + rest
  {
    MinBytesOfValue(digits);
  }

  lemma WrittenIsReadLength(b: Bytes)
    requires ReadLength(b).Some?
    ensures Countable(ReadLength(b).value.0)
    ensures b == Length(ReadLength(b).value.0) + ReadLength(b).value.1
  {
    if b[0] < 128 {
      SmallIsCountable(b[0]);
      assert b == [b[0]] + b[1..];
    } else {
      var k := b[0] - 128;
      LongLengthIsRead(k, b[1..1 + k], b[1 + k..]);
      assert b == [128 + k] + b[1..1 + k] + b[1 + k..];
    }
  }

  // ---------------------------------------------------------------- whole elements

  function Encode(t: Tlv): Bytes {
    Identifier(t) + Length(|t.body|) + t.body
  }

  /** The first element and what follows it. */
  function Decode(b: Bytes): (r: Option<(Tlv, Bytes)>)
    ensures r.Some? ==> |r.value.1| < |b| && |r.value.0.body| < |b|
  {
    match ReadIdentifier(b)
    case None => None
    case Some((t, b1)) =>
      match ReadLength(b1)
      case None => None
      case Some((n, b2)) => if |b2| < n then None else Some((t.(body := b2[..n]), b2[n..]))
  }

  /** Reading what was written, whatever follows it. */
  lemma DecodeEncoded(t: Tlv, rest: Bytes)
    requires Countable(|t.body|)
    ensures Decode(Encode(t) + rest) == Some((t, rest))
  {
    var n := |t.body|;
    assert Encode(t) + rest == Identifier(t) + (Length(n) + (t.body + rest));
    ReadWrittenIdentifier(t, Length(n) + (t.body + rest));
    ReadWrittenLength(n, t.body + rest);
    assert (t.body + rest)[..n] == t.body && (t.body + rest)[n..] == rest;
  }

  lemma Regroup(a: Bytes, b: Bytes, c: Bytes, d: Bytes)
    ensures a + (b + (c + d)) == a + b + c + d
  {
  }

  /** Whatever is read has one spelling, the written one. */
  lemma EncodeDecoded(b: Bytes)
    requires Decode(b).Some?
    ensures var (t, rest) := Decode(b).value; Countable(|t.body|) && b == Encode(t) + rest
  {
    var (t0, b1) := ReadIdentifier(b).value;
    var (n, b2) := ReadLength(b1).value;
    WrittenIsReadIdentifier(b);
    WrittenIsReadLength(b1);
    assert b2 == b2[..n] + b2[n..];
    Regroup(Identifier(t0), Length(n), b2[..n], b2[n..]);
  }

  /** Exactly one element, nothing after it. */
  function DecodeOnly(b: Bytes): Option<Tlv> {
    match Decode(b)
    case Some((t, rest)) => if rest == [] then Some(t) else None
    case None => None
  }

  lemma DecodeOnlyIff(b: Bytes, t: Tlv)
    ensures DecodeOnly(b) == Some(t) <==> Countable(|t.body|) && b == Encode(t)
  {
    if Countable(|t.body|) && b == Encode(t) {
      DecodeEncoded(t, []);
      assert Encode(t) + [] == Encode(t);
    }
    if DecodeOnly(b) == Some(t) {
      EncodeDecoded(b);
      assert Encode(t) + [] == Encode(t);
    }
  }

  /** Part of something whose length can be counted has a length that can be counted. */
  lemma CountablePart(m: nat, n: nat)
    requires m <= n && Countable(n)
    ensures Countable(m)
  {
    MinBytesGrow(m, n);
  }

  // ---------------------------------------------------------------- runs of elements

  predicate AllCountable(ts: seq<Tlv>) {
    forall i :: 0 <= i < |ts| ==> Countable(|ts[i].body|)
  }

  function EncodeAll(ts: seq<Tlv>): Bytes {
    if ts == [] then [] else Encode(ts[0]) + EncodeAll(ts[1..])
  }

  /** Every element of a complete run. */
  function DecodeAll(b: Bytes): Option<seq<Tlv>>
    decreases |b|
  {
    if b == [] then Some([])
    else
      match Decode(b)
      case None => None
      case Some((t, rest)) =>
        match DecodeAll(rest)
        case None => None
        case Some(ts) => Some([t] + ts)
  }

  lemma {:induction false} DecodeAllEncoded(ts: seq<Tlv>)
    requires AllCountable(ts)
    ensures DecodeAll(EncodeAll(ts)) == Some(ts)
  {
    if ts != [] {
      DecodeEncoded(ts[0], EncodeAll(ts[1..]));
      DecodeAllEncoded(ts[1..]);
      assert [ts[0]] + ts[1..] == ts;
    }
  }

  lemma {:induction false} EncodeAllIsLonger(ts: seq<Tlv>, i: nat)
    requires i < |ts|
    ensures |ts[i].body| < |EncodeAll(ts)|
  {
    if i > 0 {
      EncodeAllIsLonger(ts[1..], i - 1);
    }
  }

  /** The elements of a countable body have countable bodies. */
  lemma PartsAreCountable(ts: seq<Tlv>)
    requires Countable(|EncodeAll(ts)|)
    ensures AllCountable(ts)
  {
    forall i | 0 <= i < |ts|
      ensures Countable(|ts[i].body|)
    {
      EncodeAllIsLonger(ts, i);
      CountablePart(|ts[i].body|, |EncodeAll(ts)|);
    }
  }
}
