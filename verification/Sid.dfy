/** Windows SIDs: the text "S-1-<authority>-<sub>...", and the binary layout of section 2.4.2.2 of
    MS-DTYP, whose authority is big-endian and whose sub-authorities are little-endian. */
module Sid {
  import opened ByteStrings
  import opened Options

  const DASH: Byte := 45
  const DIGIT_ZERO: Byte := 48

  const MAX_SUB_AUTHORITIES: nat := 15
  const MAX_AUTHORITY: nat := 0xFFFF_FFFF_FFFF
  const MAX_SUB_AUTHORITY: nat := 0xFFFF_FFFF
  const MAX_UINT64: nat := 0xFFFF_FFFF_FFFF_FFFF

  /** What both forms name. */
  datatype Sid = Sid(authority: nat, subs: seq<nat>) {
    predicate Valid() {
      && authority <= MAX_AUTHORITY
      && 1 <= |subs| <= MAX_SUB_AUTHORITIES
      && forall i :: 0 <= i < |subs| ==> subs[i] <= MAX_SUB_AUTHORITY
    }
  }

  // ---------------------------------------------------------------- decimals

  /** strconv.FormatUint in base 10. */
  function Decimal(n: nat): (s: Bytes)
    ensures s != [] && DASH !in s
    ensures |s| > 1 ==> s[0] != DIGIT_ZERO
    ensures n == 0 <==> s == [DIGIT_ZERO]
    ensures n > 0 ==> s[0] != DIGIT_ZERO
  {
    if n < 10 then [DIGIT_ZERO + n] else Decimal(n / 10) + [DIGIT_ZERO + n % 10]
  }

  predicate AllDigits(s: Bytes) {
    forall i :: 0 <= i < |s| ==> DIGIT_ZERO <= s[i] < DIGIT_ZERO + 10
  }

  function DecimalValue(s: Bytes): nat
    requires AllDigits(s)
  {
    if s == [] then 0 else DecimalValue(s[..|s| - 1]) * 10 + (s[|s| - 1] - DIGIT_ZERO)
  }

  /** strconv.ParseUint in base 10, 64 bits. */
  function ParseUint(s: Bytes): Option<nat> {
    if s == [] || !AllDigits(s) || DecimalValue(s) > MAX_UINT64 then None else Some(DecimalValue(s))
  }

  /** parseSIDUint, and parseCanonicalUint of the mapping package: one spelling per number. */
  function ParseCanonicalUint(s: Bytes, max: nat): Option<nat> {
    if s == [] || (|s| > 1 && s[0] == DIGIT_ZERO) then None
    else
      match ParseUint(s)
      case None => None
      case Some(v) => if v > max then None else Some(v)
  }

  lemma {:induction false} DecimalReads(n: nat)
    ensures AllDigits(Decimal(n)) && DecimalValue(Decimal(n)) == n
  {
    if n < 10 {
      assert Decimal(n)[..0] == [];
    } else {
      DecimalReads(n / 10);
      assert Decimal(n)[..|Decimal(n)| - 1] == Decimal(n / 10);
    }
  }

  lemma {:induction false} DecimalIsRead(s: Bytes)
    requires AllDigits(s) && s != [] && (|s| > 1 ==> s[0] != DIGIT_ZERO)
    ensures Decimal(DecimalValue(s)) == s
  {
    var init, last := s[..|s| - 1], s[|s| - 1] - DIGIT_ZERO;
    if |s| == 1 {
      assert DecimalValue(s) == last by {
        assert init == [];
      }
    } else {
      DecimalIsRead(init);
      assert DecimalValue(init) > 0;
      assert DecimalValue(s) / 10 == DecimalValue(init) && DecimalValue(s) % 10 == last;
      assert s == init + [s[|s| - 1]];
    }
  }

  lemma ParseCanonicalUintIff(s: Bytes, max: nat, v: nat)
    requires max <= MAX_UINT64
    ensures ParseCanonicalUint(s, max) == Some(v) <==> v <= max && s == Decimal(v)
  {
    DecimalReads(v);
    if ParseCanonicalUint(s, max) == Some(v) {
      DecimalIsRead(s);
    }
  }

  // ---------------------------------------------------------------- text

  function Decimals(xs: seq<nat>): (r: seq<Bytes>)
    ensures |r| == |xs|
    ensures forall i :: 0 <= i < |r| ==> r[i] == Decimal(xs[i])
  {
    seq(|xs|, i requires 0 <= i < |xs| => Decimal(xs[i]))
  }

  /** The canonical spelling. */
  function Text(sid: Sid): Bytes {
    Join([[83], [49], Decimal(sid.authority)] + Decimals(sid.subs), DASH)
  }

  function ParseSubs(parts: seq<Bytes>): Option<seq<nat>> {
    if parts == [] then Some([])
    else
      match (ParseSubs(parts[..|parts| - 1]), ParseCanonicalUint(parts[|parts| - 1], MAX_SUB_AUTHORITY))
      case (Some(xs), Some(x)) => Some(xs + [x])
      case _ => None
  }

  /** parseSID; "S" is byte 83 and "1" is byte 49. */
  function ParseSid(s: Bytes): Option<Sid> {
    var parts := Split(s, DASH);
    if |parts| < 4 || parts[0] != [83] || parts[1] != [49] then None
    else
      match ParseCanonicalUint(parts[2], MAX_AUTHORITY)
      case None => None
      case Some(authority) =>
        if |parts[3..]| > MAX_SUB_AUTHORITIES then None
        else
          match ParseSubs(parts[3..])
          case None => None
          case Some(subs) => Some(Sid(authority, subs))
  }

  lemma {:induction false} SubsParse(xs: seq<nat>)
    requires forall i :: 0 <= i < |xs| ==> xs[i] <= MAX_SUB_AUTHORITY
    ensures ParseSubs(Decimals(xs)) == Some(xs)
  {
    if xs != [] {
      var init, last := xs[..|xs| - 1], xs[|xs| - 1];
      SubsParse(init);
      ParseCanonicalUintIff(Decimal(last), MAX_SUB_AUTHORITY, last);
      assert Decimals(xs)[..|xs| - 1] == Decimals(init);
      assert init + [last] == xs;
    }
  }

  lemma {:induction false} SubsAreParsed(parts: seq<Bytes>)
    requires ParseSubs(parts).Some?
    ensures var xs := ParseSubs(parts).value;
      parts == Decimals(xs) && forall i :: 0 <= i < |xs| ==> xs[i] <= MAX_SUB_AUTHORITY
  {
    if parts != [] {
      var init, last := parts[..|parts| - 1], parts[|parts| - 1];
      SubsAreParsed(init);
      var x := ParseCanonicalUint(last, MAX_SUB_AUTHORITY).value;
      ParseCanonicalUintIff(last, MAX_SUB_AUTHORITY, x);
      assert parts == init + [last];
    }
  }

  /** parseSID accepts exactly the canonical spellings of valid SIDs, and reads back what they name. */
  lemma ParseSidIff(s: Bytes, sid: Sid)
    ensures ParseSid(s) == Some(sid) <==> sid.Valid() && s == Text(sid)
  {
    if ParseSid(s) == Some(sid) {
      ParsedIsText(s, sid);
    }
    if sid.Valid() && s == Text(sid) {
      TextParses(sid);
    }
  }

  lemma ParsedIsText(s: Bytes, sid: Sid)
    requires ParseSid(s) == Some(sid)
    ensures sid.Valid() && s == Text(sid)
  {
    var parts := Split(s, DASH);
    JoinSplit(s, DASH);
    ParseCanonicalUintIff(parts[2], MAX_AUTHORITY, sid.authority);
    SubsAreParsed(parts[3..]);
    assert parts == [[83], [49], Decimal(sid.authority)] + Decimals(sid.subs);
  }

  lemma TextParses(sid: Sid)
    requires sid.Valid()
    ensures ParseSid(Text(sid)) == Some(sid)
  {
    var want := [[83], [49], Decimal(sid.authority)] + Decimals(sid.subs);
    SplitJoin(want, DASH);
    ParseCanonicalUintIff(want[2], MAX_AUTHORITY, sid.authority);
    assert want[3..] == Decimals(sid.subs);
    SubsParse(sid.subs);
  }

  /** parseSID, as the loop it is. */
  method ParseSidLoop(s: Bytes) returns (r: Option<Sid>)
    ensures r == ParseSid(s)
  {
    var parts := Split(s, DASH);
    if |parts| < 4 || parts[0] != [83] || parts[1] != [49] {
      return None;
    }
    var authority := ParseCanonicalUint(parts[2], MAX_AUTHORITY);
    if authority.None? {
      return None;
    }
    var rest := parts[3..];
    if |rest| > MAX_SUB_AUTHORITIES {
      return None;
    }
    var subs: seq<nat> := [];
    for i := 0 to |rest|
      invariant ParseSubs(rest[..i]) == Some(subs)
    {
      var v := ParseCanonicalUint(rest[i], MAX_SUB_AUTHORITY);
      assert rest[..i + 1][..i] == rest[..i];
      if v.None? {
        ParseSubsFails(rest, i);
        return None;
      }
      subs := subs + [v.value];
    }
    assert rest[..|rest|] == rest;
    r := Some(Sid(authority.value, subs));
  }

  lemma {:induction false} ParseSubsFails(parts: seq<Bytes>, i: nat)
    requires i < |parts| && ParseCanonicalUint(parts[i], MAX_SUB_AUTHORITY).None?
    ensures ParseSubs(parts).None?
  {
    if i < |parts| - 1 {
      ParseSubsFails(parts[..|parts| - 1], i);
    }
  }

  // ---------------------------------------------------------------- binary

  /** `k` big-endian bytes. */
  function BigEndian(v: nat, k: nat): (b: Bytes)
    ensures |b| == k
  {
    if k == 0 then [] else BigEndian(v / 256, k - 1) + [v % 256]
  }

  /** Four little-endian bytes. */
  function LittleEndian(v: nat): (b: Bytes)
    ensures |b| == 4
  {
    [v % 256, v / 0x100 % 256, v / 0x1_0000 % 256, v / 0x100_0000 % 256]
  }

  function LittleEndianValue(b: Bytes): nat
    requires |b| == 4
  {
    b[0] as int + 0x100 * (b[1] as int) + 0x1_0000 * (b[2] as int) + 0x100_0000 * (b[3] as int)
  }

  function SubBytes(subs: seq<nat>): (b: Bytes)
    ensures |b| == 4 * |subs|
  {
    if subs == [] then [] else SubBytes(subs[..|subs| - 1]) + LittleEndian(subs[|subs| - 1])
  }

  function SubValues(b: Bytes): (subs: seq<nat>)
    ensures 4 * |subs| <= |b| < 4 * |subs| + 4
  {
    if |b| < 4 then [] else SubValues(b[..|b| - 4]) + [LittleEndianValue(b[|b| - 4..])]
  }

  /** The MS-DTYP layout. */
  function Binary(sid: Sid): Bytes
    requires sid.Valid()
  {
    [1, |sid.subs|] + BigEndian(sid.authority, 6) + SubBytes(sid.subs)
  }

  /** What UnmarshalSID checks: exactly one SID, no trailing bytes. */
  function ReadBinary(b: Bytes): Option<Sid> {
    if |b| < 8 || b[0] != 1 || b[1] == 0 || b[1] > MAX_SUB_AUTHORITIES || |b| != 8 + 4 * b[1] then None
    else Some(Sid(Value(b[2..8]), SubValues(b[8..])))
  }

  lemma {:induction false} BigEndianIff(v: nat, k: nat, b: Bytes)
    requires |b| == k
    ensures Value(b) == v ==> BigEndian(v, k) == b
    ensures BigEndian(v, k) == b && v <= MaxIn(k) ==> Value(b) == v
    ensures Value(b) <= MaxIn(k)
    decreases k
  {
    if k > 0 {
      BigEndianIff(v / 256, k - 1, b[..k - 1]);
      assert b == b[..k - 1] + [b[k - 1]];
    }
  }

  /** The largest value of `k` bytes. */
  function MaxIn(k: nat): nat {
    if k == 0 then 0 else MaxIn(k - 1) * 256 + 255
  }

  lemma LittleEndianReads(v: nat)
    requires v <= MAX_SUB_AUTHORITY
    ensures LittleEndianValue(LittleEndian(v)) == v
  {
    var a, b, c := v / 0x100, v / 0x1_0000, v / 0x100_0000;
    assert a / 256 == b && b / 256 == c && c < 256;
    assert v == 256 * a + v % 256 && a == 256 * b + a % 256 && b == 256 * c + b % 256;
  }

  lemma {:induction false} LittleEndianIsRead(b: Bytes)
    requires |b| == 4
    ensures LittleEndian(LittleEndianValue(b)) == b && LittleEndianValue(b) <= MAX_SUB_AUTHORITY
  {
    FourDigits(b[0], b[1], b[2], b[3]);
  }

  lemma FourDigits(b0: int, b1: int, b2: int, b3: int)
    requires 0 <= b0 < 256 && 0 <= b1 < 256 && 0 <= b2 < 256 && 0 <= b3 < 256
    ensures var v := b0 + 0x100 * b1 + 0x1_0000 * b2 + 0x100_0000 * b3;
      && v <= MAX_SUB_AUTHORITY
      && v % 256 == b0 && v / 0x100 % 256 == b1 && v / 0x1_0000 % 256 == b2 && v / 0x100_0000 % 256 == b3
  {
    var v := b0 + 0x100 * b1 + 0x1_0000 * b2 + 0x100_0000 * b3;
    assert v / 0x100 == b1 + 0x100 * b2 + 0x1_0000 * b3;
    assert v / 0x1_0000 == b2 + 0x100 * b3;
    assert v / 0x100_0000 == b3;
  }

  lemma {:induction false} SubsRead(subs: seq<nat>)
    requires forall i :: 0 <= i < |subs| ==> subs[i] <= MAX_SUB_AUTHORITY
    ensures SubValues(SubBytes(subs)) == subs
  {
    if subs != [] {
      var init, last := subs[..|subs| - 1], subs[|subs| - 1];
      SubsRead(init);
      LittleEndianReads(last);
      var b := SubBytes(subs);
      assert b[..|b| - 4] == SubBytes(init) && b[|b| - 4..] == LittleEndian(last);
    }
  }

  lemma {:induction false} SubsAreRead(b: Bytes, count: nat)
    requires |b| == 4 * count
    ensures SubBytes(SubValues(b)) == b
    ensures forall i :: 0 <= i < |SubValues(b)| ==> SubValues(b)[i] <= MAX_SUB_AUTHORITY
  {
    if b != [] {
      var init, last := b[..|b| - 4], b[|b| - 4..];
      SubsAreRead(init, count - 1);
      LittleEndianIsRead(last);
      var subs := SubValues(b);
      assert subs[..|subs| - 1] == SubValues(init);
      assert b == init + last;
    }
  }

  lemma SixBytes()
    ensures MaxIn(6) == MAX_AUTHORITY
  {
    assert MaxIn(2) == 0xFFFF && MaxIn(3) == 0xFF_FFFF;
    assert MaxIn(4) == 0xFFFF_FFFF && MaxIn(5) == 0xFF_FFFF_FFFF;
  }

  lemma ThreeParts(b: Bytes)
    requires |b| >= 8
    ensures b == [b[0], b[1]] + b[2..8] + b[8..]
  {
    assert b[..8] == [b[0], b[1]] + b[2..8];
    assert b == b[..8] + b[8..];
  }

  lemma AuthorityIsRead(authority: Bytes)
    requires |authority| == 6
    ensures authority == BigEndian(Value(authority), 6) && Value(authority) <= MaxIn(6)
  {
    BigEndianIff(Value(authority), 6, authority);
  }

  lemma BinaryIsRead(b: Bytes)
    requires ReadBinary(b).Some?
    ensures ReadBinary(b).value.Valid() && b == Binary(ReadBinary(b).value)
  {
    SixBytes();
    AuthorityIsRead(b[2..8]);
    SubsAreRead(b[8..], b[1]);
    ThreeParts(b);
  }

  lemma BinaryReads(sid: Sid)
    requires sid.Valid()
    ensures ReadBinary(Binary(sid)) == Some(sid)
  {
    SixBytes();
    var b, authority := Binary(sid), BigEndian(sid.authority, 6);
    BigEndianIff(sid.authority, 6, authority);
    SubsRead(sid.subs);
    assert b[2..8] == authority && b[8..] == SubBytes(sid.subs);
  }

  /** The binary form is read if and only if it is the layout of a valid SID. */
  lemma ReadBinaryIff(b: Bytes, sid: Sid)
    ensures ReadBinary(b) == Some(sid) <==> sid.Valid() && b == Binary(sid)
  {
    if ReadBinary(b) == Some(sid) {
      BinaryIsRead(b);
    }
    if sid.Valid() && b == Binary(sid) {
      BinaryReads(sid);
    }
  }

  // ---------------------------------------------------------------- the codec

  /** MarshalSID. */
  function MarshalSid(s: Bytes): Option<Bytes> {
    match ParseSid(s)
    case None => None
    case Some(sid) => ParseSidIff(s, sid); Some(Binary(sid))
  }

  /** UnmarshalSID. */
  function UnmarshalSid(b: Bytes): Option<Bytes> {
    match ReadBinary(b)
    case None => None
    case Some(sid) => Some(Text(sid))
  }

  lemma MarshalledIsBinary(s: Bytes, sid: Sid)
    requires ParseSid(s) == Some(sid)
    ensures sid.Valid() && MarshalSid(s) == Some(Binary(sid))
  {
    ParseSidIff(s, sid);
  }

  /** The codec is a bijection between the accepted texts and the accepted layouts. */
  lemma {:induction false} CodecIsABijection(s: Bytes, b: Bytes)
    ensures MarshalSid(s) == Some(b) <==> UnmarshalSid(b) == Some(s)
  {
    match ParseSid(s) {
      case None =>
      case Some(sid) =>
        ParseSidIff(s, sid);
        ReadBinaryIff(Binary(sid), sid);
    }
    match ReadBinary(b) {
      case None =>
      case Some(sid) =>
        ReadBinaryIff(b, sid);
        ParseSidIff(Text(sid), sid);
    }
  }

  /** The accepted texts are the spellings of valid SIDs and nothing else. */
  lemma AcceptedTexts(s: Bytes)
    ensures MarshalSid(s).Some? <==> exists sid: Sid :: sid.Valid() && s == Text(sid)
    ensures forall sid: Sid :: sid.Valid() <==>
      && sid.authority < 0x1_0000_0000_0000 && 1 <= |sid.subs| <= 15
      && forall i :: 0 <= i < |sid.subs| ==> sid.subs[i] < 0x1_0000_0000
  {
    match ParseSid(s) {
      case None =>
        forall sid: Sid | sid.Valid()
          ensures s != Text(sid)
        {
          ParseSidIff(s, sid);
        }
      case Some(sid) => ParseSidIff(s, sid);
    }
  }

  function Power10(k: nat): nat {
    if k == 0 then 1 else 10 * Power10(k - 1)
  }

  lemma {:induction false} DecimalLength(n: nat, k: nat)
    requires k >= 1 && n < Power10(k)
    ensures |Decimal(n)| <= k
  {
    if n >= 10 {
      DecimalLength(n / 10, k - 1);
    }
  }

  lemma {:induction false} JoinLength(parts: seq<Bytes>, sep: Byte)
    requires |parts| >= 1 && forall i :: 0 <= i < |parts| ==> |parts[i]| <= 15
    ensures |Join(parts, sep)| < 16 * |parts|
  {
    if |parts| > 1 {
      JoinLength(parts[1..], sep);
    }
  }

  lemma FifteenDigits(n: nat)
    requires n <= MAX_AUTHORITY
    ensures |Decimal(n)| <= 15
  {
    assert Power10(5) == 100_000;
    assert Power10(10) == 10_000_000_000 by {
      assert Power10(8) == 100_000_000;
    }
    assert Power10(13) == 10_000_000_000_000;
    assert Power10(15) == 1_000_000_000_000_000;
    DecimalLength(n, 15);
  }

  /** An accepted text is short, though not always short enough for a one-byte DER length. */
  lemma AcceptedTextsAreShort(s: Bytes)
    requires MarshalSid(s).Some?
    ensures |s| < 288
  {
    var sid := ParseSid(s).value;
    ParseSidIff(s, sid);
    var parts := [[83], [49], Decimal(sid.authority)] + Decimals(sid.subs);
    forall i | 0 <= i < |parts|
      ensures |parts[i]| <= 15
    {
      if i == 2 {
        FifteenDigits(sid.authority);
      } else if i > 2 {
        FifteenDigits(sid.subs[i - 3]);
      }
    }
    JoinLength(parts, DASH);
  }

  // ---------------------------------------------------------------- the codec's loops

  /** `v` shifted right by `k` bytes. */
  function ShiftRight(v: nat, k: nat): nat {
    if k == 0 then v else ShiftRight(v / 256, k - 1)
  }

  lemma {:induction false} ShiftOnce(v: nat, k: nat)
    ensures ShiftRight(v, k) / 256 == ShiftRight(v, k + 1)
  {
    if k > 0 {
      ShiftOnce(v / 256, k - 1);
    }
  }

  method BigEndianLoop(v: nat) returns (out: Bytes)
    ensures out == BigEndian(v, 6)
  {
    out := [];
    for k := 0 to 6
      invariant out == BigEndian(ShiftRight(v, 6 - k), k)
    {
      ShiftOnce(v, 5 - k);
      out := out + [ShiftRight(v, 5 - k) % 256];
    }
    assert ShiftRight(v, 0) == v;
  }

  method Marshal(s: Bytes) returns (r: Option<Bytes>)
    ensures r == MarshalSid(s)
  {
    var parsed := ParseSidLoop(s);
    if parsed.None? {
      return None;
    }
    MarshalledIsBinary(s, parsed.value);
    var authority := BigEndianLoop(parsed.value.authority);
    var subs := SubLoop(parsed.value.subs);
    r := Some([1, |parsed.value.subs|] + authority + subs);
  }

  method SubLoop(subs: seq<nat>) returns (out: Bytes)
    ensures out == SubBytes(subs)
  {
    out := [];
    for i := 0 to |subs|
      invariant out == SubBytes(subs[..i])
    {
      assert subs[..i + 1][..i] == subs[..i];
      out := out + LittleEndian(subs[i]);
    }
    assert subs[..|subs|] == subs;
  }

  lemma {:induction false} JoinAppend(parts: seq<Bytes>, last: Bytes, sep: Byte)
    requires |parts| >= 1
    ensures Join(parts + [last], sep) == Join(parts, sep) + [sep] + last
  {
    if |parts| > 1 {
      JoinAppend(parts[1..], last, sep);
      assert (parts + [last])[1..] == parts[1..] + [last];
    } else {
      assert (parts + [last])[1..] == [last];
    }
  }

  lemma TextAppend(authority: nat, subs: seq<nat>, x: nat)
    ensures Text(Sid(authority, subs + [x])) == Text(Sid(authority, subs)) + [DASH] + Decimal(x)
  {
    var parts := [[83], [49], Decimal(authority)] + Decimals(subs);
    assert [[83], [49], Decimal(authority)] + Decimals(subs + [x]) == parts + [Decimal(x)];
    JoinAppend(parts, Decimal(x), DASH);
  }

  lemma TextStart(authority: nat)
    ensures Text(Sid(authority, [])) == [83, DASH, 49, DASH] + Decimal(authority)
  {
    assert [[83], [49], Decimal(authority)] + Decimals([]) == [[83], [49]] + [Decimal(authority)];
    JoinAppend([[83], [49]], Decimal(authority), DASH);
    JoinAppend([[83]], [49], DASH);
    assert [[83]] + [[49]] == [[83], [49]];
  }

  lemma SubValuesAppend(body: Bytes, off: nat)
    requires off + 4 <= |body|
    ensures SubValues(body[..off + 4]) == SubValues(body[..off]) + [LittleEndianValue(body[off..off + 4])]
  {
    var upTo := body[..off + 4];
    assert upTo[..off] == body[..off] && upTo[off..] == body[off..off + 4];
  }

  method AuthorityLoop(b: Bytes) returns (authority: nat)
    ensures authority == Value(b)
  {
    authority := 0;
    for i := 0 to |b|
      invariant authority == Value(b[..i])
    {
      assert b[..i + 1] == b[..i] + [b[i]];
      ValueSnoc(b[..i], b[i]);
      authority := authority * 256 + b[i];
    }
    assert b[..|b|] == b;
  }

  lemma TextStep(authority: nat, body: Bytes, off: nat)
    requires off + 4 <= |body|
    ensures Text(Sid(authority, SubValues(body[..off + 4])))
            == Text(Sid(authority, SubValues(body[..off]))) + [DASH] + Decimal(LittleEndianValue(body[off..off + 4]))
  {
    SubValuesAppend(body, off);
    TextAppend(authority, SubValues(body[..off]), LittleEndianValue(body[off..off + 4]));
  }

  method TextLoop(authority: nat, body: Bytes, count: nat) returns (text: Bytes)
    requires |body| == 4 * count
    ensures text == Text(Sid(authority, SubValues(body)))
  {
    TextStart(authority);
    text := [83, DASH, 49, DASH] + Decimal(authority);
    var off := 0;
    assert SubValues(body[..0]) == [];
    for i := 0 to count
      invariant off == 4 * i
      invariant text == Text(Sid(authority, SubValues(body[..off])))
    {
      TextStep(authority, body, off);
      var sub := LittleEndianValue(body[off..off + 4]);
      text := text + [DASH] + Decimal(sub);
      off := off + 4;
    }
    assert body[..off] == body;
  }

  method Unmarshal(b: Bytes) returns (r: Option<Bytes>)
    ensures r == UnmarshalSid(b)
  {
    if |b| < 8 || b[0] != 1 {
      return None;
    }
    var count := b[1];
    if count == 0 || count > MAX_SUB_AUTHORITIES || |b| != 8 + 4 * count {
      return None;
    }
    var authority := AuthorityLoop(b[2..8]);
    var text := TextLoop(authority, b[8..], count);
    r := Some(text);
  }
}
