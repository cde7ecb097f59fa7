/** Text: the runes of a byte string, as Go's conversion reads them, and their UTF-16. */
module Utf {
  import opened ByteStrings

  const REPLACEMENT: int := 0xFFFD

  /** A Unicode scalar value. */
  type Rune = r: int | 0 <= r < 0xD800 || 0xE000 <= r < 0x11_0000

  /** A UTF-16 code unit. */
  type Unit = u: int | 0 <= u < 0x1_0000

  predicate Follows(s: Bytes, i: nat, low: int, high: int) {
    i < |s| && low <= s[i] <= high
  }

  function SixBits(b: Byte): int {
    b as int % 64
  }

  /** The first rune and the bytes it takes; a byte that begins no well-formed sequence is one
      replacement character. */
  function FirstRune(s: Bytes): (r: (Rune, nat))
    requires s != []
    ensures 1 <= r.1 <= |s|
  {
    var b := s[0] as int;
    if b < 0x80 then
      (b, 1)
    else if 0xC2 <= b <= 0xDF && Follows(s, 1, 0x80, 0xBF) then
      ((b - 0xC0) * 64 + SixBits(s[1]), 2)
    else if && 0xE0 <= b <= 0xEF && Follows(s, 1, if b == 0xE0 then 0xA0 else 0x80, if b == 0xED then 0x9F else 0xBF)
            && Follows(s, 2, 0x80, 0xBF) then
      ((b - 0xE0) * 4096 + SixBits(s[1]) * 64 + SixBits(s[2]), 3)
    else if && 0xF0 <= b <= 0xF4 && Follows(s, 1, if b == 0xF0 then 0x90 else 0x80, if b == 0xF4 then 0x8F else 0xBF)
            && Follows(s, 2, 0x80, 0xBF) && Follows(s, 3, 0x80, 0xBF) then
      ((b - 0xF0) * 262144 + SixBits(s[1]) * 4096 + SixBits(s[2]) * 64 + SixBits(s[3]), 4)
    else
      (REPLACEMENT, 1)
  }

  /** []rune(s). */
  function Runes(s: Bytes): seq<Rune> {
    if s == [] then []
    else
      var (r, size) := FirstRune(s);
      [r] + Runes(s[size..])
  }

  /** utf16.Encode: one unit, or a surrogate pair. */
  function UnitsOf(r: Rune): seq<Unit> {
    if r < 0x1_0000 then [r]
    else [0xD800 + (r - 0x1_0000) / 1024, 0xDC00 + (r - 0x1_0000) % 1024]
  }

  function Units(runes: seq<Rune>): seq<Unit> {
    if runes == [] then [] else UnitsOf(runes[0]) + Units(runes[1..])
  }

  function BigEndian(u: Unit): Bytes {
    [u / 256, u % 256]
  }

  function Octets(units: seq<Unit>): (b: Bytes)
    ensures |b| == 2 * |units|
  {
    if units == [] then [] else Octets(units[..|units| - 1]) + BigEndian(units[|units| - 1])
  }

  // ---------------------------------------------------------------- and back

  /** The runes of UTF-16 in which every surrogate has its other half. */
  function RunesOf(units: seq<Unit>): (runes: seq<Rune>)
    requires Paired(units)
  {
    if units == [] then []
    else if IsSurrogate(units[0]) then
      [0x1_0000 + (units[0] - 0xD800) * 1024 + (units[1] - 0xDC00)] + RunesOf(units[2..])
    else
      [units[0]] + RunesOf(units[1..])
  }

  predicate IsSurrogate(u: Unit) {
    0xD800 <= u < 0xE000
  }

  predicate Paired(units: seq<Unit>) {
    units == []
    || (if IsSurrogate(units[0]) then
          units[0] < 0xDC00 && |units| > 1 && 0xDC00 <= units[1] < 0xE000 && Paired(units[2..])
        else
          Paired(units[1..]))
  }

  function UnitsIn(b: Bytes): (units: seq<Unit>)
    requires |b| % 2 == 0
    ensures 2 * |units| == |b|
  {
    if b == [] then [] else UnitsIn(b[..|b| - 2]) + [b[|b| - 2] as int * 256 + b[|b| - 1] as int]
  }

  lemma UnitsInSnoc(b: Bytes, u: Unit)
    requires |b| % 2 == 0
    ensures UnitsIn(b + BigEndian(u)) == UnitsIn(b) + [u]
  {
    var c := b + BigEndian(u);
    assert c[..|c| - 2] == b;
    assert c[|c| - 2] == u / 256 && c[|c| - 1] == u % 256;
  }

  lemma {:induction false} OctetsReadBack(units: seq<Unit>)
    ensures UnitsIn(Octets(units)) == units
  {
    if units != [] {
      var init, last := units[..|units| - 1], units[|units| - 1];
      OctetsReadBack(init);
      UnitsInSnoc(Octets(init), last);
      assert units == init + [last];
    }
  }

  /** UTF-16 loses nothing: the runes read back. */
  lemma {:induction false} UnitsReadBack(runes: seq<Rune>)
    ensures Paired(Units(runes)) && RunesOf(Units(runes)) == runes
  {
    if runes != [] {
      var r, rest := runes[0], runes[1..];
      UnitsReadBack(rest);
      if r < 0x1_0000 {
        assert Units(runes)[1..] == Units(rest);
      } else {
        assert Units(runes)[2..] == Units(rest);
      }
      assert runes == [r] + rest;
    }
  }

  predicate AllAscii(s: Bytes) {
    forall i :: 0 <= i < |s| ==> s[i] < 128
  }

  /** An ASCII text is its own runes. */
  lemma {:induction false} AsciiRunes(s: Bytes)
    requires AllAscii(s)
    ensures |Runes(s)| == |s| && forall i :: 0 <= i < |s| ==> Runes(s)[i] == s[i] as int
  {
    if s != [] {
      AsciiRunes(s[1..]);
    }
  }

  /** A rune in one unit is that unit; any other is the two surrogates whose halves are worth it. */
  lemma UnitsAreSpelled(r: Rune)
    ensures r < 0x1_0000 ==> UnitsOf(r) == [r]
    ensures r >= 0x1_0000 ==>
      var units := UnitsOf(r);
      && |units| == 2 && 0xD800 <= units[0] < 0xDC00 && 0xDC00 <= units[1] < 0xE000
      && 0x1_0000 + (units[0] as int - 0xD800) * 0x400 + (units[1] as int - 0xDC00) == r
  {
  }

  /** The well-formed UTF-8 of a rune (section 3 of RFC 3629) is read as that rune, and whole. */
  function Utf8(r: Rune): Bytes {
    if r < 0x80 then [r]
    else if r < 0x800 then [0xC0 + r / 0x40, 0x80 + r % 0x40]
    else if r < 0x1_0000 then [0xE0 + r / 0x1000, 0x80 + r / 0x40 % 0x40, 0x80 + r % 0x40]
    else [0xF0 + r / 0x4_0000, 0x80 + r / 0x1000 % 0x40, 0x80 + r / 0x40 % 0x40, 0x80 + r % 0x40]
  }

  lemma TwoOctets(r: Rune, s: Bytes)
    requires 0x80 <= r < 0x800 && |s| >= 2 && s[0] == 0xC0 + r / 0x40 && s[1] == 0x80 + r % 0x40
    ensures FirstRune(s) == (r, 2)
  {
    assert SixBits(s[1]) == r % 0x40;
  }

  lemma ThreeOctets(r: Rune, s: Bytes)
    requires 0x800 <= r < 0x1_0000 && |s| >= 3
    requires s[0] == 0xE0 + r / 0x1000 && s[1] == 0x80 + r / 0x40 % 0x40 && s[2] == 0x80 + r % 0x40
    ensures FirstRune(s) == (r, 3)
  {
    assert SixBits(s[1]) == r / 0x40 % 0x40 && SixBits(s[2]) == r % 0x40;
    assert r / 0x1000 == 0 ==> r / 0x40 % 0x40 >= 0x20;
    assert r / 0x1000 == 0xD ==> r / 0x40 % 0x40 < 0x20;
  }

  /** The rune in base 64. */
  lemma FourDigits(r: int, h: int, g: int, f: int)
    requires 0x1_0000 <= r < 0x11_0000 && h == r / 0x40 && g == r / 0x1000 && f == r / 0x4_0000
    ensures r == f * 0x4_0000 + g % 0x40 * 0x1000 + h % 0x40 * 0x40 + r % 0x40
    ensures 0 <= f <= 4 && (f == 0 ==> g % 0x40 >= 0x10) && (f == 4 ==> g % 0x40 < 0x10)
  {
    assert g == h / 0x40 && f == g / 0x40;
  }

  lemma FourOctetsInRange(s: Bytes, f: int, g: int, h: int, d: int)
    requires 0 <= f <= 4 && 0 <= g < 0x40 && 0 <= h < 0x40 && 0 <= d < 0x40
    requires (f == 0 ==> g >= 0x10) && (f == 4 ==> g < 0x10)
    requires |s| >= 4 && s[0] == 0xF0 + f && s[1] == 0x80 + g && s[2] == 0x80 + h && s[3] == 0x80 + d
    ensures FirstRune(s) == (f * 0x4_0000 + g * 0x1000 + h * 0x40 + d, 4)
  {
    assert SixBits(s[1]) == g && SixBits(s[2]) == h && SixBits(s[3]) == d;
  }

  lemma FourOctets(r: Rune, s: Bytes)
    requires 0x1_0000 <= r && |s| >= 4 && s[0] == 0xF0 + r / 0x4_0000
    requires s[1] == 0x80 + r / 0x1000 % 0x40 && s[2] == 0x80 + r / 0x40 % 0x40 && s[3] == 0x80 + r % 0x40
    ensures FirstRune(s) == (r, 4)
  {
    FourDigits(r, r / 0x40, r / 0x1000, r / 0x4_0000);
    FourOctetsInRange(s, r / 0x4_0000, r / 0x1000 % 0x40, r / 0x40 % 0x40, r % 0x40);
  }

  lemma RuneIsRead(r: Rune, rest: Bytes)
    ensures FirstRune(Utf8(r) + rest) == (r, |Utf8(r)|)
  {
    var s := Utf8(r) + rest;
    if 0x80 <= r < 0x800 {
      TwoOctets(r, s);
    } else if 0x800 <= r < 0x1_0000 {
      ThreeOctets(r, s);
    } else if 0x1_0000 <= r {
      FourOctets(r, s);
    }
  }

  /** All of the text's UTF-8. */
  function AllUtf8(runes: seq<Rune>): Bytes {
    if runes == [] then [] else Utf8(runes[0]) + AllUtf8(runes[1..])
  }

  lemma {:induction false} RunesAreRead(runes: seq<Rune>)
    ensures Runes(AllUtf8(runes)) == runes
  {
    if runes != [] {
      var rest := AllUtf8(runes[1..]);
      RuneIsRead(runes[0], rest);
      RunesAreRead(runes[1..]);
      assert (Utf8(runes[0]) + rest)[|Utf8(runes[0])|..] == rest;
      assert runes == [runes[0]] + runes[1..];
    }
  }

  lemma TwoOctetsRead(s: Bytes)
    requires |s| >= 2 && 0xC2 <= s[0] <= 0xDF && 0x80 <= s[1] <= 0xBF
    ensures var r := FirstRune(s).0; Utf8(r) == [s[0], s[1]] && FirstRune(s).1 == 2
  {
  }

  lemma ThreeOctetsRead(s: Bytes)
    requires |s| >= 3 && 0xE0 <= s[0] <= 0xEF && 0x80 <= s[2] <= 0xBF
    requires (if s[0] == 0xE0 then 0xA0 else 0x80) <= s[1] <= (if s[0] == 0xED then 0x9F else 0xBF)
    ensures var r := FirstRune(s).0; Utf8(r) == [s[0], s[1], s[2]] && FirstRune(s).1 == 3
  {
    var r := (s[0] as int - 0xE0) * 0x1000 + (s[1] as int - 0x80) * 0x40 + (s[2] as int - 0x80);
    assert FirstRune(s).0 == r;
    assert r / 0x40 == (s[0] as int - 0xE0) * 0x40 + (s[1] as int - 0x80);
    assert r / 0x1000 == r / 0x40 / 0x40;
  }

  lemma FourOctetsRead(s: Bytes)
    requires |s| >= 4 && 0xF0 <= s[0] <= 0xF4 && 0x80 <= s[2] <= 0xBF && 0x80 <= s[3] <= 0xBF
    requires (if s[0] == 0xF0 then 0x90 else 0x80) <= s[1] <= (if s[0] == 0xF4 then 0x8F else 0xBF)
    ensures var r := FirstRune(s).0; Utf8(r) == [s[0], s[1], s[2], s[3]] && FirstRune(s).1 == 4
  {
    var high := (s[0] as int - 0xF0) * 0x1000 + (s[1] as int - 0x80) * 0x40 + (s[2] as int - 0x80);
    var r := high * 0x40 + (s[3] as int - 0x80);
    assert FirstRune(s).0 == r;
    assert r / 0x40 == high && high / 0x40 == (s[0] as int - 0xF0) * 0x40 + (s[1] as int - 0x80);
    assert r / 0x1000 == high / 0x40 && r / 0x4_0000 == high / 0x40 / 0x40;
  }

  /** A text that does not begin with the UTF-8 of any rune begins with a byte to be replaced. */
  lemma FirstRuneIff(s: Bytes, r: Rune)
    requires s != []
    ensures Utf8(r) <= s ==> FirstRune(s) == (r, |Utf8(r)|)
    ensures (exists q: Rune :: Utf8(q) <= s) || FirstRune(s) == (0xFFFD, 1)
  {
    if Utf8(r) <= s {
      RuneIsRead(r, s[|Utf8(r)|..]);
      assert s == Utf8(r) + s[|Utf8(r)|..];
    }
    var q, size := FirstRune(s).0, FirstRune(s).1;
    if s[0] < 0x80 {
      assert Utf8(q) == [s[0]] && Utf8(q) <= s;
    } else if size == 2 {
      TwoOctetsRead(s);
      assert Utf8(q) <= s;
    } else if size == 3 {
      ThreeOctetsRead(s);
      assert Utf8(q) <= s;
    } else if size == 4 {
      FourOctetsRead(s);
      assert Utf8(q) <= s;
    }
  }
}
