/** Account and template names, and the string in which a request tells the CA whose certificate
    it wants: CertificateTemplate=<template>&RequesterName=<domain>%5C<account>& . */
module Names {
  import opened ByteStrings
  import opened Options

  const BACKSLASH: Byte := 92
  const AMPERSAND: Byte := 38
  const EQUALS: Byte := 61
  const PERCENT: Byte := 37

  const MAX_ACCOUNT_NAME: nat := 128

  /** isAccountRune. A name all of whose runes pass is all ASCII, so runes and bytes agree. */
  predicate AccountByte(b: Byte) {
    || 97 <= b <= 122 || 65 <= b <= 90 || 48 <= b <= 57
    || b == 45 || b == 95 || b == 46 || b == 36
  }

  predicate AllAccountBytes(s: Bytes) {
    forall i :: 0 <= i < |s| ==> AccountByte(s[i])
  }

  /** validateRequesterName. */
  predicate ValidRequester(name: Bytes) {
    var (domain, account, found) := Cut(name, BACKSLASH);
    && name != [] && found && domain != [] && account != []
    && BACKSLASH !in account && AllAccountBytes(domain + account)
  }

  /** validateTemplateName. */
  predicate ValidTemplate(name: Bytes) {
    name != [] && AllAccountBytes(name)
  }

  /** ValidateAccountName of the mapping package, check by check. */
  predicate ValidAccount(name: Bytes) {
    && name != []
    && |name| <= MAX_ACCOUNT_NAME
    && var (domain, account, found) := Cut(name, BACKSLASH);
    && found
    && domain != []
    && account != []
    && BACKSLASH !in account
    && AllAccountBytes(domain + account)
  }

  /** Letters, digits and four other characters. */
  predicate Plain(s: Bytes) {
    forall i :: 0 <= i < |s| ==>
      var c := s[i] as char;
      'a' <= c <= 'z' || 'A' <= c <= 'Z' || '0' <= c <= '9' || c == '-' || c == '_' || c == '.' || c == '$'
  }

  lemma PlainIff(s: Bytes)
    ensures AllAccountBytes(s) <==> Plain(s)
  {
    if Plain(s) {
      forall i | 0 <= i < |s|
        ensures AccountByte(s[i])
      {
        var c := s[i] as char;
        assert 'a' <= c <= 'z' || 'A' <= c <= 'Z' || '0' <= c <= '9' || c == '-' || c == '_' || c == '.' || c == '$';
      }
    }
  }

  /** What both say: two non-empty plain names around one backslash. The mapping adds a length. */
  lemma AccountsAreRequesters(name: Bytes)
    ensures ValidAccount(name) <==> ValidRequester(name) && |name| <= 128
    ensures ValidRequester(name) <==>
            exists domain, account :: (
              && domain != [] && account != [] && Plain(domain) && Plain(account)
              && name == domain + [92] + account)
  {
    if ValidRequester(name) {
      var (domain, account, found) := Cut(name, BACKSLASH);
      assert forall i :: 0 <= i < |domain| ==> domain[i] == (domain + account)[i];
      assert forall i :: 0 <= i < |account| ==> account[i] == (domain + account)[|domain| + i];
      PlainIff(domain);
      PlainIff(account);
      assert Plain(domain) && Plain(account) && name == domain + [92] + account;
    }
    if domain: Bytes, account: Bytes :|
      domain != [] && account != [] && Plain(domain) && Plain(account) && name == domain + [92] + account
    {
      PlainIff(domain);
      PlainIff(account);
      CutAt(domain, account, BACKSLASH);
    }
  }

  // ---------------------------------------------------------------- the request string

  /** strings.ReplaceAll(s, `\`, "%5C"). */
  function Escape(s: Bytes): Bytes {
    if s == [] then []
    else (if s[0] == BACKSLASH then [PERCENT, 53, 67] else [s[0]]) + Escape(s[1..])
  }

  function Unescape(s: Bytes): Bytes {
    if s == [] then []
    else if |s| >= 3 && s[0] == PERCENT && s[1] == 53 && s[2] == 67 then [BACKSLASH] + Unescape(s[3..])
    else [s[0]] + Unescape(s[1..])
  }

  const TEMPLATE_KEY: Bytes := Ascii("CertificateTemplate")
  const REQUESTER_KEY: Bytes := Ascii("RequesterName")

  /** regInfoString. */
  function RegInfo(template: Bytes, requester: Bytes): Bytes {
    Ascii("CertificateTemplate=") + template + Ascii("&RequesterName=") + Escape(requester) + Ascii("&")
  }

  /** A reader that knows no more than the format: fields end in "&", a name and a value are
      split at the first "=", and "%5C" is a backslash. */
  function ReadFields(s: Bytes): Option<seq<(Bytes, Bytes)>> {
    var parts := Split(s, AMPERSAND);
    if parts[|parts| - 1] != [] then None else ReadPairs(parts[..|parts| - 1])
  }

  function ReadPairs(parts: seq<Bytes>): Option<seq<(Bytes, Bytes)>> {
    if parts == [] then Some([])
    else
      var (key, value, found) := Cut(parts[0], EQUALS);
      if !found then None
      else
        var rest :- ReadPairs(parts[1..]);
        Some([(key, Unescape(value))] + rest)
  }

  lemma {:induction false} UnescapeEscaped(s: Bytes)
    requires PERCENT !in s
    ensures Unescape(Escape(s)) == s
  {
    if s != [] {
      UnescapeEscaped(s[1..]);
      var rest := Escape(s[1..]);
      if s[0] == BACKSLASH {
        assert ([PERCENT, 53, 67] + rest)[3..] == rest;
      } else {
        assert ([s[0]] + rest)[1..] == rest;
      }
      assert s == [s[0]] + s[1..];
    }
  }

  lemma {:induction false} EscapeIsPlain(s: Bytes)
    requires AMPERSAND !in s
    ensures AMPERSAND !in Escape(s)
  {
    if s != [] {
      EscapeIsPlain(s[1..]);
    }
  }

  lemma {:induction false} UnescapePlain(s: Bytes)
    requires PERCENT !in s
    ensures Unescape(s) == s
  {
    if s != [] {
      UnescapePlain(s[1..]);
      assert s == [s[0]] + s[1..];
    }
  }

  lemma RequesterIsPlain(name: Bytes)
    requires ValidRequester(name)
    ensures AMPERSAND !in name && EQUALS !in name && PERCENT !in name
  {
    var (domain, account, found) := Cut(name, BACKSLASH);
    assert forall i :: 0 <= i < |domain| ==> domain[i] == (domain + account)[i];
    assert forall i :: 0 <= i < |account| ==> account[i] == (domain + account)[|domain| + i];
  }

  lemma Literals()
    ensures Ascii("CertificateTemplate=") == TEMPLATE_KEY + [EQUALS]
    ensures Ascii("&RequesterName=") == [AMPERSAND] + REQUESTER_KEY + [EQUALS]
    ensures Ascii("&") == [AMPERSAND]
    ensures AMPERSAND !in TEMPLATE_KEY && AMPERSAND !in REQUESTER_KEY
    ensures EQUALS !in TEMPLATE_KEY && EQUALS !in REQUESTER_KEY
  {
  }

  lemma {:induction false} SplitTwo(a: Bytes, b: Bytes)
    requires AMPERSAND !in a && AMPERSAND !in b
    ensures Split(a + [AMPERSAND] + (b + [AMPERSAND] + []), AMPERSAND) == [a, b, []]
  {
    SplitFirst(a, b + [AMPERSAND] + [], AMPERSAND);
    SplitFirst(b, [], AMPERSAND);
  }

  /** Two `name=value&` fields, for any names and values, split back. */
  lemma {:induction false} TwoFields(k1: Bytes, v1: Bytes, k2: Bytes, v2: Bytes)
    requires AMPERSAND !in k1 && AMPERSAND !in v1 && AMPERSAND !in k2 && AMPERSAND !in v2
    ensures Split(k1 + [EQUALS] + v1 + ([AMPERSAND] + k2 + [EQUALS]) + v2 + [AMPERSAND], AMPERSAND)
            == [k1 + [EQUALS] + v1, k2 + [EQUALS] + v2, []]
  {
    var a, b := k1 + [EQUALS] + v1, k2 + [EQUALS] + v2;
    assert a + ([AMPERSAND] + k2 + [EQUALS]) + v2 + [AMPERSAND] == a + [AMPERSAND] + (b + [AMPERSAND] + []);
    SplitTwo(a, b);
  }

  lemma FirstPair(k: Bytes, v: Bytes, rest: seq<Bytes>)
    requires EQUALS !in k && ReadPairs(rest).Some?
    ensures ReadPairs([k + [EQUALS] + v] + rest) == Some([(k, Unescape(v))] + ReadPairs(rest).value)
  {
    CutAt(k, v, EQUALS);
    assert ([k + [EQUALS] + v] + rest)[1..] == rest;
  }

  lemma TwoPairs(k1: Bytes, v1: Bytes, k2: Bytes, v2: Bytes)
    requires EQUALS !in k1 && EQUALS !in k2
    ensures ReadPairs([k1 + [EQUALS] + v1, k2 + [EQUALS] + v2]) == Some([(k1, Unescape(v1)), (k2, Unescape(v2))])
  {
    var first: seq<Bytes>, second: seq<Bytes> := [k1 + [EQUALS] + v1], [k2 + [EQUALS] + v2];
    var p1: seq<(Bytes, Bytes)>, p2: seq<(Bytes, Bytes)> := [(k1, Unescape(v1))], [(k2, Unescape(v2))];
    FirstPair(k2, v2, []);
    assert second + [] == second && p2 + [] == p2;
    assert ReadPairs(second) == Some(p2);
    FirstPair(k1, v1, second);
    assert first + second == [first[0], second[0]] && p1 + p2 == [p1[0], p2[0]];
  }

  /** For validated names the request string states one template and one requester, these two. */
  lemma RegInfoIsUnambiguous(template: Bytes, requester: Bytes)
    requires ValidTemplate(template) && ValidRequester(requester)
    ensures ReadFields(RegInfo(template, requester)) == Some([(TEMPLATE_KEY, template), (REQUESTER_KEY, requester)])
  {
    Literals();
    RequesterIsPlain(requester);
    EscapeIsPlain(requester);
    UnescapeEscaped(requester);
    UnescapePlain(template);
    var v := Escape(requester);
    TwoFields(TEMPLATE_KEY, template, REQUESTER_KEY, v);
    TwoPairs(TEMPLATE_KEY, template, REQUESTER_KEY, v);
    var a, b := TEMPLATE_KEY + [EQUALS] + template, REQUESTER_KEY + [EQUALS] + v;
    assert [a, b, []][..2] == [a, b];
  }

  lemma {:induction false} EscapePlain(s: Bytes)
    requires BACKSLASH !in s
    ensures Escape(s) == s
  {
    if s != [] {
      EscapePlain(s[1..]);
      assert s == [s[0]] + s[1..];
    }
  }

  lemma {:induction false} EscapeInTwo(a: Bytes, b: Bytes)
    ensures Escape(a + b) == Escape(a) + Escape(b)
  {
    if a == [] {
      assert a + b == b;
    } else {
      assert (a + b)[1..] == a[1..] + b;
      EscapeInTwo(a[1..], b);
    }
  }

  /** The request string for domain\account, octet by octet: the backslash becomes "%5C". */
  lemma RegInfoIsSpelled(template: Bytes, domain: Bytes, account: Bytes)
    requires 92 !in domain && 92 !in account
    ensures RegInfo(template, domain + [92] + account)
            == Ascii("CertificateTemplate=") + template + Ascii("&RequesterName=")
               + (domain + [0x25, 0x35, 0x43] + account) + Ascii("&")
  {
    EscapePlain(domain);
    EscapePlain(account);
    EscapeInTwo(domain, [92]);
    EscapeInTwo(domain + [92], account);
    assert Escape([92]) == [0x25, 0x35, 0x43] + Escape([]);
  }
}
