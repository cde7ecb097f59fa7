/** The order DER requires of a SET OF (section 11.6 of ITU-T X.690): its members' encodings,
    ascending. */
module SetOrder {
  import opened ByteStrings

  /** bytes.Compare(a, b) < 0. */
  predicate Less(a: Bytes, b: Bytes) {
    b != [] && (a == [] || a[0] < b[0] || (a[0] == b[0] && Less(a[1..], b[1..])))
  }

  /** One after the other in octet order: the first is a beginning of the second, or the first octet in
      which they differ is the smaller one. */
  ghost predicate AtOrBefore(a: Bytes, b: Bytes) {
    a <= b || exists k :: 0 <= k < |a| && k < |b| && a[..k] == b[..k] && a[k] < b[k]
  }

  /** Which is what bytes.Compare says. */
  lemma {:induction false} LessIff(a: Bytes, b: Bytes)
    ensures Less(a, b) <==> a < b || exists k :: 0 <= k < |a| && k < |b| && a[..k] == b[..k] && a[k] < b[k]
  {
    if a != [] && b != [] {
      if a[0] == b[0] {
        LessIff(a[1..], b[1..]);
        LessOfTails(a, b);
      } else if a[0] < b[0] {
        assert a[..0] == b[..0];
      }
    }
  }

  /** A common first octet decides nothing. */
  lemma LessOfTails(a: Bytes, b: Bytes)
    requires a != [] && b != [] && a[0] == b[0]
    ensures a < b <==> a[1..] < b[1..]
    ensures (exists k :: 0 <= k < |a| && k < |b| && a[..k] == b[..k] && a[k] < b[k])
            <==> exists k :: 0 <= k < |a[1..]| && k < |b[1..]| && a[1..][..k] == b[1..][..k] && a[1..][k] < b[1..][k]
  {
    assert a == [a[0]] + a[1..] && b == [b[0]] + b[1..];
    if k :| 0 <= k < |a| && k < |b| && a[..k] == b[..k] && a[k] < b[k] {
      assert a[1..][..k - 1] == a[..k][1..] && b[1..][..k - 1] == b[..k][1..];
      assert a[1..][k - 1] < b[1..][k - 1];
    }
    if k :| 0 <= k < |a[1..]| && k < |b[1..]| && a[1..][..k] == b[1..][..k] && a[1..][k] < b[1..][k] {
      assert a[..k + 1] == [a[0]] + a[1..][..k] && b[..k + 1] == [b[0]] + b[1..][..k];
      assert a[k + 1] < b[k + 1];
    }
  }

  lemma {:induction false} LessIsTotal(a: Bytes, b: Bytes)
    requires !Less(a, b) && !Less(b, a)
    ensures a == b
  {
    if a != [] && b != [] {
      LessIsTotal(a[1..], b[1..]);
      assert a == [a[0]] + a[1..] && b == [b[0]] + b[1..];
    }
  }

  lemma {:induction false} LessIsTransitive(a: Bytes, b: Bytes, c: Bytes)
    requires !Less(b, a) && !Less(c, b)
    ensures !Less(c, a)
  {
    if a != [] && b != [] && c != [] && a[0] == b[0] == c[0] {
      LessIsTransitive(a[1..], b[1..], c[1..]);
    }
  }

  lemma {:induction false} LessIsAsymmetric(a: Bytes, b: Bytes)
    requires Less(a, b)
    ensures !Less(b, a)
  {
    if a != [] && a[0] == b[0] {
      LessIsAsymmetric(a[1..], b[1..]);
    }
  }

  predicate Ascending(parts: seq<Bytes>) {
    forall i, j :: 0 <= i < j < |parts| ==> !Less(parts[j], parts[i])
  }

  function Insert(part: Bytes, sorted: seq<Bytes>): (r: seq<Bytes>)
    ensures multiset(r) == multiset(sorted) + multiset{part}
  {
    if sorted == [] || !Less(sorted[0], part) then
      [part] + sorted
    else
      assert sorted == [sorted[0]] + sorted[1..];
      [sorted[0]] + Insert(part, sorted[1..])
  }

  /** sortDER. The program calls a library sort; SortIsTheOnlyOne shows that its result is this. */
  function SortDer(parts: seq<Bytes>): (r: seq<Bytes>)
    ensures multiset(r) == multiset(parts)
  {
    if parts == [] then []
    else
      assert parts == [parts[0]] + parts[1..];
      Insert(parts[0], SortDer(parts[1..]))
  }

  lemma InMultiset(parts: seq<Bytes>, i: nat, other: seq<Bytes>) returns (j: nat)
    requires i < |parts| && multiset(parts) == multiset(other)
    ensures j < |other| && other[j] == parts[i]
  {
    assert parts[i] in multiset(parts);
    assert parts[i] in other;
    j :| 0 <= j < |other| && other[j] == parts[i];
  }

  lemma {:induction false} InsertKeepsOrder(part: Bytes, sorted: seq<Bytes>)
    requires Ascending(sorted)
    ensures Ascending(Insert(part, sorted))
  {
    if sorted != [] {
      if Less(sorted[0], part) {
        InsertKeepsOrder(part, sorted[1..]);
        var tail := Insert(part, sorted[1..]);
        LessIsAsymmetric(sorted[0], part);
        forall j | 0 <= j < |tail|
          ensures !Less(tail[j], sorted[0])
        {
          assert multiset(tail) == multiset(sorted[1..] + [part]);
          var k := InMultiset(tail, j, sorted[1..] + [part]);
        }
      } else {
        forall j | 0 <= j < |sorted|
          ensures !Less(sorted[j], part)
        {
          if j > 0 {
            LessIsTransitive(part, sorted[0], sorted[j]);
          }
        }
      }
    }
  }

  lemma {:induction false} SortAscends(parts: seq<Bytes>)
    ensures Ascending(SortDer(parts))
  {
    if parts != [] {
      SortAscends(parts[1..]);
      InsertKeepsOrder(parts[0], SortDer(parts[1..]));
    }
  }

  lemma NotAfter(a: Bytes, b: Bytes)
    requires !Less(b, a)
    ensures AtOrBefore(a, b)
  {
    LessIff(a, b);
    if !Less(a, b) {
      LessIsTotal(a, b);
    }
  }

  /** The sorted parts ascend in octet order. */
  lemma SortIsAscending(parts: seq<Bytes>)
    ensures Ascending(SortDer(parts))
    ensures forall i, j :: 0 <= i < j < |SortDer(parts)| ==> AtOrBefore(SortDer(parts)[i], SortDer(parts)[j])
  {
    SortAscends(parts);
    forall i, j | 0 <= i < j < |SortDer(parts)|
      ensures AtOrBefore(SortDer(parts)[i], SortDer(parts)[j])
    {
      NotAfter(SortDer(parts)[i], SortDer(parts)[j]);
    }
  }

  lemma TailCounts(parts: seq<Bytes>)
    requires parts != []
    ensures multiset(parts[1..]) == multiset(parts) - multiset{parts[0]}
  {
    assert parts == [parts[0]] + parts[1..];
  }

  lemma FirstAgrees(a: seq<Bytes>, b: seq<Bytes>)
    requires Ascending(a) && Ascending(b) && multiset(a) == multiset(b) && a != [] && b != []
    ensures a[0] == b[0]
  {
    var i := InMultiset(a, 0, b);
    var j := InMultiset(b, 0, a);
    if a[0] != b[0] {
      LessIsTotal(a[0], b[0]);
    }
  }

  lemma AscendingTail(parts: seq<Bytes>)
    requires Ascending(parts) && parts != []
    ensures Ascending(parts[1..])
  {
  }

  /** There is one ascending arrangement. */
  lemma {:induction false} AscendingIsUnique(a: seq<Bytes>, b: seq<Bytes>)
    requires Ascending(a) && Ascending(b) && multiset(a) == multiset(b)
    ensures a == b
  {
    assert |a| == |multiset(a)| && |b| == |multiset(b)|;
    if a != [] {
      FirstAgrees(a, b);
      TailCounts(a);
      TailCounts(b);
      AscendingTail(a);
      AscendingTail(b);
      AscendingIsUnique(a[1..], b[1..]);
      assert a == [a[0]] + a[1..] && b == [b[0]] + b[1..];
    }
  }

  /** Any ascending permutation, however it was sorted, is SortDer's: so the result does not
      depend on the input's order, and sorting twice changes nothing. */
  lemma SortIsTheOnlyOne(parts: seq<Bytes>, other: seq<Bytes>)
    requires multiset(other) == multiset(parts)
    ensures Ascending(other) ==> other == SortDer(parts)
    ensures SortDer(other) == SortDer(parts)
    ensures SortDer(SortDer(parts)) == SortDer(parts)
  {
    SortIsAscending(parts);
    SortIsAscending(other);
    SortIsAscending(SortDer(parts));
    if Ascending(other) {
      AscendingIsUnique(other, SortDer(parts));
    }
    AscendingIsUnique(SortDer(other), SortDer(parts));
    AscendingIsUnique(SortDer(SortDer(parts)), SortDer(parts));
  }
}
