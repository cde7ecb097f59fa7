/** The mapping snapshot: which AD account each SPIFFE ID stands for. */
module Mapping {
  import opened ByteStrings
  import opened Names
  import opened Options
  import Sid

  type SpiffeId = Bytes

  /** One entry; an empty account name is an absent one. */
  datatype Entry = Entry(spiffeId: SpiffeId, sid: Bytes, account: Bytes)

  datatype Account = Account(sid: Bytes, name: Bytes)

  datatype Snapshot = Snapshot(version: Bytes, generatedAt: Option<int>, entries: seq<Entry>)

  datatype Registry = Registry(version: Bytes, generatedAt: int, entries: map<SpiffeId, Account>)

  datatype Problem = BadSpiffeId | BadSid | BadAccount | DuplicateId

  datatype Parsed =
    | NoVersion
    | NoDate
    | NoEntries
    | BadEntry(index: nat, problem: Problem)
    | Loaded(registry: Registry)

  // ---------------------------------------------------------------- ValidateSIDString

  predicate AllSubAuthorities(parts: seq<Bytes>) {
    forall i :: 0 <= i < |parts| ==> Sid.ParseCanonicalUint(parts[i], Sid.MAX_SUB_AUTHORITY).Some?
  }

  /** ValidateSIDString, which the program writes out again rather than share with the codec. */
  predicate ValidSidString(s: Bytes) {
    var parts := Split(s, Sid.DASH);
    && |parts| >= 4 && parts[0] == [83] && parts[1] == [49]
    && Sid.ParseCanonicalUint(parts[2], Sid.MAX_AUTHORITY).Some?
    && |parts[3..]| <= 15
    && AllSubAuthorities(parts[3..])
  }

  lemma {:induction false} SubAuthoritiesParse(parts: seq<Bytes>)
    ensures AllSubAuthorities(parts) <==> Sid.ParseSubs(parts).Some?
  {
    if parts != [] {
      SubAuthoritiesParse(parts[..|parts| - 1]);
      assert parts == parts[..|parts| - 1] + [parts[|parts| - 1]];
    }
  }

  /** The two sets of acceptance rules agree on every input: the codec takes exactly what the
      mapping takes. */
  lemma ValidatorsAgree(s: Bytes)
    ensures ValidSidString(s) <==> Sid.MarshalSid(s).Some?
  {
    var parts := Split(s, Sid.DASH);
    if |parts| >= 4 {
      SubAuthoritiesParse(parts[3..]);
    }
  }

  // ---------------------------------------------------------------- Parse

  /** What Parse asks of one entry; the SPIFFE grammar is `spiffe`. */
  predicate ValidEntry(e: Entry, spiffe: SpiffeId -> bool) {
    spiffe(e.spiffeId) && ValidSidString(e.sid) && (e.account == [] || ValidAccount(e.account))
  }

  predicate AllValid(entries: seq<Entry>, spiffe: SpiffeId -> bool) {
    forall i :: 0 <= i < |entries| ==> ValidEntry(entries[i], spiffe)
  }

  predicate DistinctIds(entries: seq<Entry>) {
    forall i, j :: 0 <= i < j < |entries| ==> entries[i].spiffeId != entries[j].spiffeId
  }

  function AccountOf(e: Entry): Account {
    Account(e.sid, e.account)
  }

  function Entries(entries: seq<Entry>): map<SpiffeId, Account> {
    if entries == [] then map[]
    else Entries(entries[..|entries| - 1])[entries[|entries| - 1].spiffeId := AccountOf(entries[|entries| - 1])]
  }

  /** The first check that entry `i` fails, the entries before it having passed. */
  predicate Fails(entries: seq<Entry>, i: nat, problem: Problem, spiffe: SpiffeId -> bool)
    requires i < |entries|
  {
    var e := entries[i];
    match problem
    case BadSpiffeId => !spiffe(e.spiffeId)
    case BadSid => spiffe(e.spiffeId) && !ValidSidString(e.sid)
    case BadAccount => spiffe(e.spiffeId) && ValidSidString(e.sid) && e.account != [] && !ValidAccount(e.account)
    case DuplicateId => ValidEntry(e, spiffe) && exists j :: 0 <= j < i && entries[j].spiffeId == e.spiffeId
  }

  lemma {:induction false} KeysAreTheIds(entries: seq<Entry>)
    ensures forall id :: id in Entries(entries) <==> exists j :: 0 <= j < |entries| && entries[j].spiffeId == id
  {
    if entries != [] {
      KeysAreTheIds(entries[..|entries| - 1]);
      assert entries == entries[..|entries| - 1] + [entries[|entries| - 1]];
    }
  }

  lemma OneMoreEntry(entries: seq<Entry>, i: nat, spiffe: SpiffeId -> bool)
    requires i < |entries|
    ensures Entries(entries[..i + 1]) == Entries(entries[..i])[entries[i].spiffeId := AccountOf(entries[i])]
    ensures AllValid(entries[..i + 1], spiffe) <==> AllValid(entries[..i], spiffe) && ValidEntry(entries[i], spiffe)
    ensures DistinctIds(entries[..i]) && entries[i].spiffeId !in Entries(entries[..i]) ==> DistinctIds(entries[..i + 1])
    ensures entries[i].spiffeId in Entries(entries[..i]) ==>
      exists j :: 0 <= j < i && entries[j].spiffeId == entries[i].spiffeId
  {
    KeysAreTheIds(entries[..i]);
    assert entries[..i + 1] == entries[..i] + [entries[i]] && entries[..i + 1][..i] == entries[..i];
  }

  lemma FailureRefuses(entries: seq<Entry>, i: nat, problem: Problem, spiffe: SpiffeId -> bool)
    requires i < |entries| && Fails(entries, i, problem, spiffe)
    ensures !(AllValid(entries, spiffe) && DistinctIds(entries))
  {
  }

  /** What Parse says of the entries of a dated snapshot. */
  predicate Judged(s: Snapshot, spiffe: SpiffeId -> bool, r: Parsed)
    requires s.generatedAt.Some?
  {
    match r
    case Loaded(registry) => && AllValid(s.entries, spiffe) && DistinctIds(s.entries)
                             && registry == Registry(s.version, s.generatedAt.value, Entries(s.entries))
    case BadEntry(i, problem) => && i < |s.entries| && Fails(s.entries, i, problem, spiffe)
                                 && AllValid(s.entries[..i], spiffe) && DistinctIds(s.entries[..i])
    case _ => false
  }

  /** Parse, after the JSON. It loads exactly the snapshots that have a version, a date and some
      entries, all of them valid and no two for one ID; otherwise it names the first bad entry. */
  method Parse(s: Snapshot, spiffe: SpiffeId -> bool) returns (r: Parsed)
    ensures r.NoVersion? <==> s.version == []
    ensures r.NoDate? <==> s.version != [] && s.generatedAt.None?
    ensures r.NoEntries? <==> s.version != [] && s.generatedAt.Some? && s.entries == []
    ensures r.Loaded? <==> s.version != [] && s.generatedAt.Some? && s.entries != []
                           && AllValid(s.entries, spiffe) && DistinctIds(s.entries)
    ensures r.Loaded? || r.BadEntry? ==> Judged(s, spiffe, r)
  {
    if s.version == [] {
      return NoVersion;
    }
    if s.generatedAt.None? {
      return NoDate;
    }
    if |s.entries| == 0 {
      return NoEntries;
    }
    r := ParseEntries(s, spiffe);
    if r.BadEntry? {
      FailureRefuses(s.entries, r.index, r.problem, spiffe);
    }
  }

  /** The entry loop of Parse. */
  method ParseEntries(s: Snapshot, spiffe: SpiffeId -> bool) returns (r: Parsed)
    requires s.generatedAt.Some?
    ensures Judged(s, spiffe, r)
  {
    var entries: map<SpiffeId, Account> := map[];
    for i := 0 to |s.entries|
      invariant entries == Entries(s.entries[..i])
      invariant AllValid(s.entries[..i], spiffe) && DistinctIds(s.entries[..i])
    {
      var entry := s.entries[i];
      OneMoreEntry(s.entries, i, spiffe);
      if !spiffe(entry.spiffeId) {
        return BadEntry(i, BadSpiffeId);
      }
      if !ValidSidString(entry.sid) {
        return BadEntry(i, BadSid);
      }
      if entry.account != [] {
        if !ValidAccount(entry.account) {
          return BadEntry(i, BadAccount);
        }
      }
      if entry.spiffeId in entries {
        return BadEntry(i, DuplicateId);
      }
      entries := entries[entry.spiffeId := AccountOf(entry)];
    }
    assert s.entries[..|s.entries|] == s.entries;
    r := Loaded(Registry(s.version, s.generatedAt.value, entries));
  }

  /** Without duplicates the map is the entries, each under its own ID, and nothing else. */
  lemma {:induction false} EntriesAreTheMap(entries: seq<Entry>)
    requires DistinctIds(entries)
    ensures forall e :: e in entries ==>
      && e.spiffeId in Entries(entries)
      && Entries(entries)[e.spiffeId].sid == e.sid && Entries(entries)[e.spiffeId].name == e.account
    ensures forall id :: id in Entries(entries) ==> exists e :: e in entries && e.spiffeId == id
  {
    if entries != [] {
      var init, last := entries[..|entries| - 1], entries[|entries| - 1];
      EntriesAreTheMap(init);
      assert entries == init + [last];
      assert last in entries;
    }
  }

  lemma PermutedIdsAreDistinct(a: seq<Entry>, b: seq<Entry>)
    requires multiset(a) == multiset(b) && DistinctIds(a)
    ensures DistinctIds(b)
  {
    forall i, j | 0 <= i < j < |b|
      ensures b[i].spiffeId != b[j].spiffeId
    {
      if b[i].spiffeId == b[j].spiffeId {
        assert b[i] in multiset(a) && b[j] in multiset(a);
        assert b[i] in a && b[j] in a;
        assert b[i] == b[j];
        TwiceInMultiset(b, i, j);
        OnceInMultiset(a, b[i]);
      }
    }
  }

  lemma TwiceInMultiset(b: seq<Entry>, i: nat, j: nat)
    requires i < j < |b| && b[i] == b[j]
    ensures multiset(b)[b[i]] >= 2
  {
    assert b == b[..i] + [b[i]] + b[i + 1..j] + [b[j]] + b[j + 1..];
  }

  lemma {:induction false} OnceInMultiset(a: seq<Entry>, e: Entry)
    requires DistinctIds(a)
    ensures multiset(a)[e] <= 1
  {
    if a != [] {
      OnceInMultiset(a[1..], e);
      assert a == [a[0]] + a[1..];
      if a[0] == e {
        assert forall k :: 0 <= k < |a[1..]| ==> a[1..][k].spiffeId != e.spiffeId;
        assert e !in a[1..];
      }
    }
  }

  /** The registry does not depend on the order of the entries, nor does acceptance. */
  lemma {:induction false} OrderDoesNotMatter(a: seq<Entry>, b: seq<Entry>, spiffe: SpiffeId -> bool)
    requires multiset(a) == multiset(b)
    ensures AllValid(a, spiffe) && DistinctIds(a) <==> AllValid(b, spiffe) && DistinctIds(b)
    ensures DistinctIds(a) ==> Entries(a) == Entries(b)
  {
    assert forall e :: e in a <==> e in b by {
      assert forall e :: e in a <==> e in multiset(a);
      assert forall e :: e in b <==> e in multiset(b);
    }
    ValidByMember(a, spiffe);
    ValidByMember(b, spiffe);
    if DistinctIds(a) {
      PermutedIdsAreDistinct(a, b);
      EntriesAreTheMap(a);
      EntriesAreTheMap(b);
    }
    if DistinctIds(b) {
      PermutedIdsAreDistinct(b, a);
    }
  }

  lemma ValidByMember(a: seq<Entry>, spiffe: SpiffeId -> bool)
    ensures AllValid(a, spiffe) <==> forall e :: e in a ==> ValidEntry(e, spiffe)
  {
    if AllValid(a, spiffe) {
      forall e | e in a
        ensures ValidEntry(e, spiffe)
      {
        var i :| 0 <= i < |a| && a[i] == e;
      }
    }
  }

  // ---------------------------------------------------------------- the registry

  /** What every loaded registry holds, and every reader relies on. */
  predicate Trusted(r: Registry, spiffe: SpiffeId -> bool) {
    forall id :: id in r.entries ==> ValidEntry(Entry(id, r.entries[id].sid, r.entries[id].name), spiffe)
  }

  lemma {:induction false} LoadedIsTrusted(s: Snapshot, spiffe: SpiffeId -> bool)
    requires AllValid(s.entries, spiffe) && DistinctIds(s.entries) && s.generatedAt.Some?
    ensures Trusted(Registry(s.version, s.generatedAt.value, Entries(s.entries)), spiffe)
  {
    EntriesAreTheMap(s.entries);
    ValidByMember(s.entries, spiffe);
  }

  function Lookup(r: Registry, id: SpiffeId): Option<Account> {
    if id in r.entries then Some(r.entries[id]) else None
  }

  /** An ID is found exactly when some entry of the snapshot has it, and then as that entry says. */
  lemma LookupIff(r: Registry, entries: seq<Entry>, id: SpiffeId)
    requires DistinctIds(entries) && r.entries == Entries(entries)
    ensures Lookup(r, id).Some? <==> exists e :: e in entries && e.spiffeId == id
    ensures forall e :: e in entries && e.spiffeId == id ==> Lookup(r, id) == Some(Account(e.sid, e.account))
  {
    EntriesAreTheMap(entries);
  }

  datatype Freshness = Fresh | Stale | FutureDated

  /** CheckFreshness; a bound of zero or less switches the staleness arm off. */
  function CheckFreshness(r: Registry, now: int, maxAge: int, skew: int): Freshness {
    var age := now - r.generatedAt;
    if age < -skew then FutureDated
    else if maxAge > 0 && age > maxAge then Stale
    else Fresh
  }

  /** Dated ahead by more than the skew; otherwise stale if there is a bound and it is older than that. */
  lemma FreshnessIff(r: Registry, now: int, maxAge: int, skew: int)
    ensures CheckFreshness(r, now, maxAge, skew) == FutureDated <==> r.generatedAt > now + skew
    ensures CheckFreshness(r, now, maxAge, skew) == Stale <==>
            r.generatedAt <= now + skew && maxAge > 0 && r.generatedAt + maxAge < now
  {
  }
}
