# spiffe-ad-broker, modelled and proved in Dafny

spiffe-ad-broker authenticates a workload by its SPIFFE identity, looks that identity up in a mapping
snapshot, and has a certificate issued for the Active Directory account the snapshot names. This project
models the parts of it on which its promises rest, in the program's own form (objects with fields and
methods, loops over buffers, expressions), and proves those promises over every input and every run, or
says exactly when they hold.

**Rate limiting** (`TokenBucket`, `KeyedLimiter`, `Eviction`, `TableSize`, `Apart`, `Overlap`,
`OverlapLinear`, `OverlapSize`). The bucket admits at most burst + rate * time between any two calls, and
refuses only when one more admission would break that bound over some window ending now; no policy that
keeps the bound admits more. The swept per-caller table answers as private limiters that are never evicted,
with an if-and-only-if for calls that overlap lock by lock under any clock; harmless overlaps may be taken
one call at a time; and the table holds no key that was not used recently.

**TLS reloading** (`TlsReload`). The stat / compare / stat / read machine races with writers. What an
unchanged handshake serves was on disk, all three files together, at one instant; a handshake over quiet
files that load serves them; and when what a reload reads was, version for version, ever on disk together is an
if-and-only-if.

**DER** (`ByteStrings`, `Utf`, `Der`, `DerValues`, `Sid`, `NtdsExt`, `SetOrder`, `Names`, `Cmc`, `Pkcs7`,
`Pkcs7Reader`, `Cdp`, `Spelled`, `SpelledRequests`). One strict TLV encoder and decoder after sections 8.1,
10.1 and 11.6 of ITU-T X.690, and on it the SID codec (section 2.4.2.2 of MS-DTYP), the AD SID extension,
the CMC request (section 3.2.1 of RFC 5272), the CMS SignedData around it (section 5 of RFC 5652), the
PKCS#7 reader and the CRL distribution points (section 4.2.1.13 of RFC 5280). Each builder has an
independent reader that gets back what went in; where the program has both sides, each is proved to be
exactly the other's inverse; and what is written is also stated octet by octet.

**Issuance** (`Mapping`, `RecordFile`, `Wstep`, `Adcs`, `Issuance`, `IssuanceRuns`, `IssuanceOwners`,
`IssuanceCauses`, `IssuanceRates`, `IssuanceProgress`, `EndToEnd`, `Broker`). A request is a state machine
that takes one turn at a time, with at most one visible effect a turn; a run is any turns of any requests in
any order, so what is proved of runs holds of overlapping requests, a limiter's call and an append each
being one turn. Whatever is done in a run is done for the ask that opened the request: its caller, its CSR.
Deliveries and acknowledged rows correspond one to one, tokens and backend calls do, every delivered
certificate names the SID the snapshot gives the caller that asked, and the rows end up as lines of the
file. `Broker.Server.Issue`, written as the program writes it, is proved to be the machine's turns of one
request.

Time is an integer number of nanoseconds; tokens and rates are exact reals. Strings that are encoded are
byte sequences. SHA-256, signing, certificate parsing, URL parsing, the SPIFFE ID grammar, the JSON
encoding of a row, the CA's answer, clock readings and the outcome of every write are parameters.

## Where the code says less than its comments

- internal/ratelimit/ratelimit.go:133-140 calls eviction exact. It is, for calls that do not overlap, when the
  clock never steps back to before the last sweep (`Eviction.EvictionIsExact`); a run in which it does is a
  counterexample (`Eviction.EvictionNeedsTheClock`), though Go's monotonic readings never produce it. Calls that
  overlap can spoil it in two more ways, since the table's lock is released before the bucket is used and the
  bucket's own lock between a sweep's two looks at it. A call can use its bucket after a sweep has dropped it
  (`Overlap.SweepCanUncharge`), or between the two looks, which dates the bucket back to the sweep's older
  reading (`Overlap.SweepCanBackdate`; nothing is dropped and no clock steps back).
  `Overlap.OverlappingAnswersAreExactIff` is the exact condition for any calls and any clock; it holds if no
  reading is before the last sweep's and due sweeps find the buckets that calls still have to use touched within
  idle (`Overlap.OverlappingAnswersAreExact`).
- internal/transport/httpapi/server.go:135-137 says a client that honours Retry-After is admitted next time.
  The delay is cut to whole nanoseconds, so it is not when the exact wait, a second or more, is not whole
  nanoseconds but whole seconds once cut. `TokenBucket.HeaderHonouredIff` is the exact condition and
  `TokenBucket.HeaderHonouredFails` an instance.
- internal/tlsconf/tlsconf.go:155-157 rules out combinations nobody chose. One handshake can serve one, when a
  writer comes between two reads (`TlsReload.MixtureCanBeServed`): `TlsReload.ReloadServesOneInstantIff` says
  exactly when the three versions were ever on disk together. It is not kept (`TlsReload.MixtureIsNotKept`).
- internal/tlsconf/tlsconf.go:143-146 records the stamps of a load that failed. If a passing fault made it fail,
  the files are not read again until one of them changes (`TlsReload.FailedLoadIsNotRetried`, with the run
  `TlsReload.PassingFaultStops`, and `TlsReload.ServesTheDiskIff` for the exact condition).
- internal/record/record.go:37-39 speaks of a malformed final line. After a short write the next row joins the
  torn one and is on no line of its own (`RecordFile.TornRowHidesTheNext`); the rows are the lines if and only
  if that never happened (`RecordFile.LinesAreTheRowsIff`).

## Model

| member | source | states |
|---|---|---|
| TokenBucket.Limiter.AdvanceTo | internal/ratelimit/ratelimit.go:103-116 | Refilling caps at the burst, and a clock that steps back holds the level and re-bases. |
| TokenBucket.Limiter.Allow | internal/ratelimit/ratelimit.go:80-100 | The bucket's whole new state, the answer and the delay are those of `Take`; the level stays between 0 and the burst. |
| TokenBucket.Limiter.FullAt | internal/ratelimit/ratelimit.go:121-126 | Says whether the refilled level is the burst, and leaves the bucket refilled. |
| TokenBucket.New | internal/ratelimit/ratelimit.go:50-72 | No limiter exactly for a non-positive rate or burst; otherwise a full one. |
| TokenBucket.AdmissionsAreBounded | internal/ratelimit/ratelimit.go:80-116 | Between any two calls of any run, whatever the clock does, admissions are at most the burst plus what the clock's forward movement earns. |
| TokenBucket.LevelIsLeastSlack | internal/ratelimit/ratelimit.go:103-116 | With a clock that never steps back, the level a call finds is the least slack over all windows ending with it, and some window attains it. |
| TokenBucket.RefusedIffBoundWouldBreak | internal/ratelimit/ratelimit.go:80-100 | A call is refused if and only if one more admission would exceed burst + rate * time over some window ending with it. |
| TokenBucket.NoPolicyAdmitsMore | internal/ratelimit/ratelimit.go:50-52 | No sequence of answers that keeps the bound over every window admits more, by any point, than the bucket. |
| TokenBucket.AdvanceTwice | internal/ratelimit/ratelimit.go:118-126 | Refilling in two steps is refilling in one, so a sweep's look at a bucket leaves no mark on later answers. |
| TokenBucket.RetryAdmittedIff | internal/ratelimit/ratelimit.go:74-99 | The first call after a refusal is admitted exactly when it comes no sooner than the exact wait. |
| TokenBucket.RetryAfterIsTight | internal/ratelimit/ratelimit.go:92-99 | The reported delay is short by less than what one nanosecond earns, so a call one nanosecond later is admitted; unless the one-second floor applied, every earlier retry is refused. |
| TokenBucket.HeaderHonouredIff | internal/transport/httpapi/server.go:135-140 | The header never shortens the delay, and a client that waits its seconds is admitted unless the exact wait is a second or more, not whole nanoseconds, and whole seconds once cut. |
| TokenBucket.HeaderHonouredFails | internal/transport/httpapi/server.go:135-140 | A new limiter's third call, made when its own Retry-After is over, is refused. |
| KeyedLimiter.Keyed.SweepLocked | internal/ratelimit/ratelimit.go:210-220 | A sweep drops exactly the stale full buckets, refills the stale others, leaves the rest, and moves the sweep time. |
| KeyedLimiter.Keyed.Allow | internal/ratelimit/ratelimit.go:177-194 | The whole table and the answer after a call, with the three clock readings a call can make. |
| KeyedLimiter.NewKeyed | internal/ratelimit/ratelimit.go:154-173 | No table exactly for a non-positive rate or burst; otherwise an empty one, whose idle period is ten minutes if none is given. |
| Eviction.EvictionIsExact | internal/ratelimit/ratelimit.go:133-140 | With a clock that does not step back to before the last sweep, every answer of the swept table, delay included, is that of a private limiter fed only that key's calls and never evicted. |
| Eviction.OrderedIsTimely | internal/ratelimit/ratelimit.go:133-140 | A clock that never steps back at all is such a clock. |
| Eviction.EvictionNeedsTheClock | internal/ratelimit/ratelimit.go:133-140 | A three-call run with a step back to before a sweep in which the two answers differ. |
| Apart.AheadTells | internal/ratelimit/ratelimit.go:80-126 | Of two buckets of which one has the other's level and some whole nanoseconds' earnings more, as sweeps leave them: either they refill to one level and are full, or untouched since, or the same; or some later calls are admitted by the one and refused by the other. |
| Overlap.OverlappingAnswersAreExactIff | internal/ratelimit/ratelimit.go:177-220 | Lock by lock, with a sweep's two looks at a bucket as two steps, and for any clock: overlapping calls get the private limiters' answers, and nothing is left behind that a later call could tell, if and only if no call uses a bucket that was dropped, no sweep touches a bucket (unless it is full by now) that was used after the sweep's reading or at a reading after the clock, and no reading goes back to where a key's bucket and the one its last use left are at different levels, or at the same level short of full with one of them touched later. |
| Overlap.OverlappingAnswersAreExact | internal/ratelimit/ratelimit.go:177-220 | So they are exact from a new table on if no reading is before the last sweep's and every due sweep finds the buckets that calls still have to use touched within idle. |
| Overlap.SweepCanBackdate | internal/ratelimit/ratelimit.go:213-216 | A run from a new table, nothing dropped and no step back, in which a bucket is used between a sweep's two looks and a later call is admitted where the private limiter refuses. |
| Overlap.SweepCanUncharge | internal/ratelimit/ratelimit.go:186-193 | A run from a new table in which a sweep drops a bucket that a call holds, and the key's next call is admitted where the private limiter refuses. |
| Overlap.DroppedInFlightIsNotCharged | internal/ratelimit/ratelimit.go:186-193 | From any state that was exact so far, and at any reading, the use of a dropped bucket shows: in its own answer, or in that of at most burst more calls of the key at the same reading, the last of which is admitted where the private limiter refuses. |
| Overlap.UninterruptedIsAtomic | internal/ratelimit/ratelimit.go:177-220 | A call whose steps are not interrupted, in whatever order its sweep visits the keys, is the atomic call of the table. |
| OverlapLinear.AnswersArePrivate | internal/ratelimit/ratelimit.go:177-194 | In a harmless run, whatever the clock does, the answers are the private limiters' to the calls in the order in which they use their buckets. |
| OverlapLinear.OverlappingIsLinear | internal/ratelimit/ratelimit.go:177-194 | And, if no use is at a reading before the last sweep's, the table's answers to those calls made one after the other, each as a whole. |
| OverlapLinear.InOrderIsTimely | internal/ratelimit/ratelimit.go:177-194 | Which is so for every run whose clock never steps back. |
| TableSize.HeldKeysAreRecent | internal/ratelimit/ratelimit.go:177-220 | Every key held after a call was used less than idle + max(idle, burst / rate) before it. |
| TableSize.TableSizeIsBounded | internal/ratelimit/ratelimit.go:128-141 | The table never holds more buckets than there were calls in that window. |
| OverlapSize.HeldKeysAreRecentLockByLock | internal/ratelimit/ratelimit.go:177-220 | With overlapping calls too, whatever they do in the middle of a sweep: outside a sweep every held key was looked up or used less than idle + max(idle, burst / rate) before the table was last locked. |
| OverlapSize.TableSizeIsBoundedLockByLock | internal/ratelimit/ratelimit.go:128-141 | The table then holds no more buckets than there were lookups and uses in that window. |
| TlsReload.EqualStampsMeanNoChange | internal/tlsconf/tlsconf.go:44-51 | If stamps never come back to a path, equal stamps at two stats of all three files mean that none changed in between. |
| TlsReload.UnchangedServesOneInstant | internal/tlsconf/tlsconf.go:125-176 | When the stamps are unchanged and the last load succeeded, what is served was on disk together from that load to this handshake. |
| TlsReload.MixtureIsNotKept | internal/tlsconf/tlsconf.go:135-148 | Material that was not on disk together is not found unchanged by the next handshake that can stat the files. |
| TlsReload.ReloadServesOneInstantIff | internal/tlsconf/tlsconf.go:155-176 | With writers between the three reads, the versions read were on disk together at some instant if and only if, for each pair of reads, at some instant between them the version read first was still there and the one read last was there already. |
| TlsReload.ReloadServesWhatItRead | internal/tlsconf/tlsconf.go:148-176 | A reload serves the contents of the three versions it read, hence what was on disk wherever they were there together. |
| TlsReload.QuietReadsServeOneInstant | internal/tlsconf/tlsconf.go:158-176 | With no write between its first and its last read, a reload serves one instant. |
| TlsReload.MixtureCanBeServed | internal/tlsconf/tlsconf.go:155-176 | From a reachable state, a faultless handshake serves three files that were never on disk together. |
| TlsReload.QuietHandshakeServesTheDisk | internal/tlsconf/tlsconf.go:117-153 | From any reachable state whose last failed load, if any, met no passing fault, a handshake over unchanging files that load serves exactly what is on disk. |
| TlsReload.ServesTheDiskIff | internal/tlsconf/tlsconf.go:117-153 | From any reachable state, exactly when such a handshake serves what is on disk: unless the last load failed and recorded the stamps that are there now, with other material in force. |
| TlsReload.PassingFaultStops | internal/tlsconf/tlsconf.go:140-147 | A reachable state, after a load that failed by a passing fault over good files, from which a faultless handshake over the same files goes on serving the old material. |
| TlsReload.FaultlessFailureIsTheFiles | internal/tlsconf/tlsconf.go:140-147 | A load that failed without a passing fault, over files unchanged since, fails because of the files. |
| TlsReload.FailedLoadIsNotRetried | internal/tlsconf/tlsconf.go:140-147 | A failed load keeps the last good material, and over unchanged files no later handshake reads them again. |
| TlsReload.Source.MaterialForHandshake | internal/tlsconf/tlsconf.go:125-153 | One handshake with writers between every two looks: the new material and stamps, and the looks it took in order. |
| TlsReload.StatAll | internal/tlsconf/tlsconf.go:178-188 | Stats the three paths in order, each at its own instant, and stops at the first error. |
| TlsReload.LoadAll | internal/tlsconf/tlsconf.go:158-176 | Stats before reads, and all three files or nothing. |
| TlsReload.NewSource | internal/tlsconf/tlsconf.go:58-78 | Refuses without looking when a path is missing, and otherwise exactly when the first load fails. |
| ByteStrings.Concat | internal/issuer/adcs/cmc.go:497-503 | Appending part by part gives the concatenation. |
| Der.CountableIff | internal/issuer/adcs/cmc.go:391-401 | The lengths that X.690's long form can count, which some DER results ask for, are all those below 2 to the power of 1008, so every length a program can hold. |
| Der.DecodeEncoded | internal/issuer/adcs/cmc.go:391-401 | A printed element reads back, followed by whatever comes after it. |
| Der.EncodeDecoded | internal/issuer/adcs/wstep.go:286-324 | What the strict decoder reads is exactly the one printing of what it returns: minimal lengths, low-tag form, no indefinite length. |
| Der.DecodeOnlyIff | internal/encoding/ntdsext.go:123-137 | Bytes are one element with nothing after it if and only if they are its printing. |
| Spelled.LengthIsSpelled | internal/issuer/adcs/cmc.go:391-401 | Length octets, all lengths below 2 to the power of 24 written out. |
| Spelled.ElementsAreSpelled | internal/issuer/adcs/cmc.go:391-495 | The identifier octet of each kind of element that is built. |
| DerValues.ReadOidIff | internal/issuer/adcs/cmc.go:442-452 | The OID reader accepts exactly the writer's image: minimal base-128 arcs. |
| Spelled.ArcsAreSpelled | internal/issuer/adcs/cmc.go:442-452 | The octets of an object identifier's numbers. |
| DerValues.ReadIntegerIff | internal/issuer/adcs/cmc.go:454-483 | The INTEGER reader accepts exactly the minimal two's-complement bodies the writer makes, for every integer. |
| Spelled.IntegerIsTwosComplement | internal/issuer/adcs/cmc.go:454-483 | An integer's octets are its two's complement. |
| Sid.ParseCanonicalUintIff | internal/encoding/sid.go:145-160 | A part is accepted if and only if it is the decimal writing of a number within the bound. |
| Sid.ParseSidIff | internal/encoding/sid.go:105-143 | A text parses to a SID if and only if it is that valid SID's canonical text. |
| Sid.ReadBinaryIff | internal/encoding/sid.go:62-98 | Bytes read as a SID if and only if they are its binary form: 48-bit big-endian authority, 32-bit little-endian sub-authorities, nothing more. |
| Sid.CodecIsABijection | internal/encoding/sid.go:41-98 | Marshalling a text gives some bytes if and only if unmarshalling them gives the text. |
| Sid.AcceptedTexts | internal/encoding/sid.go:105-143 | The accepted texts are exactly the canonical texts of valid SIDs. |
| Sid.ParseSidLoop | internal/encoding/sid.go:105-143 | The loop over the dash-separated parts computes the parse. |
| Sid.Marshal | internal/encoding/sid.go:41-60 | The byte loops, shifting the authority, compute the binary form or refuse. |
| Sid.Unmarshal | internal/encoding/sid.go:62-98 | The loops over the bytes compute the text or refuse. |
| Spelled.TextIsSpelled | internal/encoding/sid.go:62-98 | "S-1", and then the authority and the sub-authorities, each after a dash. |
| Spelled.DecimalIsSpelled | internal/encoding/sid.go:62-98 | The digits of a number, the last one the rest by ten. |
| Spelled.BinaryIsSpelled | internal/encoding/sid.go:41-60 | Every octet of the binary form, by the digits of the authority, high ones first, and of the sub-authorities, low ones first. |
| SetOrder.LessIff | internal/issuer/adcs/cmc.go:428-432 | One part is before another if it is a beginning of it, or if the first octet in which they differ is the smaller one. |
| NtdsExt.ParseIsBuildBackwards | internal/encoding/ntdsext.go:34-186 | The parser returns a SID for some bytes if and only if the builder makes exactly those bytes of that SID, across short and long lengths. |
| NtdsExt.ExtensionsNameOneSid | internal/encoding/ntdsext.go:34-98 | Two SIDs never share an extension. |
| NtdsExt.CertificateNamesSid | internal/encoding/ntdsext.go:113-121 | A certificate names a SID if and only if its first AD SID extension is byte for byte the builder's for that SID; "no SID" means that there is no such extension. |
| Spelled.ExtensionIsSpelled | internal/encoding/ntdsext.go:34-98 | The AD SID extension octet by octet, with its identifier and not critical. |
| Spelled.ShortExtensionIsSpelled | internal/encoding/ntdsext.go:16-33 | The same with every length in one octet, for SID texts of up to 109 octets. |
| SetOrder.SortIsAscending | internal/issuer/adcs/cmc.go:428-432 | Of any two sorted parts the earlier one is a beginning of the later, or the smaller in the first octet in which they differ. |
| SetOrder.SortIsTheOnlyOne | internal/issuer/adcs/cmc.go:407-432 | Sorting is the only ascending arrangement of the parts, the same for every order they come in, and idempotent. |
| Names.AccountsAreRequesters | internal/mapping/account.go:30-66 | Every account name the mapping admits is a requester name, the other way round up to 128 bytes, and both are two names of letters, digits, `-`, `_`, `.` and `$` around one backslash. |
| Names.RegInfoIsUnambiguous | internal/issuer/adcs/cmc.go:217-226 | A reader that splits at `&` and `=` and undoes `%5C` recovers exactly one template and one requester. |
| Names.RegInfoIsSpelled | internal/issuer/adcs/cmc.go:217-226 | The request string for a domain and an account, octet by octet. |
| Cmc.DerBuilder.Set | internal/issuer/adcs/cmc.go:407-417 | A SET holds its parts sorted; after a sticky error nothing is written. |
| Cmc.DerBuilder.BigInteger | internal/issuer/adcs/cmc.go:468-483 | An absent integer sets the sticky error; any other is written minimally. |
| Cmc.DerBuilder.BmpString | internal/issuer/adcs/cmc.go:488-495 | The UTF-16 of any string's runes, malformed bytes replaced, two octets a unit and the high one first. |
| Utf.UnitsReadBack | internal/issuer/adcs/cmc.go:488-495 | UTF-16 loses nothing: surrogates come in pairs and the runes read back. |
| Utf.FirstRuneIff | internal/issuer/adcs/cmc.go:488-495 | The UTF-8 of any rune is read as that rune, and a byte that begins the UTF-8 of none is replaced by U+FFFD. |
| Utf.UnitsAreSpelled | internal/issuer/adcs/cmc.go:488-495 | A rune of more than 16 bits becomes the two surrogates whose halves are worth it. |
| Cmc.BuildPkiData | internal/issuer/adcs/cmc.go:172-215 | The builder's calls make the PKIData of the three inputs, whatever they are. |
| Cmc.PkiDataReadsBack | internal/issuer/adcs/cmc.go:172-215 | A reader of the format recovers the CSR verbatim, the template and the requester. |
| Cmc.PkiDataIsInjective | internal/issuer/adcs/cmc.go:172-215 | Different valid inputs never share an encoding. |
| SpelledRequests.PkiDataIsSpelledOut | internal/issuer/adcs/cmc.go:172-215 | The CMC body octet by octet, for any three inputs. |
| SpelledRequests.AsciiIsSpelled | internal/issuer/adcs/cmc.go:488-495 | An ASCII text as a BMPString: every octet after a zero one. |
| Pkcs7.SignPkiData | internal/issuer/adcs/cmc.go:229-300 | When it succeeds, and the whole message it then makes, with the signature over the attributes as a SET. |
| SpelledRequests.MessageIsSpelledOut | internal/issuer/adcs/cmc.go:229-300 | The whole signed message octet by octet, around a 32-octet digest. |
| SpelledRequests.AttributesInOrder | internal/issuer/adcs/cmc.go:243-252 | In the signed SET and in what is carried, the content type comes before the digest. |
| Pkcs7Reader.SignatureIsVerifiable | internal/issuer/adcs/cmc.go:229-300 | A verifier that retags the carried attributes as section 5.4 of RFC 5652 says gets exactly the bytes that were signed, with the content and its digest; all six parts of SignerInfo read back, SHA-256 and the algorithm of the agent's key by their identifiers. |
| Pkcs7Reader.SignatureAlgorithmReads | internal/issuer/adcs/cmc.go:302-322 | RSA is named by rsaEncryption with NULL parameters, ECDSA by ecdsa-with-SHA256 without any. |
| Pkcs7Reader.SignerIdReads | internal/issuer/adcs/cmc.go:265-272 | Decoding the signer's ID gives the agent's issuer, byte for byte, and then its serial number, if the issuer is one whole element. |
| Pkcs7Reader.ReadCertificates | internal/issuer/adcs/wstep.go:286-324 | The reading loop computes the certificates of a PKCS#7 message or refuses. |
| Pkcs7Reader.SplitIff | internal/issuer/adcs/wstep.go:308-322 | A certificate set is read as some certificates if and only if each is one whole element that X.509 accepts, and in that order they are the set. |
| Pkcs7Reader.NoSetNoCertificates | internal/issuer/adcs/wstep.go:299-307 | The set is optional: anything else in its place, or nothing, means no certificates and is no error. |
| Pkcs7Reader.TrailingBytesAreIgnored | internal/issuer/adcs/wstep.go:289-298 | Bytes after the message change nothing. |
| SpelledRequests.OnlySignedDataIsRead | internal/issuer/adcs/wstep.go:286-298 | What the reader takes begins with the identifier of SignedData. |
| Pkcs7Reader.ChainFrom | internal/issuer/adcs/wstep.go:259-284 | The nested loops compute the chain of the tokens, or refuse at the first bad token. |
| Pkcs7Reader.ChainInOrder | internal/issuer/adcs/wstep.go:259-284 | The chain of some tokens and then others is the one chain after the other, or none if either has a bad token; one PKCS#7 token adds its certificates without the leaf, any other token nothing. |
| Pkcs7Reader.WithoutInOrder | internal/issuer/adcs/wstep.go:276-281 | Leaving out the leaf takes no other certificate away and keeps the order. |
| Pkcs7Reader.LeafIsNotInItsChain | internal/issuer/adcs/wstep.go:259-284 | The leaf is never in its own chain. |
| Wstep.RstrcIff | internal/issuer/adcs/wstep.go:214-284 | A credential comes of a response exactly when it is no fault, has the right action and one answer, whose issued token is a certificate that parses, and its PKCS#7 tokens hold only such; it is that certificate and all others in order, without the leaf, each in every field what its own bytes parse as. |
| Wstep.ParseRstrc | internal/issuer/adcs/wstep.go:214-257 | The checks in order, and the credential, or nothing. |
| Pkcs7Reader.SignedCertificatesReadBack | internal/issuer/adcs/wstep.go:286-324 | Reading a signed message returns the agent's certificate and then its chain, in order, byte for byte, for any chain and content. |
| Cdp.Build | internal/encoding/cdp.go:61-100 | A list is refused exactly for being empty, or at its first URI that is invalid or that came before. |
| Cdp.ValidUriIff | internal/encoding/cdp.go:110-132 | A URI is valid exactly if it has 1 to 1024 octets, all printable ASCII and none a space, and is absolute. |
| Cdp.BuiltReadsBack | internal/encoding/cdp.go:61-100 | Decoding gives the same URIs in the same order with nothing after them. |
| Spelled.CdpIsSpelled | internal/encoding/cdp.go:61-100 | The distribution points octet by octet. |
| Mapping.ValidatorsAgree | internal/mapping/sid.go:16-59 | The mapping's SID check and the codec accept the same texts. |
| Mapping.Parse | internal/mapping/mapping.go:124-169 | Loads exactly the snapshots with a version, a date and entries that are all valid with pairwise distinct IDs; otherwise it names the first bad entry and its first failed check. |
| Mapping.EntriesAreTheMap | internal/mapping/mapping.go:137-162 | The registry is the entries, each under its own ID, and nothing else. |
| Mapping.LookupIff | internal/mapping/mapping.go:174-180 | An ID is found exactly when some entry has it, and then with that entry's SID and account name. |
| Mapping.OrderDoesNotMatter | internal/mapping/mapping.go:137-169 | Neither acceptance nor the registry depends on the order of the entries. |
| Mapping.LoadedIsTrusted | internal/mapping/mapping.go:137-169 | Every entry of a loaded registry passed every check. |
| Mapping.FreshnessIff | internal/mapping/mapping.go:195-215 | Future-dated exactly if dated ahead by more than the skew; otherwise stale exactly if there is an age bound and it is exceeded. |
| RecordFile.File.Record | internal/record/record.go:149-163 | A row without an encoding is refused and the file stays as it is; any other takes one write of the whole line, and nil comes exactly when all of it was written and the sync succeeded. |
| RecordFile.LinesAreTheRowsIff | internal/record/record.go:30-39 | The file's lines are the rows written to their newlines, in order, if and only if no row was appended to a torn one. |
| RecordFile.CrashLeavesEveryAcknowledgedRow | internal/record/record.go:136-163 | With no earlier short write, a crash at any byte of the last write, or before its sync, leaves every acknowledged row on its own line, in order, and after them at most one partial tail or the whole last line. |
| RecordFile.AcknowledgedRowsSurvive | internal/record/record.go:136-163 | Whatever a power loss leaves of the file beyond what was there at the last successful sync, every row that Record returned nil for is on its own line and in its place, if no row joined a torn one. |
| RecordFile.TornRowHidesTheNext | internal/record/record.go:37-39 | A row acknowledged after a short write is on no line of its own. |
| Adcs.Verify | internal/issuer/adcs/adcs.go:219-254 | The search and the swap in the chain's own array; accepts exactly as `VerifiedIff` says, and a refusal leaves the chain as it came. |
| Adcs.VerifiedIff | internal/issuer/adcs/adcs.go:219-254 | A credential is accepted if and only if its certificate names the SID asked for and any certificate of its chain, wherever it stands, signed the leaf. |
| Adcs.VerifiedCredentials | internal/issuer/adcs/adcs.go:210-254 | What passes names exactly the SID asked for, its chain is a permutation of the received one, and a certificate that signed the leaf comes first. |
| Adcs.BuildCmc | internal/issuer/adcs/cmc.go:149-168 | When a message is built, and that it is the signed request for those inputs. |
| Adcs.MessageSaysWhatWasAsked | internal/issuer/adcs/cmc.go:149-300 | Reading the message as the CA does gives back the CSR, the configured template and the account, under a signature over the recomputed bytes that is described as the agent's: version, digest algorithm, signer and the algorithm of its key. |
| Adcs.AnswerIff | internal/issuer/adcs/adcs.go:139-174 | Issue hands on a credential exactly when the CA was asked, its response holds one, and that names the request's SID with its issuer anywhere in the chain. |
| Adcs.ValidRequestIff | internal/issuer/issuer.go:83-108 | A request is valid exactly with possession, a SPIFFE ID, a SID that the codec takes, and no account name or a requester name of at most 128 bytes. |
| Adcs.Issue | internal/issuer/adcs/adcs.go:139-174 | The answer for a request, given the CA's response to the one message sent. |
| IssuanceRuns.RunKeepsInv | internal/broker/broker.go:183-306 | Every turn of every request keeps the invariant that orders, justifies and settles all effects. |
| IssuanceRuns.EffectsAreOrdered | internal/broker/broker.go:14-34 | A request's effects come in the documented order and each at most once, however requests interleave. |
| IssuanceRuns.DeliveriesAreOnRecord | internal/broker/broker.go:255-306 | Before every delivery, at any point of any run, there is exactly one append for the request; all of it was written, it was synced, and it describes the delivered certificate and the caller's own account. |
| IssuanceRuns.AcknowledgedIsDelivered | internal/broker/broker.go:255-264 | Every acknowledged row's credential has been delivered, or is by the request's next turn. |
| IssuanceRuns.FileIsItsAppends | internal/record/record.go:136-163 | The file is at every point what the run's appends, after the earlier ones, have made of it. |
| IssuanceRuns.DeliveredRowsAreLines | internal/record/record.go:13-39 | Every delivered credential's row is a line of the file, if no row was written after a torn one. |
| IssuanceRuns.DeliveredRowsSurvive | internal/record/record.go:136-163 | And after a power loss too, whatever it leaves beyond the last successful sync. |
| IssuanceRuns.CallsAreEarned | internal/broker/broker.go:194-240 | Before every backend call, in this order: the caller's own limit let the request in, its CSR was parsed, and a token of the total limit was taken for that very request. |
| IssuanceRuns.RetryAfterMeansRateLimited | internal/broker/errors.go:61-71 | A positive delay, at least a second, appears exactly on rate-limited refusals, and it is the delay that a limiter's refusal of this request reported. |
| IssuanceRuns.RefusalsStopThere | internal/broker/broker.go:26-32 | A request refused for an unknown caller or a bad request takes no token of the total limit, a rate-limited one never reaches the backend, and a refused one is delivered nothing. |
| IssuanceOwners.EverythingIsForItsAsk | internal/broker/broker.go:183-265 | However turns interleave, every effect and every phase belongs to the ask of the request's first turn: its caller's limit, its caller's parsing, a request and a credential of its caller and its CSR, its caller's row; and every reply was heard in one of the request's own turns. |
| IssuanceOwners.OnlyTheMappingDecides | internal/broker/broker.go:207-231 | Only CSRs of mapped callers are parsed, and a backend only sees the opening ask's caller and CSR, with proven possession, and the snapshot's SID and account for that caller. |
| IssuanceOwners.OutcomeIsForItsAsk | internal/broker/broker.go:183-265 | A request is refused for a reason its own ask gives (unknown ID, no mapping, a CSR that is refused), or ends in a credential minted for its own ask. |
| IssuanceCauses.ReasonsHaveCauses | internal/broker/broker.go:240-264 | In every run a request ends "not implemented" only if in one of its own turns the backend said so, and with an internal error only if in one of its own turns the backend failed or came without a certificate when called for it, or its row was cut short or not synced. |
| IssuanceCauses.BackendsRuleOutReasons | internal/issuer/issuer.go:110-137 | So the subordinate backend never makes an internal error, and adcs never a "not implemented". |
| IssuanceCauses.DeliveredIsWhatTheBackendMinted | internal/broker/broker.go:240-264 | Every delivered credential is what the backend returned in one of the request's own turns. |
| IssuanceCauses.RowsAreOfTheirTurn | internal/broker/broker.go:285-306 | Every append went as one of the request's own turns met it, bytes and sync, with that turn's time on the row. |
| IssuanceRates.TokensAreBackendCalls | internal/broker/broker.go:234-240 | Tokens taken are backend calls made plus the requests that hold a token not yet used. |
| IssuanceRates.TotalLimitRefusesForCause | internal/broker/broker.go:234-238 | In any run whose clock never steps back, the total limit refuses a request if and only if one more backend call would break its bound over some window ending there; the delay is the bucket's own. |
| IssuanceRates.BackendCallsAreBounded | internal/broker/broker.go:84-87 | Between any two points of any run, backend calls are at most the requests holding a token, the burst, and what the clock's forward movement earns. |
| IssuanceRates.BoundInTime | internal/broker/broker.go:84-87 | With a clock that never steps back, that is burst + rate * elapsed time. |
| IssuanceRates.CallersAreLimitedPrivately | internal/broker/broker.go:199-203 | Within any run of the service whose limiter readings do not go back to before the last sweep, every caller's limit answers as a private, never evicted limiter. |
| OverlapLinear.OverlappingCallersAreTurns | internal/broker/broker.go:199-203 | When calls of the per-caller limit overlap harmlessly, each is answered as the machine answers it in one turn, at the moment it uses its bucket. |
| IssuanceProgress.EveryRequestEnds | internal/broker/broker.go:183-265 | A request ends in one outcome after at most seven turns of its own, whatever others do in between. |
| IssuanceProgress.SerialIsARun | internal/broker/broker.go:183-265 | Calls of Issue one after the other are a run of the machine. |
| IssuanceProgress.SerialLeavesNoneWaiting | internal/broker/broker.go:183-265 | After any number of such calls every request is done and no token is held. |
| IssuanceProgress.SerialCallsAreBounded | internal/broker/broker.go:84-87 | So between any two of them the bound on backend calls has no term for requests in flight. |
| EndToEnd.OnlyPossessionIsLeft | internal/issuer/issuer.go:83-108 | With a loaded snapshot, validation of a mapped caller's request refuses exactly an unparseable CSR or one without proof of possession. |
| EndToEnd.AsksForEveryMappedAccount | internal/issuer/adcs/adcs.go:139-156 | Exactly when an authorised request is sent to the CA; no account name the snapshot admits is in the way. |
| EndToEnd.CaIsAskedForTheMappedAccount | internal/issuer/adcs/adcs.go:133-138 | In every run, each message sent reads back to the account the snapshot gives the caller that opened the request, over the CSR it brought, and what is heard is what the request's own turn got for that message. |
| EndToEnd.DeliveredNamesTheMappedSid | internal/issuer/adcs/adcs.go:210-254 | Every delivered certificate's first AD SID extension is byte for byte the one for the SID mapped to the caller that opened the request, and it was minted over that caller's CSR and recorded as that caller's; its chain is the CA's, permuted, with a verifying issuer first. |
| EndToEnd.OutcomeNamesTheMappedSid | internal/broker/broker.go:183-265 | So does every credential that a request ends in. |
| EndToEnd.DeliveredChainLeavesOutTheLeaf | internal/issuer/adcs/wstep.go:214-284 | No delivered chain contains the leaf. |
| EndToEnd.DeliveredNamesTheEntrysSid | internal/mapping/mapping.go:137-180 | That SID is the one snapshot entry's for the caller that opened the request. |
| EndToEnd.NoMappingIff | internal/broker/broker.go:205-212 | A request is refused for having no mapping only if no entry of the snapshot has its caller's ID; if none has, that or an earlier refusal is its end. |
| Broker.Server.TakeCallerLimit | internal/broker/broker.go:199-203 | The caller's limit, or none, taken before any other work. |
| Broker.Server.TakeTotalLimit | internal/broker/broker.go:234-238 | The total limit, or none, taken last before the backend. |
| Broker.Server.RecordIssuance | internal/broker/broker.go:285-306 | The file after the append, and success exactly when all of the line was written and synced. |
| Broker.Server.Issue | internal/broker/broker.go:183-265 | Limiters, file, effects and outcome after a call are those of the machine's turns of one request; all new effects are of this request and for this ask, the refusal is one the ask deserves and has its cause in what the call met, and a delivered certificate names the SID mapped to its caller. |
| IssuanceRuns.LinesTellCertificatesApart | internal/record/record.go:61-94 | Every row written, acknowledged or not, describes its certificate and the caller's own account, and two equal lines of a run are about one caller, one account and one certificate by issuer, serial and fingerprint. |
| Broker.CallOn | internal/issuer/issuer.go:130-137 | The configured backend's answer. |
| Broker.New | internal/broker/broker.go:119-160 | Refuses exactly when something is missing or the snapshot is dated further ahead than the skew (five minutes if zero); an old snapshot is served, and with new limiters the broker is where the machine's runs start. |

## Left out

- The HTTP server, JSON and PEM decoding, flags, logging (with the staleness warning) and signal handling: plumbing over libraries.
- `submit`, the SOAP envelopes and the XML binding of `parseRSTRC`: network and encoding/xml; a response is taken as bound, with its tokens decoded.
- Cryptography and X.509 parsing: SHA-256, signing, CheckSignatureFrom, the CSR's proof of possession and certificate parsing are parameters.
- The `subordinate` backend: it always refuses, and appears only as that.
- `ValidateSPIFFEID`: a predicate; its grammar would add only easy members. `url.Parse` in `validateCDPURI` is one too.
- `Agent.Validate`, `newMessageID`, `SPIFFEIDFromPeer` and `statusFor`: settled by reading one branch each.
- TokenBucket.Limiter.Allow: tokens are exact reals where the program uses float64, and a delay is not bounded by the 64-bit duration it is stored in.
- Eviction.EvictionIsExact: asks for a clock that never steps back to before the last sweep, which Go's monotonic readings give and which the counterexample shows is needed; the exact condition is that of `Overlap`.
- IssuanceRates.CallersAreLimitedPrivately: a call of the per-caller limiter is one turn of the machine; calls of it that overlap harmlessly are such turns (`OverlapLinear.OverlappingCallersAreTurns`), others are not covered.
- TableSize.TableSizeIsBounded: for calls that do not overlap, and a clock that never steps back; `OverlapSize` is for those that do.
- Cmc.PkiDataReadsBack: for bodies whose length the long form of X.690 can count (`Der.CountableIff`: all below 2 to the power of 1008); the 2^31 limits of Go's decoder are not modelled.
- Pkcs7Reader.SignedCertificatesReadBack: each certificate is one complete element that the X.509 parser accepts and keeps verbatim.
- RecordFile.File.Record: a row's encoding is taken as given and free of newlines, and its time as set, as the broker sets it; in the machine a row whose encoding fails is an append of which nothing was written; fsync means no more than what its nil promises, and file modes are not modelled.
- Broker.FillRow: a serial is the integer and an issuer the rendered name; their decimal and RFC 2253 spellings are not written out.
- Broker.Server.Issue: one call at a time; overlapping calls are runs of the `Issuance` machine, in which each turn is atomic.
