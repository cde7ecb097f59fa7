/** The TLS material of internal/tlsconf: reloaded when the files change, while writers replace
    those files between any two looks the program takes at them.

    The disk is a history: what the files were at each instant. Every stat and every read looks
    at one instant, no earlier than the look before it, and may fail for no reason of the file's. */
module TlsReload {
  import opened Options

  type Path = string
  type Content = string

  datatype Stamp = Stamp(modTime: int, size: int)

  datatype File = File(stamp: Stamp, content: Content)

  type Files = map<Path, File>

  type History = nat -> Files

  datatype Material = Material(cert: Content, key: Content, bundle: Content)

  /** The paths, and what the TLS library accepts as a key pair and as a bundle. */
  datatype Config = Config(cert: Path, key: Path, bundle: Path,
                           pairs: (Content, Content) -> bool, usable: Content -> bool) {
    function Paths(): (ps: seq<Path>)
      ensures |ps| == 3
    {
      [cert, key, bundle]
    }
  }

  /** What the program assumes of its writers: a stamp never comes back to a path, so two equal
      stamps mean that nothing was written in between. */
  ghost predicate StampsNeverRepeat(h: History) {
    forall p: Path, i: nat, j: nat :: SameStamp(h, p, i, j) ==> SameFile(h, p, i, j)
  }

  ghost predicate SameStamp(h: History, p: Path, i: nat, j: nat) {
    i <= j && p in h(i) && p in h(j) && h(i)[p].stamp == h(j)[p].stamp
  }

  ghost predicate SameFile(h: History, p: Path, i: nat, j: nat) {
    forall k: nat :: i <= k <= j ==> p in h(i) && p in h(k) && h(k)[p] == h(i)[p]
  }

  /** The three files, all at instant `i`. */
  ghost predicate OnDisk(c: Config, h: History, i: nat, m: Material) {
    && c.cert in h(i) && c.key in h(i) && c.bundle in h(i)
    && m == Material(h(i)[c.cert].content, h(i)[c.key].content, h(i)[c.bundle].content)
  }

  // ---------------------------------------------------------------- looks at the disk

  /** One look: the instant, and what was seen; None for an error of any kind. */
  datatype Look<T> = Look(at: nat, seen: Option<T>)

  /** All that one handshake may look at, in order: the first stats, load's own stats, the reads. */
  datatype Looks = Looks(first: seq<Look<Stamp>>, second: seq<Look<Stamp>>, texts: seq<Look<Content>>)

  ghost predicate TrueStat(h: History, p: Path, l: Look<Stamp>) {
    l.seen.Some? ==> p in h(l.at) && l.seen.value == h(l.at)[p].stamp
  }

  ghost predicate TrueRead(h: History, p: Path, l: Look<Content>) {
    l.seen.Some? ==> p in h(l.at) && l.seen.value == h(l.at)[p].content
  }

  /** Three stats, of the three paths, in order. */
  ghost predicate TrueStats(c: Config, h: History, l: seq<Look<Stamp>>) {
    && |l| == 3 && l[0].at <= l[1].at <= l[2].at
    && TrueStat(h, c.cert, l[0]) && TrueStat(h, c.key, l[1]) && TrueStat(h, c.bundle, l[2])
  }

  ghost predicate TrueTexts(c: Config, h: History, l: seq<Look<Content>>) {
    && |l| == 3 && l[0].at <= l[1].at <= l[2].at
    && TrueRead(h, c.cert, l[0]) && TrueRead(h, c.key, l[1]) && TrueRead(h, c.bundle, l[2])
  }

  /** The looks were taken in order, between `from` and `to`, and saw what was there. */
  ghost predicate Truthful(c: Config, h: History, from: nat, to: nat, l: Looks) {
    && TrueStats(c, h, l.first) && TrueStats(c, h, l.second) && TrueTexts(c, h, l.texts)
    && from <= l.first[0].at && l.first[2].at <= l.second[0].at
    && l.second[2].at <= l.texts[0].at && l.texts[2].at <= to
  }

  /** Nothing failed but for a file that was not there. */
  ghost predicate FaultlessLooks<T>(c: Config, h: History, l: seq<Look<T>>)
    requires |l| == 3
  {
    && (l[0].seen.None? ==> c.cert !in h(l[0].at))
    && (l[1].seen.None? ==> c.key !in h(l[1].at))
    && (l[2].seen.None? ==> c.bundle !in h(l[2].at))
  }

  ghost predicate Faultless(c: Config, h: History, l: Looks)
    requires |l.first| == 3 && |l.second| == 3 && |l.texts| == 3
  {
    FaultlessLooks(c, h, l.first) && FaultlessLooks(c, h, l.second) && FaultlessLooks(c, h, l.texts)
  }

  // ---------------------------------------------------------------- one handshake

  /** stampAll: a map by path, so a path given twice keeps its later stamp. */
  function StampAll(c: Config, l: seq<Look<Stamp>>): Option<map<Path, Stamp>>
    requires |l| == 3
  {
    if l[0].seen.None? || l[1].seen.None? || l[2].seen.None? then None
    else Some(map[][c.cert := l[0].seen.value][c.key := l[1].seen.value][c.bundle := l[2].seen.value])
  }

  function ReadAll(c: Config, texts: seq<Look<Content>>): Option<Material>
    requires |texts| == 3
  {
    if texts[0].seen.None? || texts[1].seen.None? then None
    else if !c.pairs(texts[0].seen.value, texts[1].seen.value) then None
    else if texts[2].seen.None? || !c.usable(texts[2].seen.value) then None
    else Some(Material(texts[0].seen.value, texts[1].seen.value, texts[2].seen.value))
  }

  datatype State = State(current: Material, stamps: map<Path, Stamp>)

  function Load(c: Config, l: Looks): Option<State>
    requires |l.second| == 3 && |l.texts| == 3
  {
    match (StampAll(c, l.second), ReadAll(c, l.texts))
    case (Some(stamps), Some(m)) => Some(State(m, stamps))
    case _ => None
  }

  datatype Outcome = StatFailed | Unchanged | LoadFailed | Reloaded

  function OutcomeOf(c: Config, s: State, l: Looks): Outcome
    requires |l.first| == 3 && |l.second| == 3 && |l.texts| == 3
  {
    match StampAll(c, l.first)
    case None => StatFailed
    case Some(stamps) =>
      if stamps == s.stamps then Unchanged
      else if Load(c, l).None? then LoadFailed
      else Reloaded
  }

  /** The state after materialForHandshake; what is served is its `current`. */
  function Handshake(c: Config, s: State, l: Looks): State
    requires |l.first| == 3 && |l.second| == 3 && |l.texts| == 3
  {
    match OutcomeOf(c, s, l)
    case StatFailed => s
    case Unchanged => s
    case LoadFailed => s.(stamps := StampAll(c, l.first).value)
    case Reloaded => Load(c, l).value
  }

  // ---------------------------------------------------------------- every reachable state

  /** The last attempt to load: what it looked at and whether it succeeded. */
  datatype Attempt = Attempt(looks: Looks, loaded: bool)

  function Attempted(c: Config, s: State, last: Attempt, l: Looks): Attempt
    requires |l.first| == 3 && |l.second| == 3 && |l.texts| == 3
  {
    match OutcomeOf(c, s, l)
    case LoadFailed => Attempt(l, false)
    case Reloaded => Attempt(l, true)
    case _ => last
  }

  ghost predicate Inv(c: Config, h: History, now: nat, s: State, last: Attempt) {
    && Truthful(c, h, 0, now, last.looks)
    && (last.loaded ==> Load(c, last.looks) == Some(s))
    && (!last.loaded ==> Load(c, last.looks).None? && StampAll(c, last.looks.first) == Some(s.stamps))
    && c.pairs(s.current.cert, s.current.key) && c.usable(s.current.bundle)
  }

  /** NewSource establishes the invariant and every handshake keeps it. */
  lemma HandshakeKeepsInv(c: Config, h: History, from: nat, to: nat, s: State, last: Attempt, l: Looks)
    requires Inv(c, h, from, s, last) && Truthful(c, h, from, to, l)
    ensures Inv(c, h, to, Handshake(c, s, l), Attempted(c, s, last, l))
  {
  }

  /** None of the three files changes between the two instants. */
  ghost predicate Quiet(c: Config, h: History, from: nat, to: nat) {
    SameFile(h, c.cert, from, to) && SameFile(h, c.key, from, to) && SameFile(h, c.bundle, from, to)
  }

  /** The look that decides a path's stamp. */
  lemma StampedBy(c: Config, h: History, l: seq<Look<Stamp>>, p: Path) returns (j: nat)
    requires TrueStats(c, h, l) && StampAll(c, l).Some? && p in c.Paths()
    ensures j < 3 && p in h(l[j].at)
    ensures p in StampAll(c, l).value && StampAll(c, l).value[p] == h(l[j].at)[p].stamp
  {
    j := if c.bundle == p then 2 else if c.key == p then 1 else 0;
  }

  lemma SameFileBetween(h: History, p: Path, i: nat, from: nat, to: nat, j: nat)
    requires StampsNeverRepeat(h) && i <= from <= to <= j
    requires SameStamp(h, p, i, j)
    ensures SameFile(h, p, from, to)
  {
    assert SameFile(h, p, i, j);
    forall k: nat | from <= k <= to
      ensures p in h(from) && p in h(k) && h(k)[p] == h(from)[p]
    {
      assert h(k)[p] == h(i)[p] && h(from)[p] == h(i)[p];
    }
  }

  lemma EqualStampMeansNoChange(c: Config, h: History, early: seq<Look<Stamp>>, late: seq<Look<Stamp>>,
                                from: nat, to: nat, p: Path)
    requires StampsNeverRepeat(h) && TrueStats(c, h, early) && TrueStats(c, h, late)
    requires early[2].at <= from <= to <= late[0].at && p in c.Paths()
    requires StampAll(c, early).Some? && StampAll(c, early) == StampAll(c, late)
    ensures SameFile(h, p, from, to)
  {
    var i := StampedBy(c, h, early, p);
    var j := StampedBy(c, h, late, p);
    SameFileBetween(h, p, early[i].at, from, to, late[j].at);
  }

  /** Equal stamps at an earlier and a later stat of all three: nothing changed in between. */
  lemma EqualStampsMeanNoChange(c: Config, h: History, early: seq<Look<Stamp>>, late: seq<Look<Stamp>>,
                                from: nat, to: nat)
    requires StampsNeverRepeat(h) && TrueStats(c, h, early) && TrueStats(c, h, late)
    requires early[2].at <= from <= to <= late[0].at
    requires StampAll(c, early).Some? && StampAll(c, early) == StampAll(c, late)
    ensures Quiet(c, h, from, to)
  {
    EqualStampMeansNoChange(c, h, early, late, from, to, c.cert);
    EqualStampMeansNoChange(c, h, early, late, from, to, c.key);
    EqualStampMeansNoChange(c, h, early, late, from, to, c.bundle);
  }

  /** Whenever a handshake finds the stamps unchanged and the last load succeeded, what it serves
      was on disk, all three files together, at the instant the handshake began. */
  lemma UnchangedServesOneInstant(c: Config, h: History, from: nat, to: nat, s: State, last: Attempt, l: Looks)
    requires StampsNeverRepeat(h) && Inv(c, h, from, s, last) && Truthful(c, h, from, to, l)
    requires last.loaded && OutcomeOf(c, s, l) == Unchanged
    ensures OnDisk(c, h, from, Handshake(c, s, l).current)
    ensures forall i: nat :: last.looks.texts[0].at <= i <= from ==> OnDisk(c, h, i, Handshake(c, s, l).current)
  {
    EqualStampsMeanNoChange(c, h, last.looks.second, l.first, last.looks.texts[0].at, from);
  }

  /** A mixture of file generations can be served, but not twice: the next handshake that can stat
      the files finds them changed. */
  lemma MixtureIsNotKept(c: Config, h: History, from: nat, to: nat, s: State, last: Attempt, l: Looks)
    requires StampsNeverRepeat(h) && Inv(c, h, from, s, last) && Truthful(c, h, from, to, l)
    requires last.loaded && !OnDisk(c, h, from, s.current) && StampAll(c, l.first).Some?
    ensures OutcomeOf(c, s, l) == LoadFailed || OutcomeOf(c, s, l) == Reloaded
  {
    if OutcomeOf(c, s, l) == Unchanged {
      UnchangedServesOneInstant(c, h, from, to, s, last, l);
    }
  }

  /** The files at instant `i` are there and load. */
  ghost predicate Loads(c: Config, h: History, i: nat) {
    && c.cert in h(i) && c.key in h(i) && c.bundle in h(i)
    && c.pairs(h(i)[c.cert].content, h(i)[c.key].content) && c.usable(h(i)[c.bundle].content)
  }

  /** A faultless load of files that do not change serves them. */
  lemma QuietLoadSucceeds(c: Config, h: History, from: nat, to: nat, l: Looks)
    requires Truthful(c, h, from, to, l) && Faultless(c, h, l)
    requires Quiet(c, h, from, to) && Loads(c, h, from)
    ensures StampAll(c, l.first).Some? && Load(c, l).Some? && OnDisk(c, h, from, Load(c, l).value.current)
  {
  }

  /** A load that failed of itself, not by a fault, would fail again on the same files. */
  lemma FaultlessFailureIsTheFiles(c: Config, h: History, from: nat, s: State, last: Attempt)
    requires Inv(c, h, from, s, last) && !last.loaded && Faultless(c, h, last.looks)
    requires Quiet(c, h, last.looks.first[2].at, from)
    ensures !Loads(c, h, from)
  {
    var begin := last.looks.first[2].at;
    if Loads(c, h, begin) {
      QuietLoadSucceeds(c, h, begin, from, last.looks.(first := last.looks.second));
    }
  }

  /** Convergence: from any reachable state whose last failed load, if the last one failed, met no
      fault of its own, a handshake over files that do not change and do load serves them. */
  lemma QuietHandshakeServesTheDisk(c: Config, h: History, from: nat, to: nat, s: State, last: Attempt, l: Looks)
    requires StampsNeverRepeat(h) && Inv(c, h, from, s, last) && Truthful(c, h, from, to, l)
    requires Faultless(c, h, l) && (!last.loaded ==> Faultless(c, h, last.looks))
    requires Quiet(c, h, from, to) && Loads(c, h, from)
    ensures OnDisk(c, h, from, Handshake(c, s, l).current)
  {
    QuietLoadSucceeds(c, h, from, to, l);
    if OutcomeOf(c, s, l) == Unchanged {
      if last.loaded {
        UnchangedServesOneInstant(c, h, from, to, s, last, l);
      } else {
        EqualStampsMeanNoChange(c, h, last.looks.first, l.first, last.looks.first[2].at, from);
        FaultlessFailureIsTheFiles(c, h, from, s, last);
      }
    }
  }

  /** And exactly when such a handshake serves what is on disk: unless the last load failed and left
      behind the very stamps that are on disk now, with other material still in force. */
  lemma ServesTheDiskIff(c: Config, h: History, from: nat, to: nat, s: State, last: Attempt, l: Looks)
    requires StampsNeverRepeat(h) && Inv(c, h, from, s, last) && Truthful(c, h, from, to, l)
    requires Faultless(c, h, l) && Quiet(c, h, from, to) && Loads(c, h, from)
    ensures OnDisk(c, h, from, Handshake(c, s, l).current)
            <==> last.loaded || StampAll(c, l.first) != Some(s.stamps) || OnDisk(c, h, from, s.current)
  {
    QuietLoadSucceeds(c, h, from, to, l);
    if last.loaded && OutcomeOf(c, s, l) == Unchanged {
      UnchangedServesOneInstant(c, h, from, to, s, last, l);
    }
  }

  /** The proviso on the last failed load is needed: its stamps are recorded although it failed,
      so while the files stay as they are no later handshake reads them again. */
  lemma FailedLoadIsNotRetried(c: Config, h: History, from: nat, mid: nat, to: nat, s: State, l: Looks, l': Looks)
    requires Truthful(c, h, from, mid, l) && Truthful(c, h, mid, to, l') && Quiet(c, h, from, to)
    requires OutcomeOf(c, s, l) == LoadFailed
    ensures var s' := Handshake(c, s, l);
      && s'.current == s.current
      && (OutcomeOf(c, s', l') == Unchanged || OutcomeOf(c, s', l') == StatFailed)
      && Handshake(c, s', l') == s'
  {
  }

  // ---------------------------------------------------------------- what a reload serves

  /** This version of the file is there at instant `i`. */
  ghost predicate There(h: History, p: Path, f: File, i: nat) {
    p in h(i) && h(i)[p] == f
  }

  /** The three versions a load has read. */
  ghost predicate Read(c: Config, h: History, texts: seq<Look<Content>>, cert: File, key: File, bundle: File) {
    && |texts| == 3
    && There(h, c.cert, cert, texts[0].at)
    && There(h, c.key, key, texts[1].at)
    && There(h, c.bundle, bundle, texts[2].at)
  }

  ghost predicate Together(c: Config, h: History, cert: File, key: File, bundle: File, i: nat) {
    There(h, c.cert, cert, i) && There(h, c.key, key, i) && There(h, c.bundle, bundle, i)
  }

  /** Between the two reads there was an instant at which the version read first was still there and
      the one read last was there already. */
  ghost predicate Overlapped(h: History, p: Path, f: File, i: nat, q: Path, g: File, j: nat) {
    exists k: nat :: i <= k <= j && There(h, p, f, k) && There(h, q, g, k)
  }

  lemma StaysThere(h: History, p: Path, f: File, i: nat, k: nat, j: nat)
    requires StampsNeverRepeat(h) && i <= k <= j && There(h, p, f, i) && There(h, p, f, j)
    ensures There(h, p, f, k)
  {
    assert SameStamp(h, p, i, j);
    assert SameFile(h, p, i, j);
  }

  /** Two versions that were ever there together were so between their reads. */
  lemma TogetherBetween(h: History, p: Path, f: File, i: nat, q: Path, g: File, j: nat, k: nat)
    requires StampsNeverRepeat(h) && i <= j && There(h, p, f, i) && There(h, q, g, j)
    requires There(h, p, f, k) && There(h, q, g, k)
    ensures Overlapped(h, p, f, i, q, g, j)
  {
    if k < i {
      StaysThere(h, q, g, k, i, j);
      assert There(h, p, f, i) && There(h, q, g, i);
    } else if j < k {
      StaysThere(h, p, f, i, j, k);
      assert There(h, p, f, j) && There(h, q, g, j);
    }
  }

  /** Three versions of which any two were there together were there together all three: at the
      middle one of the three instants. */
  lemma MiddleInstant(c: Config, h: History, cert: File, key: File, bundle: File, x: nat, y: nat, z: nat)
    requires StampsNeverRepeat(h)
    requires There(h, c.cert, cert, x) && There(h, c.key, key, x)
    requires There(h, c.key, key, y) && There(h, c.bundle, bundle, y)
    requires There(h, c.cert, cert, z) && There(h, c.bundle, bundle, z)
    ensures exists i: nat :: Together(c, h, cert, key, bundle, i)
  {
    if y <= x <= z || z <= x <= y {
      StaysThere(h, c.bundle, bundle, if y <= z then y else z, x, if y <= z then z else y);
      assert Together(c, h, cert, key, bundle, x);
    } else if x <= y <= z || z <= y <= x {
      StaysThere(h, c.cert, cert, if x <= z then x else z, y, if x <= z then z else x);
      assert Together(c, h, cert, key, bundle, y);
    } else {
      StaysThere(h, c.key, key, if x <= y then x else y, z, if x <= y then y else x);
      assert Together(c, h, cert, key, bundle, z);
    }
  }

  /** What a reload serves was on disk together, version for version, at some instant if and only if
      no write fell between two of its reads in a way that kept the two versions apart. */
  lemma ReloadServesOneInstantIff(c: Config, h: History, from: nat, to: nat, l: Looks,
                                  cert: File, key: File, bundle: File)
    requires StampsNeverRepeat(h) && Truthful(c, h, from, to, l) && Read(c, h, l.texts, cert, key, bundle)
    ensures (exists i: nat :: Together(c, h, cert, key, bundle, i)) <==>
            && Overlapped(h, c.cert, cert, l.texts[0].at, c.key, key, l.texts[1].at)
            && Overlapped(h, c.key, key, l.texts[1].at, c.bundle, bundle, l.texts[2].at)
            && Overlapped(h, c.cert, cert, l.texts[0].at, c.bundle, bundle, l.texts[2].at)
  {
    var a, b, d := l.texts[0].at, l.texts[1].at, l.texts[2].at;
    if i: nat :| Together(c, h, cert, key, bundle, i) {
      TogetherBetween(h, c.cert, cert, a, c.key, key, b, i);
      TogetherBetween(h, c.key, key, b, c.bundle, bundle, d, i);
      TogetherBetween(h, c.cert, cert, a, c.bundle, bundle, d, i);
    }
    if && Overlapped(h, c.cert, cert, a, c.key, key, b) && Overlapped(h, c.key, key, b, c.bundle, bundle, d)
       && Overlapped(h, c.cert, cert, a, c.bundle, bundle, d)
    {
      var x: nat :| a <= x <= b && There(h, c.cert, cert, x) && There(h, c.key, key, x);
      var y: nat :| b <= y <= d && There(h, c.key, key, y) && There(h, c.bundle, bundle, y);
      var z: nat :| a <= z <= d && There(h, c.cert, cert, z) && There(h, c.bundle, bundle, z);
      MiddleInstant(c, h, cert, key, bundle, x, y, z);
    }
  }

  /** A handshake that reloads has read three versions and serves their contents; so where they were
      there together, it serves what was on disk. */
  lemma ReloadServesWhatItRead(c: Config, h: History, from: nat, to: nat, s: State, l: Looks)
    returns (cert: File, key: File, bundle: File)
    requires Truthful(c, h, from, to, l) && OutcomeOf(c, s, l) == Reloaded
    ensures Read(c, h, l.texts, cert, key, bundle)
    ensures Handshake(c, s, l).current == Material(cert.content, key.content, bundle.content)
    ensures forall i: nat :: Together(c, h, cert, key, bundle, i) ==> OnDisk(c, h, i, Handshake(c, s, l).current)
  {
    cert, key, bundle := h(l.texts[0].at)[c.cert], h(l.texts[1].at)[c.key], h(l.texts[2].at)[c.bundle];
  }

  /** With no write between its first read and its last, a reload serves one instant. */
  lemma QuietReadsServeOneInstant(c: Config, h: History, from: nat, to: nat, s: State, l: Looks)
    requires Truthful(c, h, from, to, l) && OutcomeOf(c, s, l) == Reloaded
    requires Quiet(c, h, l.texts[0].at, l.texts[2].at)
    ensures OnDisk(c, h, l.texts[0].at, Handshake(c, s, l).current)
  {
  }

  // ---------------------------------------------------------------- runs that serve something else

  /** A writer replaces all three files at instant 1 and again at instant 2. */
  function Generation(i: nat): Files {
    var g := if i < 2 then i else 2;
    var file := File(Stamp(g, 1), if i == 0 then "first" else if i == 1 then "second" else "third");
    map["cert" := file, "key" := file, "bundle" := file]
  }

  lemma GenerationsNeverRepeat()
    ensures StampsNeverRepeat(Generation)
  {
    forall p: Path, i: nat, j: nat | SameStamp(Generation, p, i, j)
      ensures SameFile(Generation, p, i, j)
    {
      assert p in {"cert", "key", "bundle"};
    }
  }

  const ANY_FILES := Config("cert", "key", "bundle", (a, b) => true, a => true)

  /** Three stats, and three reads, at one instant. */
  function StatsAt(i: nat): (l: seq<Look<Stamp>>)
    ensures |l| == 3
  {
    var look := Look(i, Some(Generation(i)["cert"].stamp));
    [look, look, look]
  }

  function ReadsAt(i: nat, j: nat): (l: seq<Look<Content>>)
    ensures |l| == 3
  {
    var look := Look(i, Some(Generation(i)["cert"].content));
    [look, look, Look(j, Some(Generation(j)["cert"].content))]
  }

  /** A source that loaded the first generation. */
  const LOADED_AT_0 := Looks(StatsAt(0), StatsAt(0), ReadsAt(0, 0))

  function FirstState(): (s: State)
    ensures Load(ANY_FILES, LOADED_AT_0) == Some(s) && s.current == Material("first", "first", "first")
    ensures s.stamps == map["cert" := Stamp(0, 1), "key" := Stamp(0, 1), "bundle" := Stamp(0, 1)]
  {
    Load(ANY_FILES, LOADED_AT_0).value
  }

  lemma FirstStateIsReachable()
    ensures Inv(ANY_FILES, Generation, 0, FirstState(), Attempt(LOADED_AT_0, true))
  {
  }

  /** The next handshake finds the second generation; the writer comes again between its reads of the
      key and of the bundle. */
  const MIXED := Looks(StatsAt(1), StatsAt(1), ReadsAt(1, 2))

  /** A handshake can serve a certificate and a bundle that were never on disk together, in a run in
      which nothing fails. */
  lemma MixtureCanBeServed()
    ensures StampsNeverRepeat(Generation)
    ensures Inv(ANY_FILES, Generation, 0, FirstState(), Attempt(LOADED_AT_0, true))
    ensures Truthful(ANY_FILES, Generation, 0, 2, MIXED) && Faultless(ANY_FILES, Generation, MIXED)
    ensures OutcomeOf(ANY_FILES, FirstState(), MIXED) == Reloaded
    ensures forall i: nat :: !OnDisk(ANY_FILES, Generation, i, Handshake(ANY_FILES, FirstState(), MIXED).current)
  {
    GenerationsNeverRepeat();
    FirstStateIsReachable();
    assert StampAll(ANY_FILES, MIXED.first).value["cert"] == Stamp(1, 1);
    assert Handshake(ANY_FILES, FirstState(), MIXED).current == Material("second", "second", "third");
  }

  /** The next handshake finds the second generation, but its reads fail. */
  const UNREAD := Looks(StatsAt(1), StatsAt(1), [Look(1, None), Look(1, None), Look(1, None)])

  /** The one after that meets no fault. */
  const FAULTLESS_AT_1 := Looks(StatsAt(1), StatsAt(1), ReadsAt(1, 1))

  /** A reachable state from which a faultless handshake, over files that do not change and do load,
      goes on serving what is no longer there: a passing fault came between. */
  lemma PassingFaultStops()
    ensures StampsNeverRepeat(Generation) && Truthful(ANY_FILES, Generation, 0, 1, UNREAD)
    ensures OutcomeOf(ANY_FILES, FirstState(), UNREAD) == LoadFailed
    ensures var s := Handshake(ANY_FILES, FirstState(), UNREAD);
      && Inv(ANY_FILES, Generation, 1, s, Attempt(UNREAD, false))
      && Truthful(ANY_FILES, Generation, 1, 1, FAULTLESS_AT_1) && Faultless(ANY_FILES, Generation, FAULTLESS_AT_1)
      && Quiet(ANY_FILES, Generation, 1, 1) && Loads(ANY_FILES, Generation, 1)
      && !OnDisk(ANY_FILES, Generation, 1, Handshake(ANY_FILES, s, FAULTLESS_AT_1).current)
  {
    GenerationsNeverRepeat();
    FirstStateIsReachable();
    assert StampAll(ANY_FILES, UNREAD.first).value["cert"] == Stamp(1, 1);
    HandshakeKeepsInv(ANY_FILES, Generation, 0, 1, FirstState(), Attempt(LOADED_AT_0, true), UNREAD);
    assert Handshake(ANY_FILES, FirstState(), UNREAD).current == Material("first", "first", "first");
  }

  // ---------------------------------------------------------------- the objects

  /** The disk as the program meets it: before every look any number of writes may happen, and
      any look may fail. */
  class Disk {
    const history: History
    var now: nat
    ghost var faults: nat

    constructor (history: History)
      ensures this.history == history && now == 0 && faults == 0
    {
      this.history := history;
      now, faults := 0, 0;
    }

    method Stat(path: Path) returns (r: Option<Stamp>)
      modifies this
      ensures now >= old(now) && faults >= old(faults)
      ensures r.Some? ==> path in history(now) && r.value == history(now)[path].stamp
      ensures r.None? && faults == old(faults) ==> path !in history(now)
    {
      var later: nat :| now <= later;
      var fault: bool := *;
      now := later;
      var files := history(now);
      if fault || path !in files {
        if path in files {
          faults := faults + 1;
        }
        return None;
      }
      r := Some(files[path].stamp);
    }

    method ReadFile(path: Path) returns (r: Option<Content>)
      modifies this
      ensures now >= old(now) && faults >= old(faults)
      ensures r.Some? ==> path in history(now) && r.value == history(now)[path].content
      ensures r.None? && faults == old(faults) ==> path !in history(now)
    {
      var later: nat :| now <= later;
      var fault: bool := *;
      now := later;
      var files := history(now);
      if fault || path !in files {
        if path in files {
          faults := faults + 1;
        }
        return None;
      }
      r := Some(files[path].content);
    }

    /** What a look not taken would see now. */
    ghost function StatNow(path: Path): Look<Stamp>
      reads this
    {
      Look(now, if path in history(now) then Some(history(now)[path].stamp) else None)
    }

    ghost function ReadNow(path: Path): Look<Content>
      reads this
    {
      Look(now, if path in history(now) then Some(history(now)[path].content) else None)
    }

    /** The looks of a handshake that stops after its first stats: the rest at one go. */
    ghost function NoMoreLooks(config: Config, first: seq<Look<Stamp>>): (l: Looks)
      reads this
      requires |first| == 3 && TrueStats(config, history, first) && first[2].at <= now
      ensures |l.second| == 3 && |l.texts| == 3
      ensures l.first == first && forall start: nat :: start <= first[0].at ==> Truthful(config, history, start, now, l)
      ensures FaultlessLooks(config, history, first) ==> Faultless(config, history, l)
    {
      Looks(first, [StatNow(config.cert), StatNow(config.key), StatNow(config.bundle)],
            [ReadNow(config.cert), ReadNow(config.key), ReadNow(config.bundle)])
    }
  }

  class Source {
    const config: Config
    const disk: Disk
    var current: Material
    var stamps: map<Path, Stamp>
    ghost var last: Attempt

    function Both(): State
      reads this
    {
      State(current, stamps)
    }

    ghost predicate Valid()
      reads this, disk
    {
      Inv(config, disk.history, disk.now, Both(), last)
    }

    constructor (config: Config, disk: Disk, s: State, ghost looks: Looks)
      requires Truthful(config, disk.history, 0, disk.now, looks) && Load(config, looks) == Some(s)
      ensures Valid() && this.config == config && this.disk == disk && Both() == s && last == Attempt(looks, true)
    {
      this.config, this.disk := config, disk;
      current, stamps := s.current, s.stamps;
      last := Attempt(looks, true);
    }

    /** The reload: what was found is kept as the stamps even if the load fails. */
    method Reload(found: map<Path, Stamp>, ghost first: seq<Look<Stamp>>) returns (ghost looks: Looks)
      modifies this, disk
      ensures disk.now >= old(disk.now) && disk.faults >= old(disk.faults)
      ensures |looks.second| == 3 && |looks.texts| == 3 && looks.first == first
      ensures TrueStats(config, disk.history, looks.second) && TrueTexts(config, disk.history, looks.texts)
      ensures old(disk.now) <= looks.second[0].at && looks.second[2].at <= looks.texts[0].at
      ensures looks.texts[2].at <= disk.now
      ensures disk.faults == old(disk.faults) ==>
        FaultlessLooks(config, disk.history, looks.second) && FaultlessLooks(config, disk.history, looks.texts)
      ensures last == Attempt(looks, Load(config, looks).Some?)
      ensures Both() == match Load(config, looks) case None => State(old(current), found) case Some(s) => s
    {
      var loaded, second, texts := LoadAll(config, disk);
      looks := Looks(first, second, texts);
      last := Attempt(looks, loaded.Some?);
      if loaded.None? {
        stamps := found;
      } else {
        current, stamps := loaded.value.current, loaded.value.stamps;
      }
    }

    method MaterialForHandshake() returns (m: Material, ghost looks: Looks)
      requires Valid()
      modifies this, disk
      ensures Valid() && m == current
      ensures Truthful(config, disk.history, old(disk.now), disk.now, looks)
      ensures disk.faults == old(disk.faults) ==> Faultless(config, disk.history, looks)
      ensures Both() == Handshake(config, old(Both()), looks)
      ensures last == Attempted(config, old(Both()), old(last), looks)
    {
      var found, first := StatAll(config, disk);
      if found.None? || found.value == stamps {
        looks := disk.NoMoreLooks(config, first);
        m := current;
      } else {
        looks := Reload(found.value, first);
        m := current;
      }
      HandshakeKeepsInv(config, disk.history, old(disk.now), disk.now, old(Both()), old(last), looks);
    }
  }

  /** stampAll: stops at the first stat that fails. */
  method StatAll(config: Config, disk: Disk) returns (r: Option<map<Path, Stamp>>, ghost looks: seq<Look<Stamp>>)
    modifies disk
    ensures disk.now >= old(disk.now) && disk.faults >= old(disk.faults)
    ensures |looks| == 3 && r == StampAll(config, looks)
    ensures TrueStats(config, disk.history, looks) && old(disk.now) <= looks[0].at && looks[2].at <= disk.now
    ensures disk.faults == old(disk.faults) ==> FaultlessLooks(config, disk.history, looks)
  {
    var paths := config.Paths();
    var out: map<Path, Stamp> := map[];
    looks := [];
    var i := 0;
    while i < |paths|
      invariant 0 <= i <= 3 && |looks| == i
      invariant disk.now >= old(disk.now) && disk.faults >= old(disk.faults)
      invariant forall k :: 0 <= k < i ==> old(disk.now) <= looks[k].at <= disk.now && looks[k].seen.Some?
      invariant forall k, k' :: 0 <= k <= k' < i ==> looks[k].at <= looks[k'].at
      invariant forall k :: 0 <= k < i ==> TrueStat(disk.history, paths[k], looks[k])
      invariant i == 0 ==> out == map[]
      invariant i == 1 ==> out == map[][paths[0] := looks[0].seen.value]
      invariant i == 2 ==> out == map[][paths[0] := looks[0].seen.value][paths[1] := looks[1].seen.value]
      invariant i == 3 ==> Some(out) == StampAll(config, looks)
    {
      var info := disk.Stat(paths[i]);
      looks := looks + [Look(disk.now, info)];
      if info.None? {
        looks := looks + (if i == 0 then [disk.StatNow(paths[1]), disk.StatNow(paths[2])]
                          else if i == 1 then [disk.StatNow(paths[2])] else []);
        return None, looks;
      }
      out := out[paths[i] := info.value];
      i := i + 1;
    }
    r := Some(out);
  }

  /** load: all three files or nothing. */
  method LoadAll(config: Config, disk: Disk)
    returns (r: Option<State>, ghost second: seq<Look<Stamp>>, ghost texts: seq<Look<Content>>)
    modifies disk
    ensures disk.now >= old(disk.now) && disk.faults >= old(disk.faults)
    ensures |second| == 3 && |texts| == 3 && r == Load(config, Looks(second, second, texts))
    ensures TrueStats(config, disk.history, second) && TrueTexts(config, disk.history, texts)
    ensures old(disk.now) <= second[0].at && second[2].at <= texts[0].at && texts[2].at <= disk.now
    ensures disk.faults == old(disk.faults) ==>
      FaultlessLooks(config, disk.history, second) && FaultlessLooks(config, disk.history, texts)
  {
    var stamps, looks := StatAll(config, disk);
    second := looks;
    texts := [disk.ReadNow(config.cert), disk.ReadNow(config.key), disk.ReadNow(config.bundle)];
    if stamps.None? {
      return None, second, texts;
    }
    var cert := disk.ReadFile(config.cert);
    texts := [Look(disk.now, cert), disk.ReadNow(config.key), disk.ReadNow(config.bundle)];
    if cert.None? {
      return None, second, texts;
    }
    var key := disk.ReadFile(config.key);
    texts := [texts[0], Look(disk.now, key), disk.ReadNow(config.bundle)];
    if key.None? || !config.pairs(cert.value, key.value) {
      return None, second, texts;
    }
    var bundle := disk.ReadFile(config.bundle);
    texts := [texts[0], texts[1], Look(disk.now, bundle)];
    if bundle.None? || !config.usable(bundle.value) {
      return None, second, texts;
    }
    r := Some(State(Material(cert.value, key.value, bundle.value), stamps.value));
  }

  /** NewSource: refuses when a path is missing, before any look at the disk, and otherwise exactly
      when the first load fails. */
  method NewSource(config: Config, disk: Disk) returns (s: Source?, ghost looks: Looks)
    modifies disk
    ensures s != null ==>
      fresh(s) && s.Valid() && s.config == config && s.disk == disk && s.last == Attempt(looks, true)
    ensures config.cert == "" || config.key == "" || config.bundle == "" ==> s == null && disk.now == old(disk.now)
    ensures config.cert != "" && config.key != "" && config.bundle != "" ==>
      && Truthful(config, disk.history, old(disk.now), disk.now, looks)
      && (disk.faults == old(disk.faults) ==> Faultless(config, disk.history, looks))
      && (s != null <==> Load(config, looks).Some?)
      && (s != null ==> Some(s.Both()) == Load(config, looks))
  {
    var none: seq<Look<Stamp>> := [];
    looks := Looks(none, none, []);
    if config.cert == "" || config.key == "" || config.bundle == "" {
      return null, looks;
    }
    ghost var first := [disk.StatNow(config.cert), disk.StatNow(config.key), disk.StatNow(config.bundle)];
    var loaded, second, texts := LoadAll(config, disk);
    looks := Looks(first, second, texts);
    if loaded.None? {
      return null, looks;
    }
    s := new Source(config, disk, loaded.value, looks);
  }
}
