/** The durable record of issuances: one encoded row a line, appended and synced before Record
    returns, and read back by whoever splits the file at its newlines. */
module RecordFile {
  import opened ByteStrings
  import opened Options

  const NEWLINE: Byte := 10

  function Line(row: Bytes): (r: Bytes)
    ensures |r| == |row| + 1
  {
    row + [NEWLINE]
  }

  /** One call of Record as it went: the row's encoding, how many bytes of its line reached the
      file, and whether the sync succeeded. A crash is a last call that wrote less than it meant to. */
  datatype Append = Append(row: Bytes, wrote: nat, synced: bool) {
    predicate Valid() {
      wrote <= |Line(row)| && NEWLINE !in row
    }

    predicate Full() {
      wrote == |Line(row)|
    }

    /** Record returned nil. */
    predicate Acknowledged() {
      Full() && synced
    }
  }

  predicate AllAppends(log: seq<Append>) {
    forall i :: 0 <= i < |log| ==> log[i].Valid()
  }

  /** The file after these calls. */
  function FileAfter(log: seq<Append>): Bytes
    requires AllAppends(log)
  {
    if log == [] then []
    else
      var last := log[|log| - 1];
      FileAfter(log[..|log| - 1]) + Line(last.row)[..last.wrote]
  }

  /** File.Record: a row that has an encoding takes one write of the whole line, then a sync; either
      may fail. A row that has none takes neither. */
  class File {
    var content: Bytes

    constructor (content: Bytes)
      ensures this.content == content
    {
      this.content := content;
    }

    method Record(row: Option<Bytes>, wrote: nat, synced: bool) returns (ok: bool)
      requires row.Some? ==> wrote <= |Line(row.value)|
      modifies this
      ensures content == if row.Some? then old(content) + (row.value + [10])[..wrote] else old(content)
      ensures ok <==> row.Some? && wrote == |row.value| + 1 && synced
    {
      if row.None? {
        return false;
      }
      var line := row.value + [NEWLINE];
      content := content + line[..wrote];
      if wrote < |line| {
        return false;
      }
      ok := synced;
    }
  }

  // ---------------------------------------------------------------- what a reader sees

  /** The complete lines of a file, and what follows the last newline. */
  function Lines(file: Bytes): seq<Bytes> {
    var parts := Split(file, NEWLINE);
    parts[..|parts| - 1]
  }

  function Tail(file: Bytes): Bytes {
    var parts := Split(file, NEWLINE);
    parts[|parts| - 1]
  }

  /** The rows that were written to their newlines. */
  function Written(log: seq<Append>): seq<Bytes> {
    if log == [] then []
    else Written(log[..|log| - 1]) + (if log[|log| - 1].Full() then [log[|log| - 1].row] else [])
  }

  /** How many bytes short writes have left since the last newline. */
  function Dangling(log: seq<Append>): nat {
    if log == [] || log[|log| - 1].Full() then 0
    else Dangling(log[..|log| - 1]) + log[|log| - 1].wrote
  }

  /** No row was written to its newline while bytes of a torn one were still waiting for theirs. */
  predicate NoneJoined(log: seq<Append>) {
    forall i :: 0 <= i < |log| && log[i].Full() ==> Dangling(log[..i]) == 0
  }

  /** The pieces when one more byte comes. */
  function Grown(parts: seq<Bytes>, b: Byte): seq<Bytes>
    requires |parts| >= 1
  {
    if b == NEWLINE then parts + [[]] else parts[..|parts| - 1] + [parts[|parts| - 1] + [b]]
  }

  lemma GrownTail(rest: seq<Bytes>, b: Byte, head: Byte)
    requires |rest| >= 1
    ensures Grown([[]] + rest, b) == [[]] + Grown(rest, b)
    ensures Grown([[head] + rest[0]] + rest[1..], b) == [[head] + Grown(rest, b)[0]] + Grown(rest, b)[1..]
  {
    if |rest| == 1 && b != NEWLINE {
      assert [head] + (rest[0] + [b]) == [head] + rest[0] + [b];
    }
  }

  lemma {:induction false} SplitSnoc(s: Bytes, b: Byte)
    ensures Split(s + [b], NEWLINE) == Grown(Split(s, NEWLINE), b)
  {
    if s == [] {
      assert s + [b] == [b] && [b][1..] == s;
      assert Split(s, NEWLINE) == [[]];
      assert [b] + [] == [b];
    } else {
      assert (s + [b])[1..] == s[1..] + [b];
      SplitSnoc(s[1..], b);
      GrownTail(Split(s[1..], NEWLINE), b, s[0]);
    }
  }

  lemma {:induction false} AppendPlain(file: Bytes, d: Bytes)
    requires NEWLINE !in d
    ensures Lines(file + d) == Lines(file) && Tail(file + d) == Tail(file) + d
  {
    if d == [] {
      assert file + d == file;
      assert Tail(file) + d == Tail(file);
    } else {
      var init, b := d[..|d| - 1], d[|d| - 1];
      AppendPlain(file, init);
      assert file + d == (file + init) + [b];
      SplitSnoc(file + init, b);
      assert Tail(file) + d == (Tail(file) + init) + [b];
    }
  }

  lemma AppendLine(file: Bytes, row: Bytes)
    requires NEWLINE !in row
    ensures Lines(file + Line(row)) == Lines(file) + [Tail(file) + row] && Tail(file + Line(row)) == []
  {
    AppendPlain(file, row);
    assert file + Line(row) == (file + row) + [NEWLINE];
    SplitSnoc(file + row, NEWLINE);
    var parts := Split(file + row, NEWLINE);
    assert parts == parts[..|parts| - 1] + [parts[|parts| - 1]];
  }

  /** One more call, seen by the reader. */
  lemma {:induction false} OneMoreAppend(log: seq<Append>)
    requires log != [] && AllAppends(log)
    ensures var before, last := FileAfter(log[..|log| - 1]), log[|log| - 1];
      if last.Full() then
        Lines(FileAfter(log)) == Lines(before) + [Tail(before) + last.row] && Tail(FileAfter(log)) == []
      else
        Lines(FileAfter(log)) == Lines(before) && Tail(FileAfter(log)) == Tail(before) + last.row[..last.wrote]
  {
    var before, last := FileAfter(log[..|log| - 1]), log[|log| - 1];
    OneMoreWrite(before, last);
  }

  lemma OneMoreWrite(before: Bytes, a: Append)
    requires a.Valid()
    ensures var after := before + Line(a.row)[..a.wrote];
      if a.Full() then Lines(after) == Lines(before) + [Tail(before) + a.row] && Tail(after) == []
      else Lines(after) == Lines(before) && Tail(after) == Tail(before) + a.row[..a.wrote]
  {
    if a.Full() {
      assert Line(a.row)[..a.wrote] == Line(a.row);
      AppendLine(before, a.row);
    } else {
      assert Line(a.row)[..a.wrote] == a.row[..a.wrote];
      AppendPlain(before, a.row[..a.wrote]);
    }
  }

  lemma {:induction false} TailIsWhatDangles(log: seq<Append>)
    requires AllAppends(log)
    ensures |Tail(FileAfter(log))| == Dangling(log)
    ensures |Lines(FileAfter(log))| == |Written(log)|
  {
    if log != [] {
      TailIsWhatDangles(log[..|log| - 1]);
      OneMoreAppend(log);
    }
  }

  lemma NoneJoinedSteps(log: seq<Append>)
    requires log != []
    ensures NoneJoined(log) <==>
            NoneJoined(log[..|log| - 1]) && (log[|log| - 1].Full() ==> Dangling(log[..|log| - 1]) == 0)
  {
    var init := log[..|log| - 1];
    forall i | 0 <= i < |init|
      ensures init[..i] == log[..i] && init[i] == log[i]
    {
    }
    if NoneJoined(log) {
      forall i | 0 <= i < |init| && init[i].Full()
        ensures Dangling(init[..i]) == 0
      {
        assert log[i].Full();
      }
    }
  }

  /** The lines of the file are the rows written to their newlines, all of them and in order, if
      and only if no row was appended to a torn one. */
  lemma {:induction false} LinesAreTheRowsIff(log: seq<Append>)
    requires AllAppends(log)
    ensures Lines(FileAfter(log)) == Written(log) <==> NoneJoined(log)
  {
    if log != [] {
      var init, last := log[..|log| - 1], log[|log| - 1];
      LinesAreTheRowsIff(init);
      TailIsWhatDangles(init);
      OneMoreAppend(log);
      NoneJoinedSteps(log);
      var before := FileAfter(init);
      if last.Full() {
        var mine, theirs := Lines(before) + [Tail(before) + last.row], Written(init) + [last.row];
        if mine == theirs {
          assert Lines(before) == mine[..|mine| - 1] && Written(init) == theirs[..|theirs| - 1];
          assert mine[|mine| - 1] == theirs[|theirs| - 1];
          assert |Tail(before)| == 0;
        }
        if |Tail(before)| == 0 {
          assert Tail(before) + last.row == last.row;
        }
      } else {
        assert Written(init) + [] == Written(init);
      }
    } else {
      assert Split([], NEWLINE) == [[]];
    }
  }

  /** How many of the rows before call `i` stand on lines of their own. */
  function RowsBefore(log: seq<Append>, i: nat): nat
    requires i <= |log|
  {
    |Written(log[..i])|
  }

  lemma {:induction false} WrittenKeepsPlaces(log: seq<Append>, i: nat)
    requires i < |log| && log[i].Full()
    ensures RowsBefore(log, i) < |Written(log)| && Written(log)[RowsBefore(log, i)] == log[i].row
    decreases |log|
  {
    var init := log[..|log| - 1];
    if i < |init| {
      WrittenKeepsPlaces(init, i);
      assert init[..i] == log[..i];
    }
  }

  /** So a row written to its newline is a line of its own. */
  lemma WrittenRowIsALine(log: seq<Append>, i: nat)
    requires AllAppends(log) && NoneJoined(log) && i < |log| && log[i].Full()
    ensures log[i].row in Lines(FileAfter(log))
  {
    LinesAreTheRowsIff(log);
    WrittenKeepsPlaces(log, i);
  }

  /** Crash recovery: when no earlier write was short, a crash at any byte of the last write, the last
      one and the wait for the sync included, leaves every acknowledged row on its own line, in order,
      and after them what the last write got to: a partial tail, or its own whole line. */
  lemma CrashLeavesEveryAcknowledgedRow(log: seq<Append>, row: Bytes, wrote: nat, i: nat)
    requires AllAppends(log) && NEWLINE !in row && wrote <= |Line(row)|
    requires forall j :: 0 <= j < |log| ==> log[j].Full()
    requires i < |log| && log[i].Acknowledged()
    ensures var crashed := log + [Append(row, wrote, false)];
      && AllAppends(crashed)
      && |Written(log)| == |log| && Written(log)[i] == log[i].row
      && Lines(FileAfter(crashed)) == (if wrote <= |row| then Written(log) else Written(log) + [row])
      && Tail(FileAfter(crashed)) == (if wrote <= |row| then row[..wrote] else [])
  {
    var crashed := log + [Append(row, wrote, false)];
    assert crashed[..|crashed| - 1] == log;
    NothingDangles(log);
    LinesAreTheRowsIff(log);
    TailIsWhatDangles(log);
    OneMoreAppend(crashed);
    assert Tail(FileAfter(log)) == [];
    assert [] + row == row && (wrote <= |row| ==> [] + row[..wrote] == row[..wrote]);
    WrittenKeepsPlaces(log, i);
    AllWritten(log[..i]);
    AllWritten(log);
  }

  lemma NothingDangles(log: seq<Append>)
    requires forall j :: 0 <= j < |log| ==> log[j].Full()
    ensures NoneJoined(log) && Dangling(log) == 0
  {
    forall i | 0 <= i < |log|
      ensures Dangling(log[..i]) == 0
    {
      if i > 0 {
        assert log[..i][i - 1] == log[i - 1];
      }
    }
  }

  lemma {:induction false} AllWritten(log: seq<Append>)
    requires forall j :: 0 <= j < |log| ==> log[j].Full()
    ensures |Written(log)| == |log|
  {
    if log != [] {
      AllWritten(log[..|log| - 1]);
    }
  }

  // ---------------------------------------------------------------- what a sync is for

  /** How many calls the last sync that succeeded covers; it comes only after a whole line. */
  function Synced(log: seq<Append>): (n: nat)
    ensures n <= |log|
  {
    if log == [] then 0
    else
      var last := log[|log| - 1];
      if last.wrote == |last.row| + 1 && last.synced then |log| else Synced(log[..|log| - 1])
  }

  /** What a power loss may leave: all that was there at the last successful sync, and after it
      anything at all. */
  predicate CanBeLeft(log: seq<Append>, file: Bytes)
    requires AllAppends(log)
  {
    FileAfter(log[..Synced(log)]) <= file
  }

  lemma {:induction false} AcknowledgedIsSynced(log: seq<Append>, i: nat)
    requires i < |log| && log[i].wrote == |log[i].row| + 1 && log[i].synced
    ensures i < Synced(log) && log[Synced(log) - 1].Full()
    decreases |log|
  {
    var last := log[|log| - 1];
    if !(last.wrote == |last.row| + 1 && last.synced) {
      AcknowledgedIsSynced(log[..|log| - 1], i);
    }
  }

  /** More bytes leave the lines before them as they are. */
  lemma {:induction false} LinesStay(file: Bytes, more: Bytes)
    ensures Lines(file) <= Lines(file + more)
    decreases |more|
  {
    if more == [] {
      assert file + more == file;
    } else {
      var init, b := more[..|more| - 1], more[|more| - 1];
      LinesStay(file, init);
      assert file + more == (file + init) + [b];
      SplitSnoc(file + init, b);
      var parts := Split(file + init, NEWLINE);
      assert parts == parts[..|parts| - 1] + [parts[|parts| - 1]];
    }
  }

  lemma NoneJoinedBefore(log: seq<Append>, n: nat)
    requires NoneJoined(log) && n <= |log|
    ensures NoneJoined(log[..n])
  {
    forall i | 0 <= i < n && log[..n][i].Full()
      ensures Dangling(log[..n][..i]) == 0
    {
      assert log[..n][..i] == log[..i] && log[i].Full();
    }
  }

  /** Whatever a power loss leaves, if no row had been written after a torn one, every row that Record
      returned nil for stands on its own line, and in its place. */
  lemma AcknowledgedRowsSurvive(log: seq<Append>, file: Bytes, i: nat)
    requires AllAppends(log) && NoneJoined(log) && CanBeLeft(log, file)
    requires i < |log| && log[i].wrote == |log[i].row| + 1 && log[i].synced
    ensures RowsBefore(log, i) < |Lines(file)| && Lines(file)[RowsBefore(log, i)] == log[i].row
  {
    var n := Synced(log);
    AcknowledgedIsSynced(log, i);
    NoneJoinedBefore(log, n);
    LinesAreTheRowsIff(log[..n]);
    assert log[..n][i] == log[i] && log[..n][..i] == log[..i];
    WrittenKeepsPlaces(log[..n], i);
    var kept := FileAfter(log[..n]);
    assert file == kept + file[|kept|..];
    LinesStay(kept, file[|kept|..]);
  }

  /** The condition is needed: a row acknowledged after a short write is on no line of its own. */
  lemma TornRowHidesTheNext(torn: Bytes, wrote: nat, row: Bytes)
    requires NEWLINE !in torn && NEWLINE !in row && 0 < wrote <= |torn|
    ensures var log := [Append(torn, wrote, false), Append(row, |row| + 1, true)];
      && AllAppends(log) && log[1].Acknowledged()
      && Lines(FileAfter(log)) == [torn[..wrote] + row]
      && row !in Lines(FileAfter(log))
  {
    var first := [Append(torn, wrote, false)];
    var log := first + [Append(row, |row| + 1, true)];
    assert log[..1] == first && first[..0] == [];
    assert Split([], NEWLINE) == [[]];
    OneMoreAppend(first);
    OneMoreAppend(log);
    assert [] + torn[..wrote] == torn[..wrote];
    assert |torn[..wrote] + row| > |row|;
  }
}
