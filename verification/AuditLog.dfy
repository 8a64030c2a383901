/** The hash-chained audit log (audit_log.py).

    SHA-256 is taken as a free constructor: equal hashes have equal inputs and
    no hash is part of itself. What `verify` finds, and what it cannot find,
    is stated for every log, tampered with or not. */
module AuditLog {

  /** The hashed columns of a row, the creation time among them. */
  datatype Entry = Entry(createdAt: int, actor: string, action: string, details: string)

  datatype Hash = Genesis | Digest(prev: Hash, entry: Entry)

  datatype Row = Row(id: nat, entry: Entry, prevHash: Hash, rowHash: Hash)

  type Log = seq<Row>

  // ------------------------------------------------------------------ intact

  predicate OwnHash(row: Row) {
    row.rowHash == Digest(row.prevHash, row.entry)
  }

  /** The row at i follows the one before it, and its hash is its own. */
  predicate Follows(log: Log, i: nat)
    requires i < |log|
  {
    (i > 0 ==> log[i].prevHash == log[i - 1].rowHash) && OwnHash(log[i])
  }

  predicate Intact(log: Log) {
    forall i | 0 <= i < |log| :: Follows(log, i)
  }

  predicate IdsRise(log: Log) {
    forall i, j | 0 <= i < j < |log| :: log[i].id < log[j].id
  }

  datatype Reason = RowRemoved | RowEdited

  datatype Finding = Fine(checked: nat) | Broken(checked: nat, at: nat, reason: Reason)

  /** The first row that does not follow. */
  ghost predicate BreaksFirstAt(log: Log, i: nat) {
    i < |log| && !Follows(log, i) && forall j | 0 <= j < i :: Follows(log, j)
  }

  /** A well-formed log: rising ids below the next one, and an unbroken chain. */
  ghost predicate Good(log: Log, nextId: nat) {
    IdsRise(log) && (forall i | 0 <= i < |log| :: log[i].id < nextId) && Intact(log)
  }

  function LastHash(log: Log): Hash {
    if log == [] then Genesis else log[|log| - 1].rowHash
  }

  function Appended(log: Log, nextId: nat, entry: Entry): Log {
    log + [Row(nextId, entry, LastHash(log), Digest(LastHash(log), entry))]
  }

  function Purged(log: Log, cutoff: int): Log {
    if log == [] then []
    else
      var last := log[|log| - 1];
      Purged(log[..|log| - 1], cutoff) + if last.entry.createdAt < cutoff then [] else [last]
  }

  /** A purge keeps exactly the entries from the moment on. */
  lemma {:induction false} PurgedIs(log: Log, cutoff: int)
    ensures forall row :: row in Purged(log, cutoff) <==> row in log && row.entry.createdAt >= cutoff
    ensures |Purged(log, cutoff)| <= |log|
    ensures |Purged(log, cutoff)| == |log| <==> forall row | row in log :: row.entry.createdAt >= cutoff
    decreases |log|
  {
    if log != [] {
      var (init, last) := (log[..|log| - 1], log[|log| - 1]);
      assert log == init + [last];
      PurgedIs(init, cutoff);
    }
  }

  lemma AppendedGood(log: Log, nextId: nat, entry: Entry)
    requires Good(log, nextId)
    ensures Good(Appended(log, nextId, entry), nextId + 1)
  {
    var longer := Appended(log, nextId, entry);
    forall i | 0 <= i < |longer| ensures Follows(longer, i) {
      if i < |log| { assert Follows(log, i); }
    }
  }

  class Audit {
    var rows: Log
    var nextId: nat

    constructor ()
      ensures Good(rows, nextId) && rows == []
    {
      rows, nextId := [], 0;
    }

    /** Append one entry; a write that fails leaves the log alone. */
    method Record(entry: Entry, fails: bool) returns (recorded: bool)
      modifies this
      ensures recorded == !fails
      ensures rows == if fails then old(rows) else Appended(old(rows), old(nextId), entry)
      ensures nextId == if fails then old(nextId) else old(nextId) + 1
      ensures !fails ==>
        && rows != [] && rows[..|rows| - 1] == old(rows)
        && rows[|rows| - 1].entry == entry && rows[|rows| - 1].id == old(nextId)
      ensures old(Good(rows, nextId)) ==> Good(rows, nextId)
    {
      if fails { return false; }
      var prevHash := if rows == [] then Genesis else rows[|rows| - 1].rowHash;
      if Good(rows, nextId) { AppendedGood(rows, nextId, entry); }
      rows := rows + [Row(nextId, entry, prevHash, Digest(prevHash, entry))];
      nextId := nextId + 1;
      recorded := true;
    }

    /** Walk the chain: the number of rows that follow, and the first that does not. */
    method Verify() returns (finding: Finding)
      ensures finding.Fine? <==> Intact(rows)
      ensures finding.Fine? ==> finding.checked == |rows|
      ensures finding.Broken? ==>
        && BreaksFirstAt(rows, finding.checked) && finding.at == rows[finding.checked].id
        && (finding.reason == RowEdited <==>
            finding.checked == 0 || rows[finding.checked].prevHash == rows[finding.checked - 1].rowHash)
    {
      var prev := Genesis;
      for i := 0 to |rows|
        invariant forall j | 0 <= j < i :: Follows(rows, j)
        invariant i > 0 ==> prev == rows[i - 1].rowHash
      {
        var row := rows[i];
        if (i > 0 && row.prevHash != prev) || !OwnHash(row) { assert !Follows(rows, i); }
        if i > 0 && row.prevHash != prev { return Broken(i, row.id, RowRemoved); }
        if Digest(row.prevHash, row.entry) != row.rowHash { return Broken(i, row.id, RowEdited); }
        prev := row.rowHash;
      }
      return Fine(|rows|);
    }

    /** Remove the entries before a moment, and record that as an entry of its own. */
    method PurgeOlderThan(cutoff: int, note: Entry, fails: bool) returns (removed: nat)
      modifies this
      ensures removed == |old(rows)| - |Purged(old(rows), cutoff)|
      ensures rows == if removed == 0 || fails then Purged(old(rows), cutoff)
                      else Appended(Purged(old(rows), cutoff), old(nextId), note)
      ensures nextId == if removed == 0 || fails then old(nextId) else old(nextId) + 1
      ensures removed == 0 <==> forall row | row in old(rows) :: row.entry.createdAt >= cutoff
    {
      PurgedIs(rows, cutoff);
      var kept: Log := [];
      for i := 0 to |rows|
        invariant rows == old(rows) && nextId == old(nextId)
        invariant kept == Purged(rows[..i], cutoff) && |kept| <= i
      {
        assert rows[..i + 1][..i] == rows[..i];
        if rows[i].entry.createdAt >= cutoff { kept := kept + [rows[i]]; }
      }
      assert rows[..|rows|] == rows;
      removed := |rows| - |kept|;
      rows := kept;
      if removed > 0 { var _ := Record(note, fails); }
    }
  }

  // ------------------------------------------------- what the chain pins down

  /** Two intact logs of the same length that end in the same hash agree on
      every hashed column of every row. */
  lemma {:induction false} LastHashPinsLog(a: Log, b: Log)
    requires Intact(a) && Intact(b) && |a| == |b| && a != []
    requires a[|a| - 1].rowHash == b[|b| - 1].rowHash
    ensures forall i | 0 <= i < |a| ::
      a[i].entry == b[i].entry && a[i].prevHash == b[i].prevHash && a[i].rowHash == b[i].rowHash
    decreases |a|
  {
    var n := |a| - 1;
    assert Follows(a, n) && Follows(b, n);
    if n > 0 {
      var (c, d) := (a[..n], b[..n]);
      assert forall i | 0 <= i < n :: Follows(a, i) && Follows(b, i) && c[i] == a[i] && d[i] == b[i];
      LastHashPinsLog(c, d);
    }
  }

  /** Editing what a row says, its hashes left as they were, is reported at
      that very row. */
  lemma EditIsFound(log: Log, i: nat, entry: Entry)
    requires Intact(log) && i < |log| && entry != log[i].entry
    ensures BreaksFirstAt(log[i := log[i].(entry := entry)], i)
  {
    var edited := log[i := log[i].(entry := entry)];
    assert Follows(log, i);
    forall j | 0 <= j < i ensures Follows(edited, j) { assert Follows(log, j); }
  }

  /** Editing a row and giving it a hash of its own again is reported at the
      row after it; only at the end of the log does it go unseen. */
  lemma RehashedEditIsFound(log: Log, i: nat, entry: Entry)
    requires Intact(log) && i < |log| && entry != log[i].entry
    ensures var edited := log[i := log[i].(entry := entry, rowHash := Digest(log[i].prevHash, entry))];
      if i + 1 < |log| then BreaksFirstAt(edited, i + 1) else Intact(edited)
  {
    var edited := log[i := log[i].(entry := entry, rowHash := Digest(log[i].prevHash, entry))];
    assert Follows(log, i);
    forall j | 0 <= j <= i ensures Follows(edited, j) { assert Follows(log, j); }
    if i + 1 < |log| { assert Follows(log, i + 1); }
  }

  function Size(h: Hash): nat {
    match h
    case Genesis => 0
    case Digest(prev, _) => 1 + Size(prev)
  }

  /** Along an intact log the hashes only grow. */
  lemma {:induction false} HashesGrow(log: Log, i: nat, j: nat)
    requires Intact(log) && i < j < |log|
    ensures Size(log[j].prevHash) > Size(log[i].prevHash) && Size(log[j].prevHash) >= Size(log[i].rowHash)
    ensures log[j].prevHash == log[i].rowHash <==> j == i + 1
    decreases j - i
  {
    assert Follows(log, j) && Follows(log, i);
    if j > i + 1 { HashesGrow(log, i, j - 1); assert Follows(log, j - 1); }
  }

  function Without(log: Log, i: nat, j: nat): Log
    requires i <= j <= |log|
  {
    log[..i] + log[j..]
  }

  /** Removing rows from an intact log is found, at the first row after the
      gap, exactly when rows remain on both sides of it. */
  lemma RemovalFoundIff(log: Log, i: nat, j: nat)
    requires Intact(log) && i < j <= |log|
    ensures !Intact(Without(log, i, j)) <==> 0 < i && j < |log|
    ensures 0 < i && j < |log| ==> BreaksFirstAt(Without(log, i, j), i)
  {
    var left := Without(log, i, j);
    forall k | 0 <= k < i ensures Follows(left, k) { assert Follows(log, k); }
    if 0 < i && j < |log| {
      HashesGrow(log, i - 1, j);
      assert left[i] == log[j] && left[i - 1] == log[i - 1];
      assert !Follows(left, i);
    } else {
      forall k | i <= k < |left| ensures Follows(left, k) { assert Follows(log, k + j - i); }
    }
  }

  // ------------------------------------------------------------------- purges

  /** The rows that stay lie side by side: no removed row stands between two
      rows that are kept. */
  predicate NoGap(log: Log, cutoff: int) {
    forall i, k, j | 0 <= i < k < j < |log| ::
      log[i].entry.createdAt >= cutoff && log[j].entry.createdAt >= cutoff ==> log[k].entry.createdAt >= cutoff
  }

  predicate TimesRise(log: Log) {
    forall i, j | 0 <= i < j < |log| :: log[i].entry.createdAt <= log[j].entry.createdAt
  }

  /** The positions of the rows a purge keeps. */
  ghost function Kept(log: Log, cutoff: int): (from: seq<nat>)
    ensures |from| == |Purged(log, cutoff)|
    ensures forall i | 0 <= i < |from| :: from[i] < |log|
  {
    if log == [] then []
    else
      var last := log[|log| - 1];
      Kept(log[..|log| - 1], cutoff) + if last.entry.createdAt < cutoff then [] else [|log| - 1]
  }

  lemma {:induction false} KeptRows(log: Log, cutoff: int, i: nat)
    requires i < |Kept(log, cutoff)|
    ensures Purged(log, cutoff)[i] == log[Kept(log, cutoff)[i]]
    ensures log[Kept(log, cutoff)[i]].entry.createdAt >= cutoff
    ensures i > 0 ==> Kept(log, cutoff)[i - 1] < Kept(log, cutoff)[i]
    decreases |log|
  {
    var rest := Kept(log[..|log| - 1], cutoff);
    if i < |rest| {
      KeptRows(log[..|log| - 1], cutoff, i);
    } else if i > 0 {
      KeptRows(log[..|log| - 1], cutoff, i - 1);
    }
  }

  lemma {:induction false} KeptIndex(log: Log, cutoff: int, k: nat) returns (i: nat)
    requires k < |log| && log[k].entry.createdAt >= cutoff
    ensures i < |Kept(log, cutoff)| && Kept(log, cutoff)[i] == k
    decreases |log|
  {
    if k == |log| - 1 {
      i := |Kept(log[..|log| - 1], cutoff)|;
    } else {
      i := KeptIndex(log[..|log| - 1], cutoff, k);
    }
  }

  lemma {:induction false} KeptRises(log: Log, cutoff: int, i: nat, j: nat)
    requires i < j < |Kept(log, cutoff)|
    ensures Kept(log, cutoff)[i] < Kept(log, cutoff)[j]
    decreases j
  {
    KeptRows(log, cutoff, j);
    if i < j - 1 { KeptRises(log, cutoff, i, j - 1); }
  }

  lemma NoGapStaysIntact(log: Log, cutoff: int)
    requires Intact(log) && NoGap(log, cutoff)
    ensures Intact(Purged(log, cutoff))
  {
    hide Kept, Purged;
    var from := Kept(log, cutoff);
    forall i | 0 <= i < |from| ensures Follows(Purged(log, cutoff), i) {
      KeptRows(log, cutoff, i);
      assert Follows(log, from[i]);
      if i > 0 {
        KeptRows(log, cutoff, i - 1);
        var k := from[i] - 1;
        if from[i - 1] < k {
          assert log[k].entry.createdAt >= cutoff;
          var m := KeptIndex(log, cutoff, k);
          if m < i - 1 { KeptRises(log, cutoff, m, i - 1); }
          if m > i { KeptRises(log, cutoff, i, m); }
          assert false;
        }
      }
    }
  }

  lemma GapBreaks(log: Log, cutoff: int, i: nat, k: nat, j: nat)
    requires Intact(log) && i < k < j < |log|
    requires log[i].entry.createdAt >= cutoff && log[j].entry.createdAt >= cutoff && log[k].entry.createdAt < cutoff
    ensures !Intact(Purged(log, cutoff))
  {
    hide Kept, Purged;
    var from := Kept(log, cutoff);
    var a := KeptIndex(log, cutoff, i);
    var b := KeptIndex(log, cutoff, j);
    forall m, n | 0 <= m < n < |from| ensures from[m] < from[n] { KeptRises(log, cutoff, m, n); }
    forall m | 0 <= m < |from| ensures from[m] != k { KeptRows(log, cutoff, m); }
    assert a < b;
    var c := GapAt(from, a, b, k);
    KeptRows(log, cutoff, c);
    KeptRows(log, cutoff, c + 1);
    HashesGrow(log, from[c], from[c + 1]);
    assert !Follows(Purged(log, cutoff), c + 1);
  }

  /** A purge leaves an intact log intact exactly when the rows it keeps lie
      side by side. */
  lemma PurgeIntactIff(log: Log, cutoff: int)
    requires Intact(log)
    ensures Intact(Purged(log, cutoff)) <==> NoGap(log, cutoff)
  {
    hide Purged, Intact;
    if NoGap(log, cutoff) {
      NoGapStaysIntact(log, cutoff);
    } else {
      var i, k, j :| 0 <= i < k < j < |log| && log[i].entry.createdAt >= cutoff && log[j].entry.createdAt >= cutoff
                     && log[k].entry.createdAt < cutoff;
      GapBreaks(log, cutoff, i, k, j);
    }
  }

  /** Somewhere between two kept rows the walk steps over k. */
  lemma {:induction false} GapAt(from: seq<nat>, a: nat, b: nat, k: nat) returns (c: nat)
    requires a < b < |from| && from[a] < k < from[b] && k !in from
    requires forall i, j | 0 <= i < j < |from| :: from[i] < from[j]
    ensures c + 1 < |from| && from[c] < k < from[c + 1]
    decreases b - a
  {
    if from[a + 1] > k { c := a; } else { c := GapAt(from, a + 1, b, k); }
  }

  ghost predicate InThisOrder(log: Log, x: Row, y: Row) {
    exists a, b :: 0 <= a < b < |log| && x == log[a] && y == log[b]
  }

  lemma PurgedRows(log: Log, cutoff: int)
    ensures forall row | row in Purged(log, cutoff) :: row in log
    ensures forall i, j | 0 <= i < j < |Purged(log, cutoff)| ::
      InThisOrder(log, Purged(log, cutoff)[i], Purged(log, cutoff)[j])
  {
    hide Kept, Purged;
    var kept, from := Purged(log, cutoff), Kept(log, cutoff);
    forall i | 0 <= i < |kept| ensures kept[i] in log { KeptRows(log, cutoff, i); }
    forall i, j | 0 <= i < j < |kept|
      ensures InThisOrder(log, kept[i], kept[j])
    {
      KeptRows(log, cutoff, i);
      KeptRows(log, cutoff, j);
      KeptRises(log, cutoff, i, j);
      assert 0 <= from[i] < from[j] < |log| && kept[i] == log[from[i]] && kept[j] == log[from[j]];
    }
  }

  /** With times that rise with the ids, as long as rows are stored in the
      order they were stamped, every purge keeps the log good, its own entry
      included. */
  lemma PurgeInOrder(log: Log, nextId: nat, cutoff: int, note: Entry)
    requires Good(log, nextId) && TimesRise(log)
    ensures Good(Purged(log, cutoff), nextId) && TimesRise(Purged(log, cutoff))
    ensures Good(Appended(Purged(log, cutoff), nextId, note), nextId + 1)
  {
    hide Purged, Intact, Appended;
    PurgeIntactIff(log, cutoff);
    PurgedRows(log, cutoff);
    var kept := Purged(log, cutoff);
    forall i | 0 <= i < |kept| ensures kept[i].id < nextId { assert kept[i] in kept; }
    AppendedGood(Purged(log, cutoff), nextId, note);
  }

  lemma EmptyIsGood()
    ensures Good([], 0)
  {
  }

  // ------------------------------------------------------------ whole histories

  datatype Step = Recorded(entry: Entry) | FailedWrite | Purge(cutoff: int, note: Entry)

  /** The log and the next id after a history of recording and purging. */
  function After(steps: seq<Step>): (Log, nat) {
    if steps == [] then ([], 0)
    else
      var (log, nextId) := After(steps[..|steps| - 1]);
      match steps[|steps| - 1]
      case Recorded(entry) => (Appended(log, nextId, entry), nextId + 1)
      case FailedWrite => (log, nextId)
      case Purge(cutoff, note) =>
        if |Purged(log, cutoff)| == |log| then (log, nextId)
        else (Appended(Purged(log, cutoff), nextId, note), nextId + 1)
  }

  /** Each entry is stamped no earlier than the ones before it. */
  predicate StampedInOrder(steps: seq<Step>) {
    forall i, j | 0 <= i < j < |steps| && !steps[i].FailedWrite? && !steps[j].FailedWrite? ::
      Stamp(steps[i]) <= Stamp(steps[j])
  }

  function Stamp(s: Step): int {
    match s
    case Recorded(entry) => entry.createdAt
    case FailedWrite => 0
    case Purge(_, note) => note.createdAt
  }

  ghost predicate StampedBy(row: Row, steps: seq<Step>) {
    exists k :: 0 <= k < |steps| && !steps[k].FailedWrite? && Stamp(steps[k]) == row.entry.createdAt
  }

  lemma StampedLater(row: Row, steps: seq<Step>)
    requires steps != [] && StampedBy(row, steps[..|steps| - 1]) && StampedInOrder(steps)
    ensures StampedBy(row, steps)
    ensures !steps[|steps| - 1].FailedWrite? ==> row.entry.createdAt <= Stamp(steps[|steps| - 1])
  {
    var before := steps[..|steps| - 1];
    var k :| 0 <= k < |before| && !before[k].FailedWrite? && Stamp(before[k]) == row.entry.createdAt;
    assert steps[k] == before[k];
  }

  /** Every log that recording and purging produce, stamped in order, verifies
      from end to end. */
  lemma {:induction false} HistoryVerifies(steps: seq<Step>)
    requires StampedInOrder(steps)
    ensures Good(After(steps).0, After(steps).1) && TimesRise(After(steps).0)
    ensures forall row | row in After(steps).0 :: StampedBy(row, steps)
    decreases |steps|
  {
    hide Purged, Intact, Stamp, StampedBy;
    if steps == [] {
      EmptyIsGood();
    } else {
      var before, step := steps[..|steps| - 1], steps[|steps| - 1];
      HistoryVerifies(before);
      var (log, nextId) := After(before);
      forall row | row in log
        ensures StampedBy(row, steps) && (!step.FailedWrite? ==> row.entry.createdAt <= Stamp(step))
      {
        StampedLater(row, steps);
      }
      match step
      case FailedWrite =>
      case Recorded(entry) =>
        AppendedGood(log, nextId, entry);
        NewestStamped(steps);
      case Purge(cutoff, note) =>
        PurgeInOrder(log, nextId, cutoff, note);
        PurgedRows(log, cutoff);
        NewestStamped(steps);
    }
  }

  lemma NewestStamped(steps: seq<Step>)
    requires steps != [] && !steps[|steps| - 1].FailedWrite?
    ensures var step := steps[|steps| - 1];
      && (step.Recorded? ==> Stamp(step) == step.entry.createdAt)
      && (step.Purge? ==> Stamp(step) == step.note.createdAt)
      && forall row: Row | row.entry.createdAt == Stamp(step) :: StampedBy(row, steps)
  {
  }

  /** Recording alone needs no order of the stamps: whatever they are, every
      entry written is in the log and all of it verifies. */
  lemma {:induction false} RecordsVerify(steps: seq<Step>)
    requires forall i | 0 <= i < |steps| :: !steps[i].Purge?
    ensures Good(After(steps).0, After(steps).1)
    ensures |After(steps).0| == After(steps).1
    ensures forall i | 0 <= i < |steps| && steps[i].Recorded? ::
      exists row :: row in After(steps).0 && row.entry == steps[i].entry
    decreases |steps|
  {
    hide Intact;
    if steps == [] {
      EmptyIsGood();
    } else {
      var n := |steps| - 1;
      var before := steps[..n];
      RecordsVerify(before);
      var (log, nextId) := After(before);
      if steps[n].Recorded? { AppendedGood(log, nextId, steps[n].entry); }
      var longer := After(steps).0;
      forall i | 0 <= i < |steps| && steps[i].Recorded?
        ensures exists row :: row in longer && row.entry == steps[i].entry
      {
        if i < n {
          assert before[i] == steps[i];
          var row :| row in log && row.entry == steps[i].entry;
          assert row in longer;
        } else {
          assert longer[|longer| - 1] in longer;
        }
      }
    }
  }

  function Records(entries: seq<Entry>): seq<Step> {
    seq(|entries|, i requires 0 <= i < |entries| => Recorded(entries[i]))
  }

  /** What is recorded stands in the log in the order it was recorded. */
  lemma {:induction false} EntriesRecorded(entries: seq<Entry>)
    ensures var log := After(Records(entries)).0;
      |log| == |entries| && forall i | 0 <= i < |log| :: log[i].entry == entries[i]
    decreases |entries|
  {
    if entries != [] {
      var before := entries[..|entries| - 1];
      assert Records(entries)[..|entries| - 1] == Records(before);
      EntriesRecorded(before);
    }
  }

  /** Two requests stamped in one order and stored in the other are enough
      for a purge to read as tampering: three entries recorded, the second
      stamped before the first, and a purge of what is before the first. */
  lemma PurgeOutOfOrder()
    ensures var (a, b, c) := (Entry(5, "", "", ""), Entry(3, "", "", ""), Entry(6, "", "", ""));
      var (log, nextId) := After([Recorded(a), Recorded(b), Recorded(c)]);
      Good(log, nextId) && !Intact(Purged(log, 4))
  {
    var (a, b, c) := (Entry(5, "", "", ""), Entry(3, "", "", ""), Entry(6, "", "", ""));
    var steps := [Recorded(a), Recorded(b), Recorded(c)];
    var log := After(steps).0;
    RecordsVerify(steps);
    EntriesRecorded([a, b, c]);
    assert Records([a, b, c]) == steps;
    hide Purged, Intact, After;
    PurgeIntactIff(log, 4);
    assert log[0].entry == a && log[1].entry == b && log[2].entry == c;
  }
}
