/** The local copy of the CVE data (cve_feed.py): writing one product's
    records, paging through an answer, and what a run of full syncs,
    overlapping increments and failed attempts leaves in the tables. */
module CveStore {
  import opened Common
  import opened CveVersions

  type Product = string
  type CveId = string

  /** What is kept of a record beside its ranges. */
  datatype Item = Item(published: string, modified: int, kev: bool)

  /** One record as a product's sync sees it: the ranges are those it gives
      for that product. */
  datatype Record = Record(id: CveId, rejected: bool, modified: int, item: Item, ranges: seq<Range>)

  datatype State = State(items: map<CveId, Item>, rows: map<(Product, CveId), seq<Range>>, cursors: map<Product, int>)

  /** The rows held for one CVE of one product. */
  function Held(s: State, p: Product, id: CveId): seq<Range> {
    if (p, id) in s.rows then s.rows[(p, id)] else []
  }

  /** The ids that have rows, for whichever product. */
  function Named(s: State): set<CveId> {
    set k | k in s.rows :: k.1
  }

  /** Every row belongs to an item and every item has a row, so that joining
      the two tables drops nothing. */
  ghost predicate Joined(s: State) {
    && (forall k | k in s.rows :: s.rows[k] != [])
    && s.items.Keys == Named(s)
  }

  // ----------------------------------------------------------------- writing

  function WithoutProduct(s: State, p: Product): State {
    s.(rows := map k | k in s.rows && k.0 != p :: s.rows[k])
  }

  function StoreOne(s: State, p: Product, rec: Record): State {
    if rec.id == "" then s
    else
      var rest := s.(rows := s.rows - {(p, rec.id)});
      if rec.rejected then rest
      else
        rest.(items := rest.items[rec.id := rec.item],
              rows := if rec.ranges == [] then rest.rows else rest.rows[(p, rec.id) := rec.ranges])
  }

  function StoreAll(s: State, p: Product, records: seq<Record>): State {
    if records == [] then s
    else StoreOne(StoreAll(s, p, records[..|records| - 1]), p, records[|records| - 1])
  }

  function Prune(s: State): State {
    s.(items := map id | id in s.items && id in Named(s) :: s.items[id])
  }

  function Stored(s: State, p: Product, records: seq<Record>, full: bool): State {
    Prune(StoreAll(if full then WithoutProduct(s, p) else s, p, records))
  }

  class CveTables {
    var items: map<CveId, Item>
    var rows: map<(Product, CveId), seq<Range>>
    var cursors: map<Product, int>

    ghost function Model(): State
      reads this
    {
      State(items, rows, cursors)
    }

    /** In full, everything the product had goes first; else only what there
        was of the CVEs written, a rejected one leaving nothing. */
    method Store(p: Product, records: seq<Record>, full: bool) returns (count: nat)
      modifies this`items, this`rows
      ensures Model() == Stored(old(Model()), p, records, full)
      ensures count == |set k | k in rows && k.0 == p|
    {
      if full { rows := map k | k in rows && k.0 != p :: rows[k]; }
      ghost var before := Model();
      for i := 0 to |records|
        invariant Model() == StoreAll(before, p, records[..i])
      {
        var rec := records[i];
        assert records[..i + 1][..i] == records[..i];
        if rec.id == "" { continue; }
        rows := rows - {(p, rec.id)};
        if rec.rejected { continue; }
        items := items[rec.id := rec.item];
        if rec.ranges != [] { rows := rows[(p, rec.id) := rec.ranges]; }
      }
      assert records[..|records|] == records;
      var named := set k | k in rows :: k.1;
      items := map id | id in items && id in named :: items[id];
      var held := set k | k in rows && k.0 == p;
      count := |held|;
    }

    /** One product's turn: in full the first time or when its cursor is too
        old, else what changed since an hour before it. A failed fetch leaves
        everything as it was. */
    method Sync(p: Product, now: int, answer: Option<seq<Record>>)
      modifies this
      ensures Model() == Synced(old(Model()), p, now, answer)
      ensures cursors == if answer.None? then old(cursors) else old(cursors)[p := now]
      ensures answer.None? ==> rows == old(rows) && items == old(items)
    {
      var since := if p in cursors && now - cursors[p] < MAX_INCREMENT then Some(cursors[p] - OVERLAP) else None;
      if answer.None? { return; }
      var _ := Store(p, answer.value, since.None?);
      cursors := cursors[p := now];
    }
  }

  const MAX_INCREMENT: int := 119 * 24 * 3600
  const OVERLAP: int := 3600

  /** From when on changes are asked for; none asks for everything. */
  function Since(s: State, p: Product, now: int): Option<int> {
    if p in s.cursors && now - s.cursors[p] < MAX_INCREMENT then Some(s.cursors[p] - OVERLAP) else None
  }

  /** Changes are asked for from an hour before the last read, if that is less
      than 119 days ago. */
  lemma SinceIs(s: State, p: Product, now: int)
    ensures Since(s, p, now).Some? <==> p in s.cursors && now < s.cursors[p] + 10281600
    ensures Since(s, p, now).Some? ==> Since(s, p, now).value == s.cursors[p] - 3600
  {
  }

  function Synced(s: State, p: Product, now: int, answer: Option<seq<Record>>): State {
    match answer
    case None => s
    case Some(records) => Stored(s, p, records, Since(s, p, now).None?).(cursors := s.cursors[p := now])
  }

  // -------------------------------------------------- what writing amounts to

  /** The last record of an id in the list. */
  function Latest(records: seq<Record>, id: CveId): Option<Record> {
    if records == [] then None
    else if records[|records| - 1].id == id && id != "" then Some(records[|records| - 1])
    else Latest(records[..|records| - 1], id)
  }

  function RowsOf(rec: Record): seq<Range> {
    if rec.rejected then [] else rec.ranges
  }

  lemma {:induction false} StoreAllHeld(s: State, p: Product, records: seq<Record>, q: Product, id: CveId)
    ensures Held(StoreAll(s, p, records), q, id)
         == if q == p && Latest(records, id).Some? then RowsOf(Latest(records, id).value) else Held(s, q, id)
    ensures StoreAll(s, p, records).cursors == s.cursors
    decreases |records|
  {
    if records != [] {
      StoreAllHeld(s, p, records[..|records| - 1], q, id);
    }
  }

  /** After a write, each CVE of the product holds the ranges of its last
      record, or none when that was rejected; one without a record is as it
      was, or gone after a full sync; no other product's rows change. */
  lemma StoredHeld(s: State, p: Product, records: seq<Record>, full: bool, q: Product, id: CveId)
    ensures Held(Stored(s, p, records, full), q, id)
         == if q != p then Held(s, q, id)
            else if Latest(records, id).Some? then RowsOf(Latest(records, id).value)
            else if full then [] else Held(s, q, id)
  {
    StoreAllHeld(if full then WithoutProduct(s, p) else s, p, records, q, id);
  }

  /** The i-th record is the last of this CVE. */
  predicate LastOf(records: seq<Record>, id: CveId, i: nat) {
    && i < |records| && id != "" && records[i].id == id
    && forall j | i < j < |records| :: records[j].id != id
  }

  /** After a write a CVE has the ranges of its last record, if that was not
      rejected, and else none. */
  lemma RejectedHasNone(s: State, p: Product, records: seq<Record>, full: bool, id: CveId, i: nat)
    requires LastOf(records, id, i)
    ensures Held(Stored(s, p, records, full), p, id) == if records[i].rejected then [] else records[i].ranges
  {
    StoredHeld(s, p, records, full, p, id);
    LatestIs(records, id, i);
  }

  lemma {:induction false} LatestIs(records: seq<Record>, id: CveId, i: nat)
    requires LastOf(records, id, i)
    ensures Latest(records, id) == Some(records[i])
    decreases |records|
  {
    if i < |records| - 1 {
      var init := records[..|records| - 1];
      assert forall j | 0 <= j < |init| :: init[j] == records[j];
      LatestIs(init, id, i);
    }
  }

  /** The i-th record is the last of this CVE that was not rejected. */
  predicate LastKept(records: seq<Record>, id: CveId, i: nat) {
    && i < |records| && id != "" && records[i].id == id && !records[i].rejected
    && forall j | i < j < |records| :: records[j].id != id || records[j].rejected
  }

  lemma {:induction false} StoreAllItems(s: State, p: Product, records: seq<Record>, id: CveId)
    ensures var t := StoreAll(s, p, records);
      && (forall i: nat | LastKept(records, id, i) :: id in t.items && t.items[id] == records[i].item)
      && ((forall i: nat :: !LastKept(records, id, i)) ==>
            (id in t.items <==> id in s.items) && (id in s.items ==> t.items[id] == s.items[id]))
    decreases |records|
  {
    if records != [] {
      var (init, last) := (records[..|records| - 1], records[|records| - 1]);
      StoreAllItems(s, p, init, id);
      forall i: nat | i < |init| && !(last.id == id && !last.rejected)
        ensures LastKept(records, id, i) <==> LastKept(init, id, i)
      {
        assert records[i] == init[i];
        assert forall j | i < j < |init| :: records[j] == init[j];
      }
      if id != "" && last.id == id && !last.rejected { assert LastKept(records, id, |records| - 1); }
    }
  }

  /** After a write an item is that of the CVE's last record that was not
      rejected; without such a record it is as it was. */
  lemma StoredItems(s: State, p: Product, records: seq<Record>, full: bool, id: CveId)
    requires id in Stored(s, p, records, full).items
    ensures forall i: nat | LastKept(records, id, i) :: Stored(s, p, records, full).items[id] == records[i].item
    ensures (forall i: nat :: !LastKept(records, id, i)) ==>
      id in s.items && Stored(s, p, records, full).items[id] == s.items[id]
  {
    StoreAllItems(if full then WithoutProduct(s, p) else s, p, records, id);
    hide StoreAll, LastKept;
  }

  ghost predicate Covered(s: State) {
    (forall k | k in s.rows :: s.rows[k] != []) && Named(s) <= s.items.Keys
  }

  lemma {:induction false} StoreAllCovered(s: State, p: Product, records: seq<Record>)
    requires Covered(s)
    ensures Covered(StoreAll(s, p, records))
    decreases |records|
  {
    if records != [] {
      var before := StoreAll(s, p, records[..|records| - 1]);
      StoreAllCovered(s, p, records[..|records| - 1]);
      var after := StoreAll(s, p, records);
      forall id | id in Named(after) ensures id in after.items {
        var k :| k in after.rows && k.1 == id;
        if k in before.rows { assert id in Named(before); }
      }
    }
  }

  /** Whatever is written, in whichever mode: the items are exactly the ids
      that have ranges. */
  lemma StoredJoined(s: State, p: Product, records: seq<Record>, full: bool)
    requires Joined(s)
    ensures Joined(Stored(s, p, records, full))
  {
    var start := if full then WithoutProduct(s, p) else s;
    assert Covered(start) by {
      forall id | id in Named(start) ensures id in start.items {
        var k :| k in start.rows && k.1 == id;
        assert k in s.rows;
      }
    }
    StoreAllCovered(start, p, records);
    var written := StoreAll(start, p, records);
    assert Named(Prune(written)) == Named(written);
  }

  // ---------------------------------------------------------- the run of syncs

  /** The feed of one product: its records as they are at some moment. */
  type Feed = m: map<CveId, Record> | forall id | id in m :: m[id].id == id && id != "" witness map[]

  function FeedRows(feed: Feed, id: CveId): seq<Range> {
    if id in feed then RowsOf(feed[id]) else []
  }

  /** The product's rows are those of the feed, CVE by CVE. */
  ghost predicate Mirrors(s: State, p: Product, feed: Feed) {
    forall id :: Held(s, p, id) == FeedRows(feed, id)
  }

  /** The records answered are current. */
  predicate Current(feed: Feed, records: seq<Record>) {
    forall rec | rec in records :: rec.id in feed && feed[rec.id] == rec
  }

  lemma {:induction false} LatestCurrent(feed: Feed, records: seq<Record>, id: CveId)
    requires Current(feed, records)
    ensures Latest(records, id).Some? <==> id in feed && feed[id] in records
    ensures Latest(records, id).Some? ==> Latest(records, id).value == feed[id]
    decreases |records|
  {
    if records != [] {
      assert records == records[..|records| - 1] + [records[|records| - 1]];
      LatestCurrent(feed, records[..|records| - 1], id);
    }
  }

  /** An increment brings the copy up to date exactly when every CVE whose
      ranges are no longer those of the copy is among the records answered. */
  lemma IncrementExact(s: State, p: Product, was: Feed, next: Feed, records: seq<Record>)
    requires Mirrors(s, p, was) && Current(next, records)
    ensures Mirrors(Stored(s, p, records, false), p, next)
       <==> forall id | FeedRows(was, id) != FeedRows(next, id) :: id in next && next[id] in records
  {
    forall id
      ensures Held(Stored(s, p, records, false), p, id) == FeedRows(next, id)
         <==> (FeedRows(was, id) != FeedRows(next, id) ==> id in next && next[id] in records)
    {
      StoredHeld(s, p, records, false, p, id);
      LatestCurrent(next, records, id);
    }
  }

  /** A full answer holds every record with ranges that count. */
  predicate Complete(feed: Feed, records: seq<Record>) {
    forall id | id in feed && RowsOf(feed[id]) != [] :: feed[id] in records
  }

  lemma FullReplaces(s: State, p: Product, feed: Feed, records: seq<Record>)
    requires Current(feed, records) && Complete(feed, records)
    ensures Mirrors(Stored(s, p, records, true), p, feed)
  {
    forall id ensures Held(Stored(s, p, records, true), p, id) == FeedRows(feed, id) {
      StoredHeld(s, p, records, true, p, id);
      LatestCurrent(feed, records, id);
    }
  }

  /** What the feed may do between two looks: a record that is new or different
      carries a modification time inside the window. Records may leave. */
  ghost predicate Evolves(was: Feed, next: Feed, since: int, now: int) {
    forall id | id in next && !(id in was && was[id] == next[id]) :: since <= next[id].modified <= now
  }

  /** What is asked of an incremental answer: every record modified in the window. */
  predicate Windowed(feed: Feed, since: int, now: int, records: seq<Record>) {
    forall id | id in feed && since <= feed[id].modified <= now :: feed[id] in records
  }

  /** One turn of one product: when, what its feed held, what came back (none
      for a fetch that failed). */
  datatype Turn = Turn(p: Product, now: int, feed: Feed, answer: Option<seq<Record>>)

  /** The answer is what the service promises for the question asked. */
  ghost predicate Honest(s: State, seen: map<Product, Feed>, t: Turn) {
    t.answer.Some? ==>
      && Current(t.feed, t.answer.value)
      && match Since(s, t.p, t.now)
         case None => Complete(t.feed, t.answer.value)
         case Some(since) =>
           t.p in seen && Evolves(seen[t.p], t.feed, since, t.now) && Windowed(t.feed, since, t.now, t.answer.value)
  }

  ghost function Run(s: State, turns: seq<Turn>): State {
    if turns == [] then s
    else
      var t := turns[|turns| - 1];
      Synced(Run(s, turns[..|turns| - 1]), t.p, t.now, t.answer)
  }

  /** The feed of each product at its last turn that did not fail. */
  ghost function Seen(turns: seq<Turn>): map<Product, Feed> {
    if turns == [] then map[]
    else
      var t := turns[|turns| - 1];
      SeenAfter(Seen(turns[..|turns| - 1]), t)
  }

  /** A feed, with the records that are no longer in it as they were last. */
  ghost function Overlaid(kept: Feed, feed: Feed): Feed {
    kept + feed
  }

  /** What the turns have seen of each product since it was last read in full,
      records that have left the feed included. */
  ghost function Kept(turns: seq<Turn>): map<Product, Feed> {
    if turns == [] then map[]
    else
      var (init, t) := (turns[..|turns| - 1], turns[|turns| - 1]);
      KeptAfter(Run(EMPTY, init), Kept(init), t)
  }

  ghost function KeptAfter(s: State, kept: map<Product, Feed>, t: Turn): map<Product, Feed> {
    if t.answer.None? then kept
    else if t.p in kept && Since(s, t.p, t.now).Some? then kept[t.p := Overlaid(kept[t.p], t.feed)]
    else kept[t.p := t.feed]
  }

  /** Nothing that has left the feed had ranges. */
  ghost predicate NothingLeft(kept: Feed, feed: Feed) {
    forall id | id in kept && id !in feed :: RowsOf(kept[id]) == []
  }

  ghost predicate AllHonest(s: State, turns: seq<Turn>) {
    forall i | 0 <= i < |turns| :: Honest(Run(s, turns[..i]), Seen(turns[..i]), turns[i])
  }

  /** The turn is the product's last that did not fail. */
  predicate LastSuccess(turns: seq<Turn>, p: Product, i: nat) {
    && i < |turns| && turns[i].p == p && turns[i].answer.Some?
    && forall j | i < j < |turns| :: turns[j].p != p || turns[j].answer.None?
  }

  /** What the next turn asks for begins an hour before the product's last turn
      that did not fail, if that is less than 119 days ago; else it asks for
      everything. */
  lemma {:induction false} WindowsOverlap(turns: seq<Turn>, p: Product, now: int)
    ensures forall i: nat | LastSuccess(turns, p, i) ::
      Since(Run(EMPTY, turns), p, now) == if now < turns[i].now + 10281600 then Some(turns[i].now - 3600) else None
    ensures (forall i: nat :: !LastSuccess(turns, p, i)) ==> Since(Run(EMPTY, turns), p, now).None?
    decreases |turns|
  {
    if turns != [] {
      var (init, t) := (turns[..|turns| - 1], turns[|turns| - 1]);
      assert turns == init + [t];
      WindowsOverlap(init, p, now);
      LastSuccessNext(init, t, p);
      TurnNext(init, t);
      CursorAfter(Run(EMPTY, init), t, p, now);
      hide Run, Synced, Since, LastSuccess;
    }
  }

  lemma LastSuccessNext(init: seq<Turn>, t: Turn, p: Product)
    ensures t.p == p && t.answer.Some? ==>
      forall i: nat :: LastSuccess(init + [t], p, i) <==> i == |init|
    ensures !(t.p == p && t.answer.Some?) ==>
      forall i: nat :: LastSuccess(init + [t], p, i) <==> LastSuccess(init, p, i)
    ensures forall i: nat | LastSuccess(init, p, i) :: i < |init|
  {
    var turns := init + [t];
    assert turns[|init|] == t && forall j | 0 <= j < |init| :: turns[j] == init[j];
  }

  lemma CursorAfter(s: State, t: Turn, p: Product, now: int)
    ensures var after := Synced(s, t.p, t.now, t.answer);
      Since(after, p, now) == if t.p == p && t.answer.Some?
                              then (if now < t.now + 10281600 then Some(t.now - 3600) else None)
                              else Since(s, p, now)
  {
    if t.answer.Some? {
      SyncedIsStored(s, t.p, t.now, t.answer.value);
      hide Stored;
    }
  }

  const EMPTY := State(map[], map[], map[])

  lemma SyncedIsStored(s: State, p: Product, now: int, records: seq<Record>)
    ensures var (done, after) := (Synced(s, p, now, Some(records)), Stored(s, p, records, Since(s, p, now).None?));
      && done.rows == after.rows && done.items == after.items && done.cursors.Keys == s.cursors.Keys + {p}
  {
    StoreAllHeld(if Since(s, p, now).None? then WithoutProduct(s, p) else s, p, records, p, "");
  }

  /** The cursors have no part in what the tables hold. */
  lemma SameTables(s: State, t: State, p: Product, feed: Feed)
    requires t.rows == s.rows && t.items == s.items
    ensures Joined(s) ==> Joined(t)
    ensures Mirrors(s, p, feed) ==> Mirrors(t, p, feed)
  {
    assert Named(t) == Named(s);
    if Mirrors(s, p, feed) {
      forall id ensures Held(t, p, id) == FeedRows(feed, id) { assert Held(s, p, id) == FeedRows(feed, id); }
    }
  }

  lemma OthersMirror(s: State, t: Turn, q: Product, feed: Feed)
    requires t.answer.Some? && q != t.p && Mirrors(s, q, feed)
    ensures Mirrors(Synced(s, t.p, t.now, t.answer), q, feed)
  {
    hide Stored, Synced;
    var (records, full) := (t.answer.value, Since(s, t.p, t.now).None?);
    forall id ensures Held(Stored(s, t.p, records, full), q, id) == FeedRows(feed, id) {
      StoredHeld(s, t.p, records, full, q, id);
    }
    SyncedIsStored(s, t.p, t.now, records);
    SameTables(Stored(s, t.p, records, full), Synced(s, t.p, t.now, t.answer), q, feed);
  }

  lemma SyncedJoined(s: State, t: Turn)
    requires Joined(s)
    ensures Joined(Synced(s, t.p, t.now, t.answer))
    ensures Synced(s, t.p, t.now, t.answer).cursors.Keys == s.cursors.Keys + if t.answer.Some? then {t.p} else {}
  {
    if t.answer.Some? {
      hide Stored, Synced;
      StoredJoined(s, t.p, t.answer.value, Since(s, t.p, t.now).None?);
      SyncedIsStored(s, t.p, t.now, t.answer.value);
    }
  }

  /** The feed as it was seen last is the newest part of what is kept. */
  ghost predicate Extends(kept: Feed, feed: Feed) {
    forall id | id in feed :: id in kept && kept[id] == feed[id]
  }

  ghost predicate AllKept(s: State, seen: map<Product, Feed>, kept: map<Product, Feed>) {
    && kept.Keys == seen.Keys == s.cursors.Keys
    && forall q | q in seen :: KeptFor(s, seen, kept, q)
  }

  ghost predicate KeptFor(s: State, seen: map<Product, Feed>, kept: map<Product, Feed>, q: Product)
    requires q in seen && q in kept
  {
    Mirrors(s, q, kept[q]) && Extends(kept[q], seen[q])
  }

  ghost function SeenAfter(seen: map<Product, Feed>, t: Turn): map<Product, Feed> {
    if t.answer.Some? then seen[t.p := t.feed] else seen
  }

  lemma OwnMirrors(s: State, seen: map<Product, Feed>, kept: map<Product, Feed>, t: Turn)
    requires Honest(s, seen, t) && t.answer.Some? && (t.p in seen <==> t.p in kept)
    requires t.p in seen ==> KeptFor(s, seen, kept, t.p)
    ensures t.p in KeptAfter(s, kept, t) && Extends(KeptAfter(s, kept, t)[t.p], t.feed)
    ensures Mirrors(Synced(s, t.p, t.now, t.answer), t.p, KeptAfter(s, kept, t)[t.p])
  {
    hide Stored, Synced, Mirrors, FeedRows;
    var (records, full) := (t.answer.value, Since(s, t.p, t.now).None?);
    if full {
      FullReplaces(s, t.p, t.feed, records);
    } else {
      ChangesAnswered(seen[t.p], kept[t.p], t.feed, Since(s, t.p, t.now).value, t.now, records);
      IncrementExact(s, t.p, kept[t.p], Overlaid(kept[t.p], t.feed), records);
    }
    SyncedIsStored(s, t.p, t.now, records);
    SameTables(Stored(s, t.p, records, full), Synced(s, t.p, t.now, t.answer), t.p, KeptAfter(s, kept, t)[t.p]);
  }

  lemma ChangesAnswered(was: Feed, kept: Feed, feed: Feed, since: int, now: int, records: seq<Record>)
    requires Evolves(was, feed, since, now) && Windowed(feed, since, now, records)
    requires Extends(kept, was) && Current(feed, records)
    ensures var next := Overlaid(kept, feed);
      && Current(next, records)
      && forall id | FeedRows(kept, id) != FeedRows(next, id) :: id in next && next[id] in records
  {
  }

  lemma TurnKeepsMirrors(s: State, seen: map<Product, Feed>, kept: map<Product, Feed>, t: Turn)
    requires Joined(s) && Honest(s, seen, t) && AllKept(s, seen, kept)
    ensures var after := Synced(s, t.p, t.now, t.answer);
      Joined(after) && AllKept(after, SeenAfter(seen, t), KeptAfter(s, kept, t))
  {
    hide Synced, Joined, Honest, KeptAfter, KeptFor;
    SyncedJoined(s, t);
    KeptNext(s, kept, t);
    forall q | q in SeenAfter(seen, t)
      ensures KeptFor(Synced(s, t.p, t.now, t.answer), SeenAfter(seen, t), KeptAfter(s, kept, t), q)
    {
      TurnKeepsOne(s, seen, kept, t, q);
    }
  }

  lemma TurnKeepsOne(s: State, seen: map<Product, Feed>, kept: map<Product, Feed>, t: Turn, q: Product)
    requires Honest(s, seen, t) && AllKept(s, seen, kept) && q in SeenAfter(seen, t)
    ensures q in KeptAfter(s, kept, t)
    ensures KeptFor(Synced(s, t.p, t.now, t.answer), SeenAfter(seen, t), KeptAfter(s, kept, t), q)
  {
    hide Synced, Mirrors, Honest, Extends, KeptAfter;
    KeptNext(s, kept, t);
    if t.answer.Some? {
      if q == t.p { OwnMirrors(s, seen, kept, t); } else { OthersMirror(s, t, q, kept[q]); }
    }
  }

  lemma KeptNext(s: State, kept: map<Product, Feed>, t: Turn)
    ensures t.answer.None? ==> KeptAfter(s, kept, t) == kept && Synced(s, t.p, t.now, t.answer) == s
    ensures t.answer.Some? ==>
      && KeptAfter(s, kept, t).Keys == kept.Keys + {t.p}
      && forall q | q in kept && q != t.p :: KeptAfter(s, kept, t)[q] == kept[q]
  {
  }

  /** After any run of full syncs, increments and failed attempts, of any
      products in any order, each product holds the ranges of every record seen
      since it was last read in full, as they were last: those of its feed at
      its last turn that did not fail, exactly when nothing that has left the
      feed had any. The join of the two tables drops no row. */
  lemma {:induction false} RunMirrors(turns: seq<Turn>)
    requires AllHonest(EMPTY, turns)
    ensures Joined(Run(EMPTY, turns)) && AllKept(Run(EMPTY, turns), Seen(turns), Kept(turns))
    ensures forall p | p in Seen(turns) ::
      Mirrors(Run(EMPTY, turns), p, Seen(turns)[p]) <==> NothingLeft(Kept(turns)[p], Seen(turns)[p])
    decreases |turns|
  {
    if turns == [] {
      assert Named(EMPTY) == {};
    } else {
      var before, t := turns[..|turns| - 1], turns[|turns| - 1];
      assert forall i | 0 <= i < |before| :: before[..i] == turns[..i];
      RunMirrors(before);
      TurnKeepsMirrors(Run(EMPTY, before), Seen(before), Kept(before), t);
    }
    var s := Run(EMPTY, turns);
    hide Run, Seen, Kept, Joined;
    forall p | p in Seen(turns) ensures Mirrors(s, p, Seen(turns)[p]) <==> NothingLeft(Kept(turns)[p], Seen(turns)[p]) {
      MirrorsIff(s, p, Kept(turns)[p], Seen(turns)[p]);
    }
  }

  lemma MirrorsIff(s: State, p: Product, kept: Feed, feed: Feed)
    requires Mirrors(s, p, kept) && Extends(kept, feed)
    ensures Mirrors(s, p, feed) <==> NothingLeft(kept, feed)
  {
    if Mirrors(s, p, feed) {
      forall id | id in kept && id !in feed ensures RowsOf(kept[id]) == [] {
        assert Held(s, p, id) == FeedRows(kept, id) && Held(s, p, id) == FeedRows(feed, id);
      }
    }
    if NothingLeft(kept, feed) {
      forall id ensures Held(s, p, id) == FeedRows(feed, id) { assert Held(s, p, id) == FeedRows(kept, id); }
    }
  }

  /** As long as no record leaves a feed, nothing else is kept. */
  lemma {:induction false} NothingLeaves(turns: seq<Turn>, p: Product)
    requires forall i | 0 <= i < |turns| :: turns[i].answer.Some? ==> Stays(Seen(turns[..i]), turns[i])
    ensures Kept(turns).Keys == Seen(turns).Keys && (p in Seen(turns) ==> Kept(turns)[p] == Seen(turns)[p])
    decreases |turns|
  {
    if turns != [] {
      var before, t := turns[..|turns| - 1], turns[|turns| - 1];
      assert forall i | 0 <= i < |before| :: before[..i] == turns[..i];
      assert before + [t] == turns;
      TurnNext(before, t);
      assert turns[..|turns| - 1] == before;
      hide Run, Seen, Kept, Stays, SeenAfter, KeptAfter;
      NothingLeaves(before, p);
      NothingLeaves(before, t.p);
      StaysNext(Run(EMPTY, before), Seen(before), Kept(before), t, p);
    }
  }

  lemma StaysNext(s: State, seen: map<Product, Feed>, kept: map<Product, Feed>, t: Turn, p: Product)
    requires kept.Keys == seen.Keys && (t.answer.Some? ==> Stays(seen, t))
    requires (p in seen ==> kept[p] == seen[p]) && (t.p in seen ==> kept[t.p] == seen[t.p])
    ensures var (seen', kept') := (SeenAfter(seen, t), KeptAfter(s, kept, t));
      kept'.Keys == seen'.Keys && (p in seen' ==> kept'[p] == seen'[p])
  {
    hide Since;
    if t.answer.Some? && t.p in seen { assert Overlaid(seen[t.p], t.feed) == t.feed; }
  }

  ghost predicate Stays(seen: map<Product, Feed>, t: Turn) {
    t.p in seen ==> seen[t.p].Keys <= t.feed.Keys
  }

  /** A CVE that no longer names the product is not answered, and its ranges
      stay: one record, read in full, and gone a minute later. */
  lemma LeftBehind(rec: Record)
    requires rec.id != "" && RowsOf(rec) != []
    ensures var turns := [Turn("php", 0, map[rec.id := rec], Some([rec])), Turn("php", 60, map[], Some([]))];
      AllHonest(EMPTY, turns) && "php" in Seen(turns) && !Mirrors(Run(EMPTY, turns), "php", Seen(turns)["php"])
  {
    var (first, second) := (Turn("php", 0, map[rec.id := rec], Some([rec])), Turn("php", 60, map[], Some([])));
    var turns := [first, second];
    assert [] + [first] == [first] && [first] + [second] == turns && turns[..0] == [] && turns[..1] == [first];
    TurnNext([], first);
    TurnNext([first], second);
    BothHonest(rec, first, second);
    hide Run, Seen, Kept, Joined, Mirrors, AllKept, NothingLeft, KeptAfter, Synced, Honest, RowsOf;
    RunMirrors(turns);
  }

  /** The first is read in full, the second since an hour before. */
  lemma BothHonest(rec: Record, first: Turn, second: Turn)
    requires rec.id != "" && RowsOf(rec) != []
    requires first == Turn("php", 0, map[rec.id := rec], Some([rec])) && second == Turn("php", 60, map[], Some([]))
    ensures Honest(EMPTY, map[], first)
    ensures Honest(Synced(EMPTY, "php", 0, Some([rec])), map["php" := first.feed], second)
    ensures var kept := KeptAfter(Synced(EMPTY, "php", 0, Some([rec])), KeptAfter(EMPTY, map[], first), second);
      "php" in kept && !NothingLeft(kept["php"], second.feed)
  {
    hide Stored;
    assert rec in [rec];
    assert Since(Synced(EMPTY, "php", 0, Some([rec])), "php", 60) == Some(-3600);
    var kept := Overlaid(first.feed, second.feed);
    assert rec.id in kept && RowsOf(kept[rec.id]) != [];
  }

  lemma TurnNext(init: seq<Turn>, t: Turn)
    ensures Run(EMPTY, []) == EMPTY && Seen([]) == map[] && Kept([]) == map[]
    ensures Run(EMPTY, init + [t]) == Synced(Run(EMPTY, init), t.p, t.now, t.answer)
    ensures Seen(init + [t]) == SeenAfter(Seen(init), t)
    ensures Kept(init + [t]) == KeptAfter(Run(EMPTY, init), Kept(init), t)
  {
    assert (init + [t])[..|init|] == init;
  }

  // ------------------------------------------------------------------ paging

  datatype Answer = Refused | Page(total: int, entries: seq<Record>)

  /** No page is asked for after this one. */
  ghost predicate IsLast(answer: nat -> Answer, start: nat) {
    match answer(start)
    case Refused => true
    case Page(total, entries) => entries == [] || start + |entries| >= total
  }

  /** The last page is among so many more. */
  ghost predicate EndsIn(answer: nat -> Answer, start: nat, more: nat)
    decreases more
  {
    IsLast(answer, start) || (more > 0 && EndsIn(answer, start + |answer(start).entries|, more - 1))
  }

  /** It is, if no announced total exceeds some bound. */
  lemma {:induction false} BoundedEnds(answer: nat -> Answer, start: nat, most: nat)
    requires start <= most && forall i: nat :: answer(i).Page? ==> answer(i).total <= most
    ensures EndsIn(answer, start, most - start)
    decreases most - start
  {
    if !IsLast(answer, start) {
      var next := start + |answer(start).entries|;
      BoundedEnds(answer, next, most);
      EndsLater(answer, next, most - next, most - start - 1);
    }
  }

  lemma {:induction false} EndsLater(answer: nat -> Answer, start: nat, more: nat, most: nat)
    requires EndsIn(answer, start, more) && more <= most
    ensures EndsIn(answer, start, most)
    decreases more
  {
    if !IsLast(answer, start) { EndsLater(answer, start + |answer(start).entries|, more - 1, most - 1); }
  }

  /** The pages from an index on, put together; none when one is refused. */
  ghost function Pages(answer: nat -> Answer, start: nat, more: nat): Option<seq<Record>>
    requires EndsIn(answer, start, more)
    decreases more
  {
    if answer(start).Refused? then None
    else if IsLast(answer, start) then Some(answer(start).entries)
    else Prepend(answer(start).entries, Pages(answer, start + |answer(start).entries|, more - 1))
  }

  ghost function Prepend(found: seq<Record>, rest: Option<seq<Record>>): Option<seq<Record>> {
    if rest.None? then None else Some(found + rest.value)
  }

  lemma PrependPage(answer: nat -> Answer, start: nat, more: nat, found: seq<Record>)
    requires EndsIn(answer, start, more) && !IsLast(answer, start)
    ensures var entries := answer(start).entries;
      Prepend(found, Pages(answer, start, more)) == Prepend(found + entries, Pages(answer, start + |entries|, more - 1))
  {
    var entries := answer(start).entries;
    var rest := Pages(answer, start + |entries|, more - 1);
    if rest.Some? { assert found + (entries + rest.value) == (found + entries) + rest.value; }
  }

  /** Every page, provided that some page is the last: else the loop of the
      source does not end either. */
  method FetchProduct(answer: nat -> Answer, ghost pages: nat) returns (records: Option<seq<Record>>)
    requires EndsIn(answer, 0, pages)
    ensures records == Pages(answer, 0, pages)
  {
    var found: seq<Record>, start: nat, total: Option<int> := [], 0, None;
    ghost var more := pages;
    if Pages(answer, 0, pages).Some? { assert found + Pages(answer, 0, pages).value == Pages(answer, 0, pages).value; }
    while total.None? || start < total.value
      invariant total.Some? && start >= total.value ==> Pages(answer, 0, pages) == Some(found)
      invariant total.None? || start < total.value ==>
        EndsIn(answer, start, more) && Pages(answer, 0, pages) == Prepend(found, Pages(answer, start, more))
      decreases if total.None? || start < total.value then 1 else 0, more
    {
      var page := answer(start);
      if page.Refused? { return None; }
      if !IsLast(answer, start) { PrependPage(answer, start, more, found); }
      total := Some(page.total);
      found := found + page.entries;
      if page.entries == [] { break; }
      start := start + |page.entries|;
      more := if more > 0 then more - 1 else 0;
    }
    records := Some(found);
  }

  /** The last page asked for. */
  ghost function LastAsked(answer: nat -> Answer, start: nat, more: nat): nat
    requires EndsIn(answer, start, more)
    decreases more
  {
    if IsLast(answer, start) then start else LastAsked(answer, start + |answer(start).entries|, more - 1)
  }

  /** There is no result exactly when the last page asked for was refused. */
  lemma {:induction false} RefusedIff(answer: nat -> Answer, start: nat, more: nat)
    requires EndsIn(answer, start, more)
    ensures Pages(answer, start, more).None? <==> answer(LastAsked(answer, start, more)).Refused?
    decreases more
  {
    if !IsLast(answer, start) { RefusedIff(answer, start + |answer(start).entries|, more - 1); }
  }

  /** The service hands out the feed in order, some of it at a time. */
  ghost predicate Serves(answer: nat -> Answer, feed: seq<Record>) {
    forall i: nat | i <= |feed| ::
      && answer(i).Page? && answer(i).total == |feed| && answer(i).entries <= feed[i..]
      && (i < |feed| ==> answer(i).entries != [])
  }

  /** Paging loses nothing and repeats nothing, whatever the size of the pages. */
  lemma {:induction false} PagingKeepsAll(answer: nat -> Answer, feed: seq<Record>, start: nat)
    requires Serves(answer, feed) && start <= |feed|
    ensures EndsIn(answer, start, |feed| - start) && Pages(answer, start, |feed| - start) == Some(feed[start..])
    decreases |feed| - start
  {
    var page := answer(start).entries;
    if page == [] || start + |page| >= |feed| {
      assert page == feed[start..];
    } else {
      var next := start + |page|;
      PagingKeepsAll(answer, feed, next);
      PagesLater(answer, next, |feed| - next, |feed| - start - 1);
      assert feed[start..] == page + feed[next..];
    }
  }

  lemma {:induction false} PagesLater(answer: nat -> Answer, start: nat, more: nat, most: nat)
    requires EndsIn(answer, start, more) && more <= most
    ensures EndsIn(answer, start, most) && Pages(answer, start, most) == Pages(answer, start, more)
    decreases more
  {
    EndsLater(answer, start, more, most);
    if !IsLast(answer, start) { PagesLater(answer, start + |answer(start).entries|, more - 1, most - 1); }
  }
}
