/** The list of all units (domain_portfolio.py, list_groups): depth first, each
    with its path and with the registrar, contact and scan interval it is held
    to, its own or the nearest ones above. */
module Listing {
  import opened Common
  import opened Forest
  import opened Organisation
  import opened Trees

  /** A contact, and the unit that names it. */
  datatype Held = Held(unit: Id, contact: nat)

  datatype Row = Row(id: Id, path: Path, depth: nat, registrar: Option<string>, registrarInherited: bool,
                     contact: Option<Held>, contactInherited: bool, minutes: Option<nat>, minutesInherited: bool)

  /** What is handed down to the units below. */
  datatype Context = Context(path: Path, registrar: Option<string>, contact: Option<Held>, minutes: Option<nat>)

  /** The unit's own contact, if it names one that is known. */
  function OwnContact(units: Units, people: set<nat>, u: Id): Option<Held> {
    if u in units && units[u].contact.Some? && units[u].contact.value in people
    then Some(Held(u, units[u].contact.value))
    else None
  }

  function Below(units: Units, people: set<nat>, u: Id, above: Context): Context
    requires u in units
  {
    Context(above.path + [units[u].name], units[u].registrar.Or(above.registrar),
            OwnContact(units, people, u).Or(above.contact),
            units[u].minutes.Or(above.minutes))
  }

  function RowOf(units: Units, people: set<nat>, u: Id, depth: nat, c: Context): Row
    requires u in units
  {
    Row(u, c.path, depth, c.registrar, c.registrar.Some? && units[u].registrar.None?,
        c.contact, c.contact.Some? && OwnContact(units, people, u).None?,
        c.minutes, c.minutes.Some? && units[u].minutes.None?)
  }

  // ------------------------------------------------------------ what a row says

  /** The last of the values set along a line. */
  ghost predicate Nearest<V>(own: seq<Option<V>>, found: Option<V>) {
    if found.None? then forall i | 0 <= i < |own| :: own[i].None?
    else exists k | 0 <= k < |own| :: own[k] == found && forall j | k < j < |own| :: own[j].None?
  }

  lemma NearestNext<V>(own: seq<Option<V>>, found: Option<V>, last: Option<V>)
    requires Nearest(own, found)
    ensures Nearest(own + [last], last.Or(found))
  {
    var next := own + [last];
    if last.Some? {
      assert next[|own|] == last;
    } else if found.Some? {
      var k :| 0 <= k < |own| && own[k] == found && forall j | k < j < |own| :: own[j].None?;
      assert next[k] == found;
    }
  }

  ghost function RegistrarsAlong(units: Units, ids: seq<Id>): seq<Option<string>> {
    seq(|ids|, i requires 0 <= i < |ids| => if ids[i] in units then units[ids[i]].registrar else None)
  }

  ghost function ContactsAlong(units: Units, people: set<nat>, ids: seq<Id>): seq<Option<Held>> {
    seq(|ids|, i requires 0 <= i < |ids| => OwnContact(units, people, ids[i]))
  }

  ghost function MinutesAlong(units: Units, ids: seq<Id>): seq<Option<nat>> {
    seq(|ids|, i requires 0 <= i < |ids| => if ids[i] in units then units[ids[i]].minutes else None)
  }

  /** The context is that of a line of units: its names, and of each setting the
      value nearest to its end. */
  ghost predicate Describes(units: Units, people: set<nat>, ids: seq<Id>, c: Context) {
    && (forall x | x in ids :: x in units) && c.path == NamesOf(units, ids)
    && Nearest(RegistrarsAlong(units, ids), c.registrar)
    && Nearest(ContactsAlong(units, people, ids), c.contact)
    && Nearest(MinutesAlong(units, ids), c.minutes)
  }

  lemma DescribesNext(units: Units, people: set<nat>, ids: seq<Id>, c: Context, u: Id)
    requires Describes(units, people, ids, c) && u in units
    ensures Describes(units, people, ids + [u], Below(units, people, u, c))
  {
    assert forall x | x in ids + [u] :: x in units;
    assert NamesOf(units, ids + [u]) == NamesOf(units, ids) + [units[u].name];
    assert RegistrarsAlong(units, ids + [u]) == RegistrarsAlong(units, ids) + [units[u].registrar];
    assert ContactsAlong(units, people, ids + [u]) ==
      ContactsAlong(units, people, ids) + [OwnContact(units, people, u)];
    assert MinutesAlong(units, ids + [u]) == MinutesAlong(units, ids) + [units[u].minutes];
    hide Nearest;
    NearestNext(RegistrarsAlong(units, ids), c.registrar, units[u].registrar);
    NearestNext(ContactsAlong(units, people, ids), c.contact, OwnContact(units, people, u));
    NearestNext(MinutesAlong(units, ids), c.minutes, units[u].minutes);
  }

  /** A row shows its unit's path and depth, and of each setting the value of
      the nearest unit at or above it that has one, and whether that is above. */
  ghost predicate RowFits(units: Units, line: Lineage, people: set<nat>, row: Row) {
    && row.id in units && row.id in line
    && Describes(units, people, line[row.id], Context(row.path, row.registrar, row.contact, row.minutes))
    && row.depth + 1 == |line[row.id]|
    && (row.registrarInherited <==> row.registrar.Some? && units[row.id].registrar.None?)
    && (row.contactInherited <==> row.contact.Some? && row.contact.value.unit != row.id)
    && (row.minutesInherited <==> row.minutes.Some? && units[row.id].minutes.None?)
  }

  /** The unit names a contact that is known. */
  predicate NamesKnown(units: Units, people: set<nat>, u: Id) {
    u in units && units[u].contact.Some? && units[u].contact.value in people
  }

  /** What a row shows, by the units on its line: of each setting the value of
      the last one that has any, and of the contacts only those known. */
  lemma RowShowsSettings(units: Units, line: Lineage, people: set<nat>, row: Row)
    requires RowFits(units, line, people, row)
    ensures forall x | x in line[row.id] :: x in units
    ensures var ids := line[row.id];
      && (row.contact.None? ==> forall u | u in ids :: !NamesKnown(units, people, u))
      && (row.contact.Some? ==>
            exists k :: LastWith(ids, k, (u: Id) => NamesKnown(units, people, u)) && row.contact.value.unit == ids[k]
                     && units[ids[k]].contact == Some(row.contact.value.contact))
      && (row.registrar.None? ==> forall u | u in ids :: units[u].registrar.None?)
      && (row.registrar.Some? ==>
            exists k :: LastWith(ids, k, (u: Id) => u in units && units[u].registrar.Some?)
                     && units[ids[k]].registrar == row.registrar)
      && (row.minutes.None? ==> forall u | u in ids :: units[u].minutes.None?)
      && (row.minutes.Some? ==>
            exists k :: LastWith(ids, k, (u: Id) => u in units && units[u].minutes.Some?)
                     && units[ids[k]].minutes == row.minutes)
  {
    var ids := line[row.id];
    ShowsContact(units, people, ids, row.contact);
    ShowsSetting(ids, RegistrarsAlong(units, ids), row.registrar, (u: Id) => u in units && units[u].registrar.Some?);
    ShowsSetting(ids, MinutesAlong(units, ids), row.minutes, (u: Id) => u in units && units[u].minutes.Some?);
  }

  predicate LastWith(ids: seq<Id>, k: int, has: Id -> bool) {
    0 <= k < |ids| && has(ids[k]) && forall j | k < j < |ids| :: !has(ids[j])
  }

  lemma ShowsSetting<V>(ids: seq<Id>, own: seq<Option<V>>, found: Option<V>, has: Id -> bool)
    requires |own| == |ids| && Nearest(own, found) && forall i | 0 <= i < |ids| :: has(ids[i]) <==> own[i].Some?
    ensures found.None? ==> forall u | u in ids :: !has(u)
    ensures found.Some? ==> exists k :: LastWith(ids, k, has) && own[k] == found
  {
    if found.Some? {
      var k :| 0 <= k < |own| && own[k] == found && forall j | k < j < |own| :: own[j].None?;
      assert LastWith(ids, k, has);
    }
  }

  lemma ShowsContact(units: Units, people: set<nat>, ids: seq<Id>, found: Option<Held>)
    requires Nearest(ContactsAlong(units, people, ids), found)
    ensures found.None? ==> forall u | u in ids :: !NamesKnown(units, people, u)
    ensures found.Some? ==>
      exists k :: LastWith(ids, k, (u: Id) => NamesKnown(units, people, u)) && found.value.unit == ids[k]
               && units[ids[k]].contact == Some(found.value.contact)
  {
    var own := ContactsAlong(units, people, ids);
    ShowsSetting(ids, own, found, (u: Id) => NamesKnown(units, people, u));
  }

  /** An inherited contact was named by another unit. */
  lemma InheritedFromAbove(units: Units, people: set<nat>, ids: seq<Id>, c: Context, u: Id)
    requires Describes(units, people, ids, c) && u !in ids && u in units && OwnContact(units, people, u).None?
    ensures c.contact.Some? ==> c.contact.value.unit != u
  {
    if c.contact.Some? {
      var own := ContactsAlong(units, people, ids);
      var k :| 0 <= k < |own| && own[k] == c.contact;
      assert own[k] == OwnContact(units, people, ids[k]);
    }
  }

  // ------------------------------------------------------------------ the order

  /** The unit a row is listed under; an unknown parent counts as none. */
  function Level(units: Units, u: Id): Option<Id>
    requires u in units
  {
    if HasParent(units, u) then units[u].parent else None
  }

  function ChildrenAt(units: Units, parent: Option<Id>): set<Id> {
    set u | u in units && Level(units, u) == parent
  }

  /** a may come before b. */
  ghost predicate Before(units: Units, line: Lineage, a: Id, b: Id) {
    && a in units && b in units && a in line && b in line
    && a != b && b !in line[a] && (Level(units, a) == Level(units, b) ==> TextLe(units[a].name, units[b].name))
  }

  /** Depth first: nobody twice, nobody before a unit above him, units of one
      level by name, and each branch in one piece. */
  ghost predicate DepthFirst(units: Units, line: Lineage, ids: seq<Id>) {
    && (forall i, j | 0 <= i < j < |ids| :: Before(units, line, ids[i], ids[j]))
    && OnePiece(line, ids)
  }

  ghost predicate OnePiece(line: Lineage, ids: seq<Id>) {
    forall i, j, k | 0 <= i < j < k < |ids| :: InPiece(line, ids[i], ids[j], ids[k])
  }

  ghost predicate InPiece(line: Lineage, a: Id, between: Id, b: Id) {
    between in line && b in line && (a in line[b] ==> a in line[between])
  }

  ghost function LineTo(line: Lineage, parent: Option<Id>): seq<Id> {
    if parent.Some? && parent.value in line then line[parent.value] else []
  }

  lemma ChildLine(units: Units, line: Lineage, parent: Option<Id>, c: Id)
    requires Lines(units, line) && c in ChildrenAt(units, parent)
    ensures c in units && c in line && line[c] == LineTo(line, parent) + [c] && c !in LineTo(line, parent)
  {
    LineOfChild(units, line, c);
    LinesKeys(units, line);
  }

  /** Nobody is below two units of one level. */
  lemma BranchesApart(units: Units, line: Lineage, parent: Option<Id>, c: Id, d: Id, u: Id)
    requires Lines(units, line) && c in ChildrenAt(units, parent) && d in ChildrenAt(units, parent) && c != d
    requires u in units && u in line && c in line[u]
    ensures d !in line[u]
  {
    ChildLine(units, line, parent, c);
    ChildLine(units, line, parent, d);
    hide Lines, ChildrenAt;
    if d in line[u] { LinesMeet(units, line, c, d, u); }
  }

  /** Units in the branches of two children: the first child's may come first. */
  lemma Across(units: Units, line: Lineage, parent: Option<Id>, d: Id, c: Id, a: Id, b: Id)
    requires Lines(units, line) && c in ChildrenAt(units, parent) && d in ChildrenAt(units, parent) && c != d
    requires TextLe(units[d].name, units[c].name)
    requires a in units && b in units && a in line && b in line && d in line[a] && c in line[b]
    ensures Before(units, line, a, b) && a !in line[b]
  {
    hide Lines, TextLe;
    BranchesApart(units, line, parent, d, c, a);
    BranchesApart(units, line, parent, c, d, b);
    ChildLine(units, line, parent, c);
    ChildLine(units, line, parent, d);
    if b in line[a] { LineTransitive(units, line, c, b, a); }
    if a in line[b] { LineTransitive(units, line, d, a, b); }
    if Level(units, a) == Level(units, b) { SameLevel(units, line, parent, d, c, a, b); }
  }

  lemma SameLevel(units: Units, line: Lineage, parent: Option<Id>, d: Id, c: Id, a: Id, b: Id)
    requires Lines(units, line) && c in ChildrenAt(units, parent) && d in ChildrenAt(units, parent) && c != d
    requires a in units && b in units && a in line && b in line && d in line[a] && c in line[b]
    requires Level(units, a) == Level(units, b)
    ensures a == d && b == c
  {
    LinesKeys(units, line);
    hide Lines;
    ChildLine(units, line, parent, c);
    ChildLine(units, line, parent, d);
    LineOfChild(units, line, a);
    LineOfChild(units, line, b);
    if HasParent(units, a) {
      var q := units[a].parent.value;
      if a != d && b != c { BranchesApart(units, line, parent, d, c, q); }
    }
  }

  /** The branches of some units together. */
  ghost function Covered(line: Lineage, tops: set<Id>): set<Id> {
    set u | u in line && UnderOne(line, tops, u)
  }

  ghost predicate UnderOne(line: Lineage, tops: set<Id>, u: Id)
    requires u in line
  {
    exists d :: d in tops && d in line[u]
  }

  ghost function IdsOf(rows: seq<Row>): seq<Id> {
    seq(|rows|, i requires 0 <= i < |rows| => rows[i].id)
  }

  /** The rows list the branches of the units given, depth first, each right. */
  ghost predicate Lists(units: Units, line: Lineage, people: set<nat>, tops: set<Id>, rows: seq<Row>) {
    && (forall i | 0 <= i < |rows| :: RowFits(units, line, people, rows[i]))
    && (forall u :: u in IdsOf(rows) <==> u in Covered(line, tops))
    && DepthFirst(units, line, IdsOf(rows))
  }

  lemma OnePieceJoin(line: Lineage, xs: seq<Id>, ys: seq<Id>)
    requires OnePiece(line, xs) && OnePiece(line, ys)
    requires forall x, y | x in xs && y in ys :: x in line && y in line && x !in line[y]
    ensures OnePiece(line, xs + ys)
  {
    var all := xs + ys;
    forall i, j, k | 0 <= i < j < k < |all| ensures InPiece(line, all[i], all[j], all[k]) {
      if k < |xs| {
        assert InPiece(line, xs[i], xs[j], xs[k]);
      } else if i >= |xs| {
        assert InPiece(line, ys[i - |xs|], ys[j - |xs|], ys[k - |xs|]);
      } else {
        assert all[i] in xs && all[k] in ys;
        assert all[j] in xs || all[j] in ys;
        assert xs[0] in xs && ys[0] in ys;
      }
    }
  }

  lemma DepthFirstJoin(units: Units, line: Lineage, xs: seq<Id>, ys: seq<Id>)
    requires DepthFirst(units, line, xs) && DepthFirst(units, line, ys)
    requires forall x, y | x in xs && y in ys :: Before(units, line, x, y) && x !in line[y]
    ensures DepthFirst(units, line, xs + ys)
  {
    var all := xs + ys;
    forall i, j | 0 <= i < j < |all| ensures Before(units, line, all[i], all[j]) {
      if i < |xs| && j >= |xs| { assert all[i] in xs && all[j] in ys; }
    }
    hide Before;
    forall x, y | x in xs && y in ys ensures x in line && y in line && x !in line[y] {
      BeforeMembers(units, line, x, y);
    }
    OnePieceJoin(line, xs, ys);
  }

  lemma BeforeMembers(units: Units, line: Lineage, a: Id, b: Id)
    requires Before(units, line, a, b)
    ensures a in line && b in line
  {
  }

  /** A unit in front of its own branch. */
  lemma DepthFirstTop(units: Units, line: Lineage, c: Id, ids: seq<Id>)
    requires Lines(units, line) && c in units && DepthFirst(units, line, ids)
    requires forall u :: u in ids <==> u in Covered(line, ChildrenAt(units, Some(c)))
    ensures DepthFirst(units, line, [c] + ids)
    ensures forall u :: u in [c] + ids <==> u in Branch(line, c)
  {
    LinesKeys(units, line);
    hide Lines, DepthFirst, Covered, ChildrenAt, Before;
    forall u | u in ids ensures u in units && u != c && c in line[u] && Before(units, line, c, u) {
      BelowTop(units, line, c, u);
    }
    forall u | u in units && c in line[u] && u != c ensures u in ids { CoveredIs(units, line, c, u); }
    LineOfChild(units, line, c);
    TopFirst(units, line, c, ids);
  }

  lemma TopFirst(units: Units, line: Lineage, c: Id, ids: seq<Id>)
    requires DepthFirst(units, line, ids) && c in line
    requires forall u | u in ids :: u in line && c in line[u] && Before(units, line, c, u)
    ensures DepthFirst(units, line, [c] + ids)
  {
    var all := [c] + ids;
    forall i, j | 0 <= i < j < |all| ensures Before(units, line, all[i], all[j]) {
      assert all[j] in ids;
    }
    hide Before;
    forall i, j, k | 0 <= i < j < k < |all| ensures InPiece(line, all[i], all[j], all[k]) {
      assert all[j] in ids && all[k] in ids;
      if i > 0 { assert InPiece(line, ids[i - 1], ids[j - 1], ids[k - 1]); }
    }
  }

  lemma BelowTop(units: Units, line: Lineage, c: Id, u: Id)
    requires Lines(units, line) && c in units && u in Covered(line, ChildrenAt(units, Some(c)))
    ensures u in units && u in line && u != c && c in line[u] && Before(units, line, c, u)
  {
    LinesKeys(units, line);
    hide Lines, TextLe;
    var d :| d in ChildrenAt(units, Some(c)) && d in line[u];
    LineOfChild(units, line, c);
    LineOfChild(units, line, d);
    LineTransitive(units, line, c, d, u);
    LineOfChild(units, line, u);
    if u == c { LineAntisymmetric(units, line, c, d); }
    if u in line[c] { LineAntisymmetric(units, line, c, u); }
  }

  /** Below a unit means below one of its children. */
  lemma {:induction false} CoveredIs(units: Units, line: Lineage, c: Id, u: Id)
    requires Lines(units, line) && c in units && u in units && u in line && c in line[u] && u != c
    ensures u in Covered(line, ChildrenAt(units, Some(c)))
    decreases |line[u]|
  {
    LinesKeys(units, line);
    LineOfChild(units, line, u);
    var p := units[u].parent.value;
    if p == c {
      assert UnderOne(line, ChildrenAt(units, Some(c)), u);
    } else {
      CoveredIs(units, line, c, p);
      var d :| d in ChildrenAt(units, Some(c)) && d in line[p];
      assert UnderOne(line, ChildrenAt(units, Some(c)), u);
    }
  }

  /** Every unit is below one without a parent. */
  lemma {:induction false} AllCovered(units: Units, line: Lineage, u: Id)
    requires Lines(units, line) && u in units && u in line
    ensures u in Covered(line, ChildrenAt(units, None))
    decreases |line[u]|
  {
    LinesKeys(units, line);
    LineOfChild(units, line, u);
    if HasParent(units, u) {
      AllCovered(units, line, units[u].parent.value);
      var d :| d in ChildrenAt(units, None) && d in line[units[u].parent.value];
      assert UnderOne(line, ChildrenAt(units, None), u);
    } else {
      assert UnderOne(line, ChildrenAt(units, None), u);
    }
  }

  /** Those done come before those to do, by name. */
  ghost predicate NamesFirst(units: Units, done: set<Id>, todo: set<Id>) {
    && (forall d | d in done + todo :: d in units)
    && forall d, t | d in done && t in todo :: TextLe(units[d].name, units[t].name)
  }

  /** Rows of one more branch after those of the branches before it. */
  lemma ListsJoin(units: Units, line: Lineage, people: set<nat>, parent: Option<Id>, tops: set<Id>, rows: seq<Row>,
                  c: Id, row: Row, rest: seq<Row>)
    requires Lines(units, line) && tops <= ChildrenAt(units, parent) && c in ChildrenAt(units, parent) && c !in tops
    requires forall d | d in tops :: d in units && c in units && TextLe(units[d].name, units[c].name)
    requires Lists(units, line, people, tops, rows) && Lists(units, line, people, ChildrenAt(units, Some(c)), rest)
    requires RowFits(units, line, people, row) && row.id == c
    ensures Lists(units, line, people, tops + {c}, rows + [row] + rest)
  {
    LinesKeys(units, line);
    hide Lines, ChildrenAt, DepthFirst, RowFits, TextLe, Covered, Before;
    var (xs, ys) := (IdsOf(rows), [c] + IdsOf(rest));
    DepthFirstTop(units, line, c, IdsOf(rest));
    assert IdsOf(rows + [row] + rest) == xs + ys;
    forall x, y | x in xs && y in ys ensures Before(units, line, x, y) && x !in line[y] {
      AcrossBranches(units, line, parent, tops, c, x, y);
    }
    DepthFirstJoin(units, line, xs, ys);
    forall u ensures u in xs + ys <==> u in Covered(line, tops + {c}) { CoveredMore(line, tops, c, u); }
    RowsFit(units, line, people, rows, row, rest);
  }

  lemma RowsFit(units: Units, line: Lineage, people: set<nat>, rows: seq<Row>, row: Row, rest: seq<Row>)
    requires forall i | 0 <= i < |rows| :: RowFits(units, line, people, rows[i])
    requires forall i | 0 <= i < |rest| :: RowFits(units, line, people, rest[i])
    requires RowFits(units, line, people, row)
    ensures forall i | 0 <= i < |rows + [row] + rest| :: RowFits(units, line, people, (rows + [row] + rest)[i])
  {
    hide RowFits;
  }

  lemma AcrossBranches(units: Units, line: Lineage, parent: Option<Id>, tops: set<Id>, c: Id, x: Id, y: Id)
    requires Lines(units, line) && tops <= ChildrenAt(units, parent) && c in ChildrenAt(units, parent) && c !in tops
    requires forall d | d in tops :: d in units && c in units && TextLe(units[d].name, units[c].name)
    requires x in Covered(line, tops) && y in Branch(line, c)
    ensures y in line && Before(units, line, x, y) && x !in line[y]
  {
    LinesKeys(units, line);
    hide Lines, TextLe, Before, ChildrenAt;
    var d :| d in tops && d in line[x];
    Across(units, line, parent, d, c, x, y);
  }

  lemma CoveredMore(line: Lineage, tops: set<Id>, c: Id, u: Id)
    ensures u in Covered(line, tops + {c}) <==> u in Covered(line, tops) || u in Branch(line, c)
  {
    if u in line && UnderOne(line, tops, u) {
      var d :| d in tops && d in line[u];
      assert d in tops + {c};
    }
    if u in line && c in line[u] { assert c in tops + {c}; }
  }

  /** The first of the units by name. */
  method First(units: Units, todo: set<Id>) returns (c: Id)
    requires todo != {} && todo <= units.Keys
    ensures c in todo && forall d | d in todo :: TextLe(units[c].name, units[d].name)
  {
    c :| c in todo;
    var rest := todo - {c};
    TextTotal(units[c].name, units[c].name);
    while rest != {}
      invariant rest <= todo && c in todo
      invariant forall d | d in todo - rest :: TextLe(units[c].name, units[d].name)
    {
      var d :| d in rest;
      rest := rest - {d};
      TextTotal(units[c].name, units[d].name);
      if !TextLe(units[c].name, units[d].name) {
        forall e | e in todo - rest ensures TextLe(units[d].name, units[e].name) {
          TextTotal(units[d].name, units[e].name);
          if e != d { TextTrans(units[d].name, units[c].name, units[e].name); }
        }
        c := d;
      }
    }
  }

  /** In a forest, what has been handed down is that of the line to the parent,
      and only units of that line have been seen. */
  ghost predicate Handed(units: Units, line: Lineage, people: set<nat>, parent: Option<Id>, depth: nat, c: Context,
                         seen: set<Id>)
  {
    && Lines(units, line) && (parent.Some? ==> parent.value in units)
    && Describes(units, people, LineTo(line, parent), c) && depth == |LineTo(line, parent)|
    && forall x | x in seen :: x in LineTo(line, parent)
  }

  lemma HandedOn(units: Units, line: Lineage, people: set<nat>, parent: Option<Id>, depth: nat, above: Context,
                 seen: set<Id>, c: Id)
    requires Handed(units, line, people, parent, depth, above, seen) && c in ChildrenAt(units, parent)
    ensures c in units && c !in seen
    ensures var here := Below(units, people, c, above);
      Handed(units, line, people, Some(c), depth + 1, here, seen + {c})
      && RowFits(units, line, people, RowOf(units, people, c, depth, here))
  {
    ChildLine(units, line, parent, c);
    hide Lines, Describes;
    DescribesNext(units, people, LineTo(line, parent), above, c);
    if OwnContact(units, people, c).None? { InheritedFromAbove(units, people, LineTo(line, parent), above, c); }
  }

  // ---------------------------------------------------------- on any data

  /** A part of the units that hang on units at the top, the others beside it. */
  ghost predicate IsPart(units: Units, t: Units) {
    exists loose: Units :: Beside(t, loose) && units == t + loose
  }

  lemma SameChildren(units: Units, t: Units, parent: Option<Id>)
    requires IsPart(units, t) && (parent.Some? ==> parent.value in t)
    ensures ChildrenAt(units, parent) == ChildrenAt(t, parent)
  {
    hide Beside;
    var loose: Units :| Beside(t, loose) && units == t + loose;
    forall u | u in units ensures u in ChildrenAt(units, parent) <==> u in ChildrenAt(t, parent) {
      if u in t { PartRow(t, loose, u); } else { LooseRow(t, loose, u); }
    }
  }

  lemma SameRow(units: Units, t: Units, people: set<nat>, c: Id, depth: nat, above: Context)
    requires IsPart(units, t) && c in t
    ensures c in units && Below(units, people, c, above) == Below(t, people, c, above)
    ensures forall here: Context :: RowOf(units, people, c, depth, here) == RowOf(t, people, c, depth, here)
  {
    hide Beside;
    var loose: Units :| Beside(t, loose) && units == t + loose;
    PartRow(t, loose, c);
    assert units[c] == t[c];
  }

  lemma SameFirst(units: Units, t: Units, done: set<Id>, todo: set<Id>)
    requires IsPart(units, t) && NamesFirst(units, done, todo) && done + todo <= t.Keys
    ensures NamesFirst(t, done, todo)
  {
    hide TextLe, Beside;
    var loose: Units :| Beside(t, loose) && units == t + loose;
    forall u | u in t ensures u in units && units[u] == t[u] { PartRow(t, loose, u); }
  }

  /** The units under one parent, each with its branch. A unit already on the
      way down is passed over, so that a cycle written by hand ends. */
  method Walk(units: Units, people: set<nat>, parent: Option<Id>, depth: nat, above: Context, seen: set<Id>,
              ghost t: Units, ghost line: Lineage)
    returns (out: seq<Row>)
    requires seen <= units.Keys
    ensures IsPart(units, t) && Handed(t, line, people, parent, depth, above, seen) ==>
      Lists(t, line, people, ChildrenAt(t, parent), out)
    decreases |units.Keys - seen|
  {
    hide Handed, Lists, TextLe, RowFits, Below, RowOf, ChildrenAt, NamesFirst, Lines, IsPart;
    ghost var good := IsPart(units, t) && Handed(t, line, people, parent, depth, above, seen);
    ghost var all := ChildrenAt(units, parent);
    ghost var done: set<Id> := {};
    var todo := ChildrenAt(units, parent);
    out := [];
    ListsNothing(t, line, people);
    ChildrenThere(units, parent);
    NobodyFirst(units, todo);
    if good {
      HandedLines(t, line, people, parent, depth, above, seen);
      SameChildren(units, t, parent);
    }
    while todo != {}
      invariant todo <= all && done == all - todo
      invariant good ==> Lists(t, line, people, done, out)
      invariant NamesFirst(units, done, todo)
      decreases todo
    {
      var c := First(units, todo);
      if good { HandedOn(t, line, people, parent, depth, above, seen, c); }
      if c !in seen {
        var here := Below(units, people, c, above);
        var row := RowOf(units, people, c, depth, here);
        SmallerUnseen(units.Keys, seen, c);
        if good { SameRow(units, t, people, c, depth, above); }
        var rest := Walk(units, people, Some(c), depth + 1, here, seen + {c}, t, line);
        if good {
          ChildrenThere(t, parent);
          SameFirst(units, t, done, todo);
          WalkStep(t, line, people, parent, depth, above, seen, done, todo, c, out, rest);
        }
        out := out + [row] + rest;
      }
      NextFirst(units, done, todo, c);
      OneMoreDone(all, todo, c);
      todo, done := todo - {c}, done + {c};
    }
    assert done == all;
  }

  /** One more branch. */
  lemma WalkStep(units: Units, line: Lineage, people: set<nat>, parent: Option<Id>, depth: nat, above: Context,
                 seen: set<Id>, done: set<Id>, todo: set<Id>, c: Id, out: seq<Row>, rest: seq<Row>)
    requires Handed(units, line, people, parent, depth, above, seen) && NamesFirst(units, done, todo)
    requires todo <= ChildrenAt(units, parent) && done == ChildrenAt(units, parent) - todo && c in todo && c in units
    requires Lists(units, line, people, done, out) && Lists(units, line, people, ChildrenAt(units, Some(c)), rest)
    ensures Lists(units, line, people, done + {c},
                  out + [RowOf(units, people, c, depth, Below(units, people, c, above))] + rest)
  {
    hide *;
    var row := RowOf(units, people, c, depth, Below(units, people, c, above));
    HandedOn(units, line, people, parent, depth, above, seen, c);
    HandedLines(units, line, people, parent, depth, above, seen);
    RowIs(units, people, c, depth, Below(units, people, c, above));
    FirstOf(units, done, todo, c);
    ListsJoin(units, line, people, parent, done, out, c, row, rest);
  }

  lemma OneMoreDone(all: set<Id>, todo: set<Id>, c: Id)
    requires todo <= all && c in todo
    ensures all - (todo - {c}) == (all - todo) + {c}
  {
  }

  lemma FirstOf(units: Units, done: set<Id>, todo: set<Id>, c: Id)
    requires NamesFirst(units, done, todo) && c in todo
    ensures forall d | d in done :: d in units && c in units && TextLe(units[d].name, units[c].name)
  {
    hide TextLe;
  }

  lemma ChildrenThere(units: Units, parent: Option<Id>)
    ensures ChildrenAt(units, parent) <= units.Keys
  {
  }

  lemma RowIs(units: Units, people: set<nat>, c: Id, depth: nat, here: Context)
    requires c in units
    ensures RowOf(units, people, c, depth, here).id == c
  {
  }

  lemma NobodyFirst(units: Units, todo: set<Id>)
    requires todo <= units.Keys
    ensures NamesFirst(units, {}, todo)
  {
  }

  lemma NextFirst(units: Units, done: set<Id>, todo: set<Id>, c: Id)
    requires NamesFirst(units, done, todo) && c in todo
    requires forall d | d in todo :: d in units && TextLe(units[c].name, units[d].name)
    ensures NamesFirst(units, done + {c}, todo - {c})
  {
    hide TextLe;
  }

  lemma ListsNothing(units: Units, line: Lineage, people: set<nat>)
    ensures Lists(units, line, people, {}, [])
  {
  }

  lemma HandedLines(units: Units, line: Lineage, people: set<nat>, parent: Option<Id>, depth: nat, c: Context,
                    seen: set<Id>)
    requires Handed(units, line, people, parent, depth, c, seen)
    ensures Lines(units, line) && (parent.Some? ==> parent.value in units)
  {
  }

  lemma SmallerUnseen(all: set<Id>, seen: set<Id>, c: Id)
    requires c in all && c !in seen
    ensures |all - (seen + {c})| < |all - seen|
  {
    assert all - (seen + {c}) == (all - seen) - {c};
  }

  /** In a forest: every unit once, depth first, every row right. */
  ghost predicate Complete(units: Units, line: Lineage, people: set<nat>, rows: seq<Row>) {
    && (forall i | 0 <= i < |rows| :: RowFits(units, line, people, rows[i]))
    && (forall u :: u in IdsOf(rows) <==> u in units)
    && DepthFirst(units, line, IdsOf(rows))
    && |rows| == |units|
  }

  /** The list of all units that hang on units at the top: in a forest, of all. */
  method ListGroups(units: Units, people: set<nat>) returns (out: seq<Row>)
    ensures Acyclic(Tree(units)) && Complete(Tree(units), LineageOf(Tree(units)), people, out)
    ensures Acyclic(units) ==> Tree(units) == units
  {
    hide Lists, Handed, Complete, Tree, Acyclic, LineageOf, Lines;
    ghost var t := Tree(units);
    TreeIsForest(units);
    ghost var line := LineageOf(t);
    out := Walk(units, people, None, 0, Context([], None, None, None), {}, t, line);
    TreeBeside(units);
    assert IsPart(units, t);
    HandedTop(t, line, people);
    ListsAll(t, line, people, out);
    if Acyclic(units) { ForestHangs(units); }
  }

  lemma HandedTop(units: Units, line: Lineage, people: set<nat>)
    requires Lines(units, line)
    ensures Handed(units, line, people, None, 0, Context([], None, None, None), {})
  {
  }

  lemma ListsAll(units: Units, line: Lineage, people: set<nat>, rows: seq<Row>)
    requires Lines(units, line) && Lists(units, line, people, ChildrenAt(units, None), rows)
    ensures Complete(units, line, people, rows)
  {
    hide *;
    LinesKeys(units, line);
    ListsParts(units, line, people, ChildrenAt(units, None), rows);
    var ids := IdsOf(rows);
    forall u ensures u in ids <==> u in units {
      if u in ids { CoveredKnown(line, ChildrenAt(units, None), u); }
      if u in units { AllCovered(units, line, u); }
    }
    DepthFirstApart(units, line, ids);
    DistinctSize(ids, units.Keys);
    CompleteFrom(units, line, people, rows);
  }

  lemma ListsParts(units: Units, line: Lineage, people: set<nat>, tops: set<Id>, rows: seq<Row>)
    requires Lists(units, line, people, tops, rows)
    ensures forall i | 0 <= i < |rows| :: RowFits(units, line, people, rows[i])
    ensures forall u :: u in IdsOf(rows) <==> u in Covered(line, tops)
    ensures DepthFirst(units, line, IdsOf(rows))
  {
    hide RowFits, DepthFirst, Covered;
  }

  lemma CompleteFrom(units: Units, line: Lineage, people: set<nat>, rows: seq<Row>)
    requires forall i | 0 <= i < |rows| :: RowFits(units, line, people, rows[i])
    requires forall u :: u in IdsOf(rows) <==> u in units
    requires DepthFirst(units, line, IdsOf(rows)) && |IdsOf(rows)| == |units.Keys|
    ensures Complete(units, line, people, rows)
  {
    hide RowFits, DepthFirst;
    MapSize(units);
  }

  lemma CoveredKnown(line: Lineage, tops: set<Id>, u: Id)
    requires u in Covered(line, tops)
    ensures u in line
  {
  }

  lemma DepthFirstApart(units: Units, line: Lineage, ids: seq<Id>)
    requires DepthFirst(units, line, ids)
    ensures forall i, j | 0 <= i < j < |ids| :: ids[i] != ids[j]
  {
    hide Before, OnePiece;
    forall i, j | 0 <= i < j < |ids| ensures ids[i] != ids[j] {
      assert Before(units, line, ids[i], ids[j]);
      BeforeApart(units, line, ids[i], ids[j]);
    }
  }

  lemma BeforeApart(units: Units, line: Lineage, a: Id, b: Id)
    requires Before(units, line, a, b)
    ensures a != b
  {
  }

  lemma {:induction false} DistinctSize(ids: seq<Id>, all: set<Id>)
    requires forall i, j | 0 <= i < j < |ids| :: ids[i] != ids[j]
    requires forall u :: u in ids <==> u in all
    ensures |ids| == |all|
    decreases |ids|
  {
    if ids == [] {
      assert all == {};
    } else {
      var x := ids[0];
      assert ids == [x] + ids[1..];
      forall u ensures u in ids[1..] <==> u in all - {x} {
        if u in ids[1..] { assert u in ids; }
      }
      DistinctSize(ids[1..], all - {x});
    }
  }

  /** The path a row shows is the unit's. */
  lemma RowShowsPath(units: Units, line: Lineage, people: set<nat>, row: Row)
    requires Lines(units, line) && RowFits(units, line, people, row)
    ensures row.path == PathOf(units, line, row.id)
  {
    hide Nearest, Lines;
  }
}
