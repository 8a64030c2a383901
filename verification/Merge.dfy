/** What merging one unit into another owes to the units and domains below it
    (domain_portfolio.py, merge_group).

    Paths are rewritten: what stood below the source stands below the target.
    Every row the merge changes keeps all rewritten paths as they were; that
    is followed change by change, through the recursion. */
module Merge {
  import opened Common
  import opened Forest

  type DomainName = string

  /** The two tables: the units, and the unit each domain sits in. */
  datatype Org = Org(units: Units, homes: map<DomainName, Option<Id>>)

  type Paths = map<Id, Path>

  /** From below one path to below another. */
  datatype Rewrite = Rewrite(from: Path, to: Path)

  function Canon(r: Rewrite, p: Path): Path {
    if r.from <= p then r.to + p[|r.from|..] else p
  }

  ghost function PathsOf(units: Units, line: Lineage): Paths
    requires Lines(units, line)
  {
    map u | u in units :: PathOf(units, line, u)
  }

  // ------------------------------------------- what stays outside one branch

  /** From one table of units to the next only rows of x's branch lose their
      place or go; nothing comes into that branch; no name changes. */
  ghost predicate Inside(o: Units, line: Lineage, n: Units, after: Lineage, x: Id) {
    && Lines(o, line) && Lines(n, after) && n.Keys <= o.Keys
    && (forall u {:trigger Stays(o, line, n, after, x, u)} | u in o :: Stays(o, line, n, after, x, u))
    && (forall u {:trigger Named(o, line, n, after, x, u)} | u in n :: Named(o, line, n, after, x, u))
  }

  ghost predicate Stays(o: Units, line: Lineage, n: Units, after: Lineage, x: Id, u: Id)
    requires u in o && line.Keys == o.Keys && after.Keys == n.Keys
  {
    x !in line[u] ==> u in n && n[u].parent == o[u].parent && after[u] == line[u]
  }

  ghost predicate Named(o: Units, line: Lineage, n: Units, after: Lineage, x: Id, u: Id)
    requires u in n && u in o && line.Keys == o.Keys && after.Keys == n.Keys
  {
    n[u].name == o[u].name && (x in after[u] ==> x in line[u])
  }

  lemma InsideAll(o: Units, line: Lineage, n: Units, after: Lineage, x: Id)
    requires Inside(o, line, n, after, x)
    ensures line.Keys == o.Keys && after.Keys == n.Keys && n.Keys <= o.Keys
    ensures forall u | u in o && x !in line[u] :: u in n && n[u].parent == o[u].parent && after[u] == line[u]
    ensures forall u | u in n :: n[u].name == o[u].name && (x in after[u] ==> x in line[u])
  {
    forall u | u in o && x !in line[u] ensures u in n && n[u].parent == o[u].parent && after[u] == line[u] {
      assert Stays(o, line, n, after, x, u);
    }
    forall u | u in n ensures n[u].name == o[u].name && (x in after[u] ==> x in line[u]) {
      assert Named(o, line, n, after, x, u);
    }
  }

  lemma InsideRefl(o: Units, line: Lineage, x: Id)
    requires Lines(o, line)
    ensures Inside(o, line, o, line, x)
  {
  }

  lemma InsideTrans(o: Units, line: Lineage, n: Units, after: Lineage, m: Units, last: Lineage, x: Id, c: Id)
    requires Inside(o, line, n, after, x) && Inside(n, after, m, last, c)
    requires c in n && x in after[c]
    ensures Inside(o, line, m, last, x)
  {
    InsideAll(o, line, n, after, x);
    InsideAll(n, after, m, last, c);
    LinesKeys(o, line); LinesKeys(n, after); LinesKeys(m, last);
    hide Lines;
    forall u | u in n && c in after[u] ensures x in after[u] { LineTransitive(n, after, x, c, u); }
  }

  lemma InsideBy(o: Units, line: Lineage, n: Units, after: Lineage, x: Id)
    requires Lines(o, line) && Lines(n, after) && n.Keys <= o.Keys
    requires forall u | u in n :: n[u].name == o[u].name && (u != x ==> n[u].parent == o[u].parent)
    requires forall u | u in o && u !in n :: u == x
    requires forall u | u in n && x !in line[u] :: after[u] == line[u]
    requires x in o && x in line[x]
    ensures Inside(o, line, n, after, x)
  {
  }

  lemma MoveInside(o: Units, line: Lineage, c: Id, dst: Id)
    requires Lines(o, line) && c in o && dst in o && c !in line[dst]
    ensures Inside(o, line, WithParent(o, c, Some(dst)), MovedLines(line, c, line[dst]), c)
  {
    MoveKeepsLines(o, line, c, Some(dst));
    LineOfChild(o, line, c);
    forall u | u in o && c !in line[u] ensures MovedLines(line, c, line[dst])[u] == line[u] {
      AboveIsPrefix(o, line, c, u);
    }
    hide Lines, MovedLines;
    InsideBy(o, line, WithParent(o, c, Some(dst)), MovedLines(line, c, line[dst]), c);
  }

  lemma RemoveInside(o: Units, line: Lineage, x: Id)
    requires Lines(o, line) && x in o
    ensures Inside(o, line, o - {x}, CutLines(line, x), x)
  {
    RemoveKeepsLines(o, line, x);
    LineOfChild(o, line, x);
    forall u | u in o && x !in line[u] ensures u != x && CutLines(line, x)[u] == line[u] {
      AboveIsPrefix(o, line, x, u);
    }
    hide Lines, CutLines;
    InsideBy(o, line, o - {x}, CutLines(line, x), x);
  }

  /** The same rows, in the same places, under the same names. */
  ghost predicate SameShape(o: Units, n: Units) {
    n.Keys == o.Keys && forall u | u in o :: n[u].parent == o[u].parent && n[u].name == o[u].name
  }

  lemma SameShapeInside(o: Units, line: Lineage, n: Units, x: Id)
    requires Lines(o, line) && SameShape(o, n)
    ensures Inside(o, line, n, line, x)
  {
    forall u | u in n ensures LineOk(n, line, u) { assert LineOk(o, line, u); }
  }

  // -------------------------------------------------- rewritten paths are kept

  ghost predicate HomesThere(o: Org) {
    forall d | d in o.homes :: o.homes[d].Some? ==> o.homes[d].value in o.units
  }

  /** A well-formed state in which no rewritten path starts with the source's:
      the source's branch does not repeat the way from the target to it. */
  ghost predicate Safe(o: Org, line: Lineage, r: Rewrite) {
    && Lines(o.units, line) && Rooted(o.units) && NamesApart(o.units) && HomesThere(o)
    && forall u {:trigger PathOf(o.units, line, u)} | u in o.units ::
      r.from <= PathOf(o.units, line, u) ==> !(r.from <= Canon(r, PathOf(o.units, line, u)))
  }

  /** Everything is where it was up to rewriting, and what changed its place
      is no longer below the source's path. */
  ghost predicate Sim(o: Org, p: Paths, n: Org, q: Paths, r: Rewrite) {
    && p.Keys == o.units.Keys && q.Keys == n.units.Keys && n.units.Keys <= o.units.Keys
    && Rooted(n.units) && HomesThere(n)
    && UnitsKept(o.units, p, n.units, q, r) && AllRepresented(p, q, r) && HomesKept(o.homes, p, n.homes, q, r)
  }

  ghost predicate UnitsKept(o: Units, p: Paths, n: Units, q: Paths, r: Rewrite) {
    forall u | u in n :: UnitKept(o, p, n, q, r, u)
  }

  ghost predicate UnitKept(o: Units, p: Paths, n: Units, q: Paths, r: Rewrite, u: Id)
    requires u in n
  {
    && u in o && u in p && u in q
    && Canon(r, q[u]) == Canon(r, p[u]) && (!(r.from <= p[u]) ==> q[u] == p[u])
    && (n[u].parent == o[u].parent || OutOfSource(n[u].parent, q, r))
  }

  /** The place given is a unit whose path is not below the source's. */
  ghost predicate OutOfSource(place: Option<Id>, q: Paths, r: Rewrite) {
    place.Some? && place.value in q && !(r.from <= q[place.value])
  }

  ghost predicate AllRepresented(p: Paths, q: Paths, r: Rewrite) {
    forall u {:trigger Represented(Canon(r, p[u]), q, r)} | u in p :: Represented(Canon(r, p[u]), q, r)
  }

  /** Some unit stands, up to rewriting, at the path. */
  ghost predicate Represented(path: Path, q: Paths, r: Rewrite) {
    exists v :: v in q && Canon(r, q[v]) == path
  }

  ghost predicate HomesKept(o: map<DomainName, Option<Id>>, p: Paths, n: map<DomainName, Option<Id>>, q: Paths,
                            r: Rewrite)
  {
    n.Keys == o.Keys && forall d | d in o :: HomeKept(o[d], p, n[d], q, r)
  }

  ghost predicate HomeKept(before: Option<Id>, p: Paths, after: Option<Id>, q: Paths, r: Rewrite) {
    match before
    case None => after == None
    case Some(g) =>
      && after.Some? && g in p && after.value in q && Canon(r, q[after.value]) == Canon(r, p[g])
      && (after == before || OutOfSource(after, q, r))
  }

  lemma SimSame(o: Org, p: Paths, n: Org, r: Rewrite)
    requires p.Keys == o.units.Keys && SameShape(o.units, n.units) && n.homes == o.homes
    requires Rooted(o.units) && HomesThere(o)
    ensures Sim(o, p, n, p, r)
  {
    RootedAll(o.units);
    hide Canon;
    assert HomesKept(o.homes, p, n.homes, p, r);
    assert AllRepresented(p, p, r);
  }

  lemma OutStaysOut(o: Units, q: Paths, m: Units, s: Paths, r: Rewrite, place: Option<Id>)
    requires UnitsKept(o, q, m, s, r) && OutOfSource(place, q, r) && place.value in m
    ensures OutOfSource(place, s, r)
  {
    assert UnitKept(o, q, m, s, r, place.value);
  }

  lemma UnitsKeptTrans(o: Units, p: Paths, n: Units, q: Paths, m: Units, s: Paths, r: Rewrite)
    requires UnitsKept(o, p, n, q, r) && UnitsKept(n, q, m, s, r) && Rooted(m) && m.Keys <= n.Keys
    ensures UnitsKept(o, p, m, s, r)
  {
    RootedAll(m);
    hide Canon;
    forall u | u in m ensures UnitKept(o, p, m, s, r, u) {
      assert UnitKept(n, q, m, s, r, u) && UnitKept(o, p, n, q, r, u);
      var place := m[u].parent;
      if place == n[u].parent && place != o[u].parent { OutStaysOut(n, q, m, s, r, place); }
    }
  }

  lemma AllRepresentedTrans(p: Paths, q: Paths, s: Paths, r: Rewrite)
    requires AllRepresented(p, q, r) && AllRepresented(q, s, r)
    ensures AllRepresented(p, s, r)
  {
    hide Canon;
    forall u | u in p ensures Represented(Canon(r, p[u]), s, r) {
      assert Represented(Canon(r, p[u]), q, r);
      var v :| v in q && Canon(r, q[v]) == Canon(r, p[u]);
      assert Represented(Canon(r, q[v]), s, r);
    }
  }

  lemma HomesKeptTrans(o: map<DomainName, Option<Id>>, p: Paths, n: map<DomainName, Option<Id>>, q: Paths,
                       m: map<DomainName, Option<Id>>, s: Paths, r: Rewrite, before: Units, after: Units)
    requires HomesKept(o, p, n, q, r) && HomesKept(n, q, m, s, r)
    requires UnitsKept(before, q, after, s, r) && s.Keys == after.Keys
    ensures HomesKept(o, p, m, s, r)
  {
    hide Canon;
    forall d | d in o ensures HomeKept(o[d], p, m[d], s, r) {
      assert HomeKept(o[d], p, n[d], q, r) && HomeKept(n[d], q, m[d], s, r);
      if m[d] == n[d] && m[d] != o[d] { OutStaysOut(before, q, after, s, r, m[d]); }
    }
  }

  lemma SimTrans(o: Org, p: Paths, n: Org, q: Paths, m: Org, s: Paths, r: Rewrite)
    requires Sim(o, p, n, q, r) && Sim(n, q, m, s, r)
    ensures Sim(o, p, m, s, r)
  {
    hide UnitsKept, AllRepresented, HomesKept, Rooted, HomesThere;
    UnitsKeptTrans(o.units, p, n.units, q, m.units, s, r);
    AllRepresentedTrans(p, q, s, r);
    HomesKeptTrans(o.homes, p, n.homes, q, m.homes, s, r, n.units, m.units);
  }

  // ----------------------------------------------------- the changes, one by one

  /** Source and target of one fold: at the same place below the two paths. */
  ghost predicate Paired(p: Paths, src: Id, dst: Id, r: Rewrite) {
    && src in p && dst in p && r.from <= p[src] && Canon(r, p[src]) == p[dst]
  }

  function Rehome(homes: map<DomainName, Option<Id>>, src: Id, dst: Id): map<DomainName, Option<Id>> {
    map d | d in homes :: if homes[d] == Some(src) then Some(dst) else homes[d]
  }

  lemma PathsAre(o: Org, line: Lineage)
    requires Lines(o.units, line)
    ensures PathsOf(o.units, line).Keys == o.units.Keys
    ensures forall u | u in o.units :: PathsOf(o.units, line)[u] == PathOf(o.units, line, u)
  {
  }

  /** The target of a fold is out of the source's path. */
  lemma TargetOut(o: Org, line: Lineage, r: Rewrite, src: Id, dst: Id)
    requires Safe(o, line, r) && Paired(PathsOf(o.units, line), src, dst, r)
    ensures !(r.from <= PathsOf(o.units, line)[dst])
      && Canon(r, PathsOf(o.units, line)[dst]) == PathsOf(o.units, line)[dst]
  {
    assert r.from <= PathOf(o.units, line, src);
  }

  lemma RehomeKept(o: Org, p: Paths, r: Rewrite, src: Id, dst: Id)
    requires p.Keys == o.units.Keys && HomesThere(o) && src in p && dst in p
    requires Canon(r, p[src]) == Canon(r, p[dst]) && !(r.from <= p[dst])
    ensures HomesKept(o.homes, p, Rehome(o.homes, src, dst), p, r)
    ensures HomesThere(o.(homes := Rehome(o.homes, src, dst)))
  {
    hide Canon;
  }

  lemma RehomeSim(o: Org, line: Lineage, r: Rewrite, src: Id, dst: Id)
    requires Safe(o, line, r) && Paired(PathsOf(o.units, line), src, dst, r)
    ensures var n := o.(homes := Rehome(o.homes, src, dst));
      Safe(n, line, r) && Sim(o, PathsOf(o.units, line), n, PathsOf(n.units, line), r)
  {
    TargetOut(o, line, r, src, dst);
    PathsAre(o, line);
    var p := PathsOf(o.units, line);
    SimSame(o, p, o, r);
    RehomeKept(o, p, r, src, dst);
    hide PathOf, PathsOf, Canon, HomesKept, UnitsKept, AllRepresented, NamesApart, Rooted, HomesThere, Lines, Rehome;
  }

  lemma SamePaths(o: Units, n: Units, line: Lineage)
    requires Lines(o, line) && SameShape(o, n)
    ensures Lines(n, line) && PathsOf(n, line) == PathsOf(o, line)
    ensures forall u | u in n :: PathOf(n, line, u) == PathOf(o, line, u)
  {
    SameShapeInside(o, line, n, 0);
    forall u | u in n ensures PathOf(n, line, u) == PathOf(o, line, u) {
      LineShape(o, line, u);
      NamesSame(o, n, line[u]);
    }
  }

  lemma SameShapeSim(o: Org, line: Lineage, r: Rewrite, units: Units)
    requires Safe(o, line, r) && SameShape(o.units, units)
    ensures var n := o.(units := units);
      Safe(n, line, r) && Sim(o, PathsOf(o.units, line), n, PathsOf(n.units, line), r)
  {
    ApartAll(o.units);
    SamePaths(o.units, units, line);
    PathsAre(o, line);
    SimSame(o, PathsOf(o.units, line), o.(units := units), r);
  }

  /** Nobody at this level has the name. */
  predicate NoTwin(units: Units, name: string, parent: Option<Id>) {
    forall u | u in units :: !(units[u].name == name && units[u].parent == parent)
  }

  lemma MoveApart(units: Units, c: Id, parent: Option<Id>)
    requires NamesApart(units) && c in units && NoTwin(units, units[c].name, parent)
    ensures NamesApart(WithParent(units, c, parent))
  {
    ApartAll(units);
  }

  lemma SplicedNames(units: Units, moved: Units, whole: seq<Id>, k: nat, below: seq<Id>, c: Id)
    requires moved.Keys == units.Keys && c in units && forall u | u in units :: moved[u].name == units[u].name
    requires (forall x | x in whole :: x in units) && (forall x | x in below :: x in units) && k <= |whole|
    ensures forall x | x in below + [c] + whole[k..] :: x in moved
    ensures NamesOf(moved, below + [c] + whole[k..])
         == NamesOf(units, below) + [units[c].name] + NamesOf(units, whole)[k..]
  {
    var ids := below + [c] + whole[k..];
    var (a, b) := (NamesOf(moved, ids), NamesOf(units, below) + [units[c].name] + NamesOf(units, whole)[k..]);
    assert |a| == |b| == |ids|;
    forall i | 0 <= i < |ids| ensures a[i] == b[i] {
      assert a[i] == moved[ids[i]].name;
      if i > |below| { assert ids[i] == whole[i - |below| - 1 + k]; }
    }
  }

  lemma NamesPrefix(units: Units, stem: seq<Id>, whole: seq<Id>)
    requires stem <= whole && forall x | x in whole :: x in units
    ensures forall x | x in stem :: x in units
    ensures NamesOf(units, stem) <= NamesOf(units, whole)
  {
    assert whole == stem + whole[|stem|..];
    NamesConcat(units, stem, whole[|stem|..]);
  }

  lemma PathFromLine(units: Units, line: Lineage, u: Id)
    requires Lines(units, line) && u in units
    ensures forall x | x in line[u] :: x in units
    ensures PathOf(units, line, u) == NamesOf(units, line[u]) && |PathOf(units, line, u)| == |line[u]|
  {
    LineShape(units, line, u);
  }

  /** The paths after a unit moved below another: those of its branch. */
  lemma MovedPathIn(units: Units, line: Lineage, c: Id, dst: Id, moved: Units, after: Lineage, u: Id)
    requires Lines(units, line) && c in units && dst in units && u in units && line[c] <= line[u]
    requires moved == WithParent(units, c, Some(dst)) && Lines(moved, after)
    requires after[u] == line[dst] + [c] + line[u][|line[c]|..]
    ensures PathOf(units, line, c) <= PathOf(units, line, u)
    ensures PathOf(moved, after, u)
         == PathOf(units, line, dst) + [units[c].name] + PathOf(units, line, u)[|PathOf(units, line, c)|..]
  {
    PathFromLine(units, line, u);
    PathFromLine(units, line, c);
    PathFromLine(units, line, dst);
    PathFromLine(moved, after, u);
    hide Lines, NamesOf, PathOf;
    SplicedNames(units, moved, line[u], |line[c]|, line[dst], c);
    NamesPrefix(units, line[c], line[u]);
  }

  /** And those of all others. */
  lemma MovedPathOut(units: Units, line: Lineage, c: Id, dst: Id, moved: Units, after: Lineage, u: Id)
    requires Lines(units, line) && c in units && u in units
    requires moved == WithParent(units, c, Some(dst)) && Lines(moved, after) && after[u] == line[u]
    ensures PathOf(moved, after, u) == PathOf(units, line, u)
  {
    PathFromLine(units, line, u);
    PathFromLine(moved, after, u);
    NamesSame(units, moved, line[u]);
  }

  /** Moving a child of a fold's source to the fold's target, where nobody has
      its name yet, keeps all rewritten paths. */
  lemma MoveSim(o: Org, line: Lineage, r: Rewrite, src: Id, dst: Id, c: Id)
    requires Safe(o, line, r) && Paired(PathsOf(o.units, line), src, dst, r)
    requires c in o.units && o.units[c].parent == Some(src) && c !in line[dst]
    requires NoTwin(o.units, o.units[c].name, Some(dst))
    ensures var (n, after) := (o.(units := WithParent(o.units, c, Some(dst))), MovedLines(line, c, line[dst]));
      && Inside(o.units, line, n.units, after, c)
      && Safe(n, after, r) && Sim(o, PathsOf(o.units, line), n, PathsOf(n.units, after), r)
  {
    var (n, after) := (o.(units := WithParent(o.units, c, Some(dst))), MovedLines(line, c, line[dst]));
    var p := PathsOf(o.units, line);
    MoveInside(o.units, line, c, dst);
    MoveApart(o.units, c, Some(dst));
    TargetOut(o, line, r, src, dst);
    PathsAre(o, line);
    PathsAre(n, after);
    PathOfChild(o.units, line, c);
    var q := PathsOf(n.units, after);
    forall u | u in o.units
      ensures if c in line[u] then r.from <= p[u] && q[u] == Canon(r, p[u]) else q[u] == p[u]
    {
      MovedPathOne(o, line, r, src, dst, c, u);
    }
    hide PathsOf, PathOf, Lines, MovedLines;
    MovedAllKept(o, line, r, p, dst, c, n, q);
  }

  lemma MovedPathOne(o: Org, line: Lineage, r: Rewrite, src: Id, dst: Id, c: Id, u: Id)
    requires Safe(o, line, r) && Paired(PathsOf(o.units, line), src, dst, r)
    requires c in o.units && o.units[c].parent == Some(src) && c !in line[dst] && u in o.units
    requires Lines(WithParent(o.units, c, Some(dst)), MovedLines(line, c, line[dst]))
    ensures var (p, q) :=
      (PathOf(o.units, line, u), PathOf(WithParent(o.units, c, Some(dst)), MovedLines(line, c, line[dst]), u));
      if c in line[u] then r.from <= p && q == Canon(r, p) else q == p
  {
    var (moved, after) := (WithParent(o.units, c, Some(dst)), MovedLines(line, c, line[dst]));
    AboveIsPrefix(o.units, line, c, u);
    PathsAre(o, line);
    if c in line[u] {
      PathOfChild(o.units, line, c);
      MovedPathIn(o.units, line, c, dst, moved, after, u);
      SplicedCanon(r, PathOf(o.units, line, src), PathOf(o.units, line, c), PathOf(o.units, line, u), o.units[c].name);
    } else {
      MovedPathOut(o.units, line, c, dst, moved, after, u);
    }
  }

  lemma SplicedCanon(r: Rewrite, ps: Path, pc: Path, pu: Path, name: string)
    requires r.from <= ps && pc == ps + [name] && pc <= pu
    ensures r.from <= pu && Canon(r, pu) == Canon(r, ps) + [name] + pu[|pc|..]
  {
    var rest := [name] + pu[|pc|..];
    assert pu == ps + rest;
    CanonExtends(r, ps, rest);
  }

  lemma CanonExtends(r: Rewrite, p: Path, rest: Path)
    requires r.from <= p
    ensures r.from <= p + rest && Canon(r, p + rest) == Canon(r, p) + rest
  {
    assert (p + rest)[|r.from|..] == p[|r.from|..] + rest;
  }

  lemma MovedAllKept(o: Org, line: Lineage, r: Rewrite, p: Paths, dst: Id, c: Id, n: Org, q: Paths)
    requires p.Keys == o.units.Keys == line.Keys && q.Keys == o.units.Keys && c in o.units && dst in o.units
    requires n == o.(units := WithParent(o.units, c, Some(dst)))
    requires Rooted(o.units) && HomesThere(o)
    requires forall u | u in p :: r.from <= p[u] ==> !(r.from <= Canon(r, p[u]))
    requires forall u | u in o.units :: if c in line[u] then r.from <= p[u] && q[u] == Canon(r, p[u]) else q[u] == p[u]
    requires !(r.from <= p[dst]) && c in line[c] && c !in line[dst]
    ensures Sim(o, p, n, q, r) && Rooted(n.units) && HomesThere(n)
    ensures forall u | u in q :: r.from <= q[u] ==> !(r.from <= Canon(r, q[u]))
  {
    forall u | u in o.units
      ensures Canon(r, q[u]) == Canon(r, p[u]) && (!(r.from <= p[u]) ==> q[u] == p[u])
      ensures r.from <= q[u] ==> !(r.from <= Canon(r, q[u]))
    {
      assert r.from <= p[u] ==> !(r.from <= Canon(r, p[u]));
    }
    RewrittenAlike(o, r, p, dst, c, n, q);
  }

  lemma RewrittenAlike(o: Org, r: Rewrite, p: Paths, dst: Id, c: Id, n: Org, q: Paths)
    requires p.Keys == o.units.Keys && q.Keys == o.units.Keys && c in o.units && dst in o.units
    requires n == o.(units := WithParent(o.units, c, Some(dst)))
    requires Rooted(o.units) && HomesThere(o)
    requires forall u | u in o.units :: Canon(r, q[u]) == Canon(r, p[u]) && (!(r.from <= p[u]) ==> q[u] == p[u])
    requires !(r.from <= p[dst])
    ensures Sim(o, p, n, q, r) && Rooted(n.units) && HomesThere(n)
  {
    MoveRooted(o.units, c, dst);
    hide Rooted, Canon, Sim, UnitsKept, AllRepresented, HomesKept;
    AlikeUnits(o.units, r, p, dst, c, q);
    AlikeRepresented(r, p, q);
    AlikeHomes(o, r, p, q);
    SimFrom(o, p, n, q, r);
  }

  lemma MoveRooted(units: Units, c: Id, dst: Id)
    requires Rooted(units) && c in units && dst in units
    ensures Rooted(WithParent(units, c, Some(dst)))
  {
    RootedAll(units);
  }

  lemma SimFrom(o: Org, p: Paths, n: Org, q: Paths, r: Rewrite)
    requires p.Keys == o.units.Keys && q.Keys == n.units.Keys && n.units.Keys <= o.units.Keys
    requires Rooted(n.units) && HomesThere(n)
    requires UnitsKept(o.units, p, n.units, q, r) && AllRepresented(p, q, r) && HomesKept(o.homes, p, n.homes, q, r)
    ensures Sim(o, p, n, q, r)
  {
  }

  lemma AlikeUnits(o: Units, r: Rewrite, p: Paths, dst: Id, c: Id, q: Paths)
    requires p.Keys == o.Keys && q.Keys == o.Keys && c in o && dst in o && !(r.from <= p[dst])
    requires forall u | u in o :: Canon(r, q[u]) == Canon(r, p[u]) && (!(r.from <= p[u]) ==> q[u] == p[u])
    ensures UnitsKept(o, p, WithParent(o, c, Some(dst)), q, r)
  {
    hide Canon;
  }

  lemma AlikeRepresented(r: Rewrite, p: Paths, q: Paths)
    requires q.Keys == p.Keys && forall u | u in p :: Canon(r, q[u]) == Canon(r, p[u])
    ensures AllRepresented(p, q, r)
  {
    hide Canon;
  }

  lemma AlikeHomes(o: Org, r: Rewrite, p: Paths, q: Paths)
    requires q.Keys == p.Keys == o.units.Keys && HomesThere(o)
    requires forall u | u in p :: Canon(r, q[u]) == Canon(r, p[u])
    ensures HomesKept(o.homes, p, o.homes, q, r)
  {
    hide Canon;
  }

  /** Nothing is left at the unit: no unit below it, no domain in it. */
  ghost predicate Emptied(o: Org, x: Id) {
    (forall u | u in o.units :: o.units[u].parent != Some(x)) && forall d | d in o.homes :: o.homes[d] != Some(x)
  }

  lemma {:induction false} ChildlessAlone(units: Units, line: Lineage, x: Id, u: Id)
    requires Lines(units, line) && x in units && u in units && x in line[u]
    requires forall v | v in units :: units[v].parent != Some(x)
    ensures u == x
    decreases |line[u]|
  {
    LineOfChild(units, line, u);
    if u != x { ChildlessAlone(units, line, x, units[u].parent.value); }
  }

  /** Deleting a fold's source once nothing is left at it. */
  lemma RemoveSim(o: Org, line: Lineage, r: Rewrite, src: Id, dst: Id)
    requires Safe(o, line, r) && Paired(PathsOf(o.units, line), src, dst, r) && Emptied(o, src)
    ensures var (n, after) := (o.(units := o.units - {src}), CutLines(line, src));
      Lines(n.units, after) && Safe(n, after, r) && Sim(o, PathsOf(o.units, line), n, PathsOf(n.units, after), r)
  {
    var (n, after, p) := (o.(units := o.units - {src}), CutLines(line, src), PathsOf(o.units, line));
    RemoveKeepsLines(o.units, line, src);
    TargetOut(o, line, r, src, dst);
    PathsAre(o, line);
    PathsAre(n, after);
    var q := PathsOf(n.units, after);
    forall u | u in n.units ensures PathOf(n.units, after, u) == p[u] {
      if src in line[u] { ChildlessAlone(o.units, line, src, u); }
      AboveIsPrefix(o.units, line, src, u);
      PathFromLine(o.units, line, u);
      PathFromLine(n.units, after, u);
      NamesSame(o.units, n.units, line[u]);
    }
    RemoveApart(o.units, src);
    RootedAll(o.units);
    hide PathOf, PathsOf, Lines, CutLines, Canon;
    assert Rooted(n.units) && HomesThere(n);
    RemovedAlike(o, r, p, src, dst, n, q);
  }

  lemma RemoveApart(units: Units, x: Id)
    requires NamesApart(units)
    ensures NamesApart(units - {x})
  {
    ApartAll(units);
  }

  lemma RemovedAlike(o: Org, r: Rewrite, p: Paths, src: Id, dst: Id, n: Org, q: Paths)
    requires p.Keys == o.units.Keys && src in p && dst in p && src != dst && Canon(r, p[src]) == Canon(r, p[dst])
    requires n == o.(units := o.units - {src}) && q.Keys == n.units.Keys && forall u | u in q :: q[u] == p[u]
    requires Rooted(n.units) && HomesThere(n) && HomesThere(o)
    ensures Sim(o, p, n, q, r)
  {
    hide Canon, Sim;
    assert UnitsKept(o.units, p, n.units, q, r);
    forall u | u in p ensures Represented(Canon(r, p[u]), q, r) {
      var v := if u == src then dst else u;
      assert v in q && Canon(r, q[v]) == Canon(r, p[u]);
    }
    assert HomesKept(o.homes, p, n.homes, q, r);
    SimFrom(o, p, n, q, r);
  }

  /** Where the target has no registrar or contact, the source's becomes its. */
  function Inherited(units: Units, src: Id, dst: Id): (n: Units)
    requires src in units && dst in units
    ensures SameShape(units, n)
  {
    var (own, had) := (units[src], units[dst]);
    units[dst := had.(registrar := had.registrar.Or(own.registrar), contact := had.contact.Or(own.contact))]
  }
}
