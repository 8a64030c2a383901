/** When a merge conserves everything (domain_portfolio.py, merge_group): the
    rewritten tree is what is left, exactly when the source's branch does not
    repeat the way from the target to the source. */
module MergeTheorem {
  import opened Common
  import opened Forest
  import opened Merge
  import opened MergeSteps

  ghost predicate Ordered(o: Org) {
    Rooted(o.units) && NamesApart(o.units) && HomesThere(o)
  }

  /** The tree below the source stands below the target, merged with what was
      there: every unit that is left is at its rewritten path, every rewritten
      path is some unit's, and every domain is where its unit's path went. */
  ghost predicate Conserved(o: Org, line: Lineage, n: Org, after: Lineage, r: Rewrite) {
    && Lines(o.units, line) && Lines(n.units, after) && Ordered(n) && n.units.Keys <= o.units.Keys
    && (forall u | u in n.units :: PathOf(n.units, after, u) == Canon(r, PathOf(o.units, line, u)))
    && (forall u | u in o.units :: Stands(n.units, after, Canon(r, PathOf(o.units, line, u))))
    && n.homes.Keys == o.homes.Keys
    && (forall d | d in o.homes :: HomeMoved(o, line, n, after, r, d))
  }

  ghost predicate Stands(units: Units, line: Lineage, path: Path)
    requires Lines(units, line)
  {
    exists v :: v in units && PathOf(units, line, v) == path
  }

  /** A domain of no unit stays so; one outside the source's branch stays in
      its unit; every other is in the unit at its unit's rewritten path. */
  ghost predicate HomeMoved(o: Org, line: Lineage, n: Org, after: Lineage, r: Rewrite, d: DomainName)
    requires Lines(o.units, line) && Lines(n.units, after) && d in o.homes && d in n.homes
  {
    match o.homes[d]
    case None => n.homes[d] == None
    case Some(g) =>
      && g in o.units && n.homes[d].Some? && n.homes[d].value in n.units
      && PathOf(n.units, after, n.homes[d].value) == Canon(r, PathOf(o.units, line, g))
      && (!(r.from <= PathOf(o.units, line, g)) ==> n.homes[d] == Some(g))
  }

  /** The target is above the source, and below the source the way from the
      target to it is found again. */
  ghost predicate Repeats(o: Units, line: Lineage, s: Id, t: Id)
    requires Lines(o, line) && s in o && t in o
  {
    var (sp, tp) := (PathOf(o, line, s), PathOf(o, line, t));
    tp < sp && exists u :: u in o && PathOf(o, line, u) == sp + sp[|tp|..]
  }

  lemma OneAtPath(o: Org, line: Lineage, u: Id, v: Id)
    requires Ordered(o) && Lines(o.units, line) && u in o.units && v in o.units
    requires PathOf(o.units, line, u) == PathOf(o.units, line, v)
    ensures u == v
  {
    RootedGrounds(o.units, line, u);
    RootedGrounds(o.units, line, v);
    PathNamesOne(o.units, line, u, v);
  }

  lemma CanonOfRepeat(sp: Path, tp: Path)
    requires tp < sp
    ensures Canon(Rewrite(sp, tp), sp + sp[|tp|..]) == sp
  {
    assert (sp + sp[|tp|..])[|sp|..] == sp[|tp|..];
  }

  lemma RepeatsIsUnsafe(o: Org, line: Lineage, s: Id, t: Id)
    requires Lines(o.units, line) && s in o.units && t in o.units && Repeats(o.units, line, s, t)
    ensures !Safe(o, line, Rewrite(PathOf(o.units, line, s), PathOf(o.units, line, t)))
  {
    var (sp, tp) := (PathOf(o.units, line, s), PathOf(o.units, line, t));
    hide PathOf, Lines, Canon;
    var u :| u in o.units && PathOf(o.units, line, u) == sp + sp[|tp|..];
    CanonOfRepeat(sp, tp);
  }

  /** How a rewritten path comes to start with the source's. */
  lemma RepeatShape(sp: Path, tp: Path, pu: Path)
    requires sp <= pu && sp <= tp + pu[|sp|..]
    ensures sp <= tp || (tp < sp && |sp| + |sp[|tp|..]| <= |pu| && pu[..|sp| + |sp[|tp|..]|] == sp + sp[|tp|..])
  {
    var way := tp + pu[|sp|..];
    if |sp| <= |tp| {
      assert sp == way[..|sp|] == tp[..|sp|];
    } else {
      assert tp == way[..|tp|] == sp[..|tp|];
      var rel := sp[|tp|..];
      assert rel == way[|tp|..|sp|] == pu[|sp|..][..|rel|];
      assert pu[..|sp| + |rel|] == pu[..|sp|] + pu[|sp|..][..|rel|];
    }
  }

  lemma UnsafeRepeats(o: Org, line: Lineage, s: Id, t: Id, u: Id)
    requires Ordered(o) && Lines(o.units, line) && s in o.units && t in o.units && s !in line[t] && u in o.units
    requires var r := Rewrite(PathOf(o.units, line, s), PathOf(o.units, line, t));
      r.from <= PathOf(o.units, line, u) && r.from <= Canon(r, PathOf(o.units, line, u))
    ensures Repeats(o.units, line, s, t)
  {
    var (sp, tp, pu) := (PathOf(o.units, line, s), PathOf(o.units, line, t), PathOf(o.units, line, u));
    PathLength(o.units, line, s);
    PathLength(o.units, line, t);
    PathLength(o.units, line, u);
    RepeatShape(sp, tp, pu);
    hide PathOf, Ordered, Lines;
    if sp <= tp {
      assert tp[..|sp|] == sp;
      var x := Ancestor(o.units, line, t, |sp|);
      OneAtPath(o, line, x, s);
    } else {
      var x := Ancestor(o.units, line, u, |sp| + |sp[|tp|..]|);
    }
  }

  lemma PathLength(units: Units, line: Lineage, u: Id)
    requires Lines(units, line) && u in units
    ensures u in line && |PathOf(units, line, u)| == |line[u]| >= 1
  {
    PathFromLine(units, line, u);
    LineShape(units, line, u);
  }

  /** A state is safe for a merge exactly when nothing repeats. */
  lemma SafeIff(o: Org, line: Lineage, s: Id, t: Id)
    requires Ordered(o) && Lines(o.units, line) && s in o.units && t in o.units && s !in line[t]
    ensures Safe(o, line, Rewrite(PathOf(o.units, line, s), PathOf(o.units, line, t))) <==>
      !Repeats(o.units, line, s, t)
  {
    var r := Rewrite(PathOf(o.units, line, s), PathOf(o.units, line, t));
    if Repeats(o.units, line, s, t) {
      RepeatsIsUnsafe(o, line, s, t);
    } else {
      forall u | u in o.units && r.from <= PathOf(o.units, line, u)
        ensures !(r.from <= Canon(r, PathOf(o.units, line, u)))
      {
        if r.from <= Canon(r, PathOf(o.units, line, u)) { UnsafeRepeats(o, line, s, t, u); }
      }
    }
  }

  /** With neither unit in the other's branch nothing can repeat. */
  lemma ApartNeverRepeats(o: Org, line: Lineage, s: Id, t: Id)
    requires Ordered(o) && Lines(o.units, line) && s in o.units && t in o.units && t !in line[s]
    ensures !Repeats(o.units, line, s, t)
  {
    var (sp, tp) := (PathOf(o.units, line, s), PathOf(o.units, line, t));
    if tp < sp {
      PathOfChild(o.units, line, s);
      PathOfChild(o.units, line, t);
      var x := Ancestor(o.units, line, s, |tp|);
      assert sp[..|tp|] == tp;
      OneAtPath(o, line, x, t);
    }
  }

  lemma CanonHitsTarget(r: Rewrite, x: Path)
    requires r.from <= x && Canon(r, x) == Canon(r, r.from)
    ensures x == r.from
  {
    assert r.from[|r.from|..] == [];
    assert |x[|r.from|..]| == 0;
  }

  /** What the simulation says of one unit that is left, on paths as such. */
  lemma SimUnit(o: Org, line: Lineage, n: Org, after: Lineage, r: Rewrite, u: Id)
    requires Kept(o, line, n, after, r) && u in n.units
    ensures Lines(o.units, line) && Lines(n.units, after) && u in o.units
    ensures Canon(r, PathOf(n.units, after, u)) == Canon(r, PathOf(o.units, line, u))
    ensures !(r.from <= PathOf(o.units, line, u)) ==> PathOf(n.units, after, u) == PathOf(o.units, line, u)
  {
    PathAt(o.units, line, u);
    PathAt(n.units, after, u);
    hide PathsOf, PathOf, Canon, Safe, AllRepresented, HomesKept;
    assert UnitKept(o.units, PathsOf(o.units, line), n.units, PathsOf(n.units, after), r, u);
  }

  lemma PathAt(units: Units, line: Lineage, u: Id)
    requires Lines(units, line)
    ensures u in PathsOf(units, line) <==> u in units
    ensures u in units ==> PathsOf(units, line)[u] == PathOf(units, line, u)
  {
  }

  /** Once the source is gone, no path starts with the source's. */
  lemma NothingBelowSource(o: Org, line: Lineage, n: Org, after: Lineage, s: Id, r: Rewrite, u: Id)
    requires Ordered(o) && Lines(o.units, line) && s in o.units && r.from == PathOf(o.units, line, s)
    requires Kept(o, line, n, after, r) && s !in n.units && u in n.units
    ensures Lines(n.units, after) && !(r.from <= PathOf(n.units, after, u))
  {
    hide *;
    SimUnit(o, line, n, after, r, u);
    PathLength(o.units, line, s);
    PathLength(n.units, after, u);
    var pu := PathOf(n.units, after, u);
    if r.from <= pu {
      var v := Ancestor(n.units, after, u, |r.from|);
      assert pu[..|r.from|] == r.from;
      SimUnit(o, line, n, after, r, v);
      if r.from <= PathOf(o.units, line, v) { CanonHitsTarget(r, PathOf(o.units, line, v)); }
      OneAtPath(o, line, v, s);
    }
  }

  lemma KeptOrdered(o: Org, line: Lineage, n: Org, after: Lineage, r: Rewrite)
    requires Kept(o, line, n, after, r)
    ensures Ordered(n)
  {
  }

  lemma CanonElsewhere(r: Rewrite, p: Path)
    requires !(r.from <= p)
    ensures Canon(r, p) == p
  {
  }

  /** After the merge every unit left stands at its rewritten path. */
  lemma LandedAtCanon(o: Org, line: Lineage, n: Org, after: Lineage, s: Id, r: Rewrite, u: Id)
    requires Ordered(o) && Lines(o.units, line) && s in o.units && r.from == PathOf(o.units, line, s)
    requires Kept(o, line, n, after, r) && s !in n.units && u in n.units
    ensures u in o.units && Lines(n.units, after)
    ensures PathOf(n.units, after, u) == Canon(r, PathOf(o.units, line, u)) == Canon(r, PathOf(n.units, after, u))
  {
    hide *;
    NothingBelowSource(o, line, n, after, s, r, u);
    SimUnit(o, line, n, after, r, u);
    CanonElsewhere(r, PathOf(n.units, after, u));
  }

  /** What the simulation says of one domain. */
  lemma SimHome(o: Org, line: Lineage, n: Org, after: Lineage, r: Rewrite, d: DomainName)
    requires Kept(o, line, n, after, r) && d in o.homes
    ensures d in n.homes && (o.homes[d].None? ==> n.homes[d].None?)
    ensures o.homes[d].Some? ==>
      n.homes[d].Some? && o.homes[d].value in o.units && n.homes[d].value in n.units
      && Lines(o.units, line) && Lines(n.units, after)
      && Canon(r, PathOf(n.units, after, n.homes[d].value)) == Canon(r, PathOf(o.units, line, o.homes[d].value))
  {
    hide PathsOf, PathOf, Canon, Safe, AllRepresented, UnitsKept;
    var (p, q) := (PathsOf(o.units, line), PathsOf(n.units, after));
    assert HomeKept(o.homes[d], p, n.homes[d], q, r);
    if o.homes[d].Some? {
      PathAt(o.units, line, o.homes[d].value);
      PathAt(n.units, after, n.homes[d].value);
    }
  }

  lemma InsideOutside(o: Units, line: Lineage, n: Units, after: Lineage, x: Id, u: Id)
    requires Inside(o, line, n, after, x) && u in o && u in line && x !in line[u]
    ensures u in n && u in after && after[u] == line[u] && n[u].parent == o[u].parent
    ensures forall y | y in n :: y in o && n[y].name == o[y].name
  {
    InsideAll(o, line, n, after, x);
  }

  /** A domain is where its unit's path went; outside the source's branch it
      stays in its unit. */
  lemma HomeIsMoved(o: Org, line: Lineage, n: Org, after: Lineage, s: Id, r: Rewrite, d: DomainName)
    requires Ordered(o) && Lines(o.units, line) && s in o.units && r.from == PathOf(o.units, line, s)
    requires Kept(o, line, n, after, r) && Inside(o.units, line, n.units, after, s) && s !in n.units && d in o.homes
    ensures Lines(n.units, after) && d in n.homes && HomeMoved(o, line, n, after, r, d)
  {
    hide Ordered, Lines, Kept, Inside, PathOf, PathsOf, Canon, Sim;
    KeptSim(o, line, n, after, r);
    SimHome(o, line, n, after, r, d);
    if o.homes[d].Some? {
      var (g, h) := (o.homes[d].value, n.homes[d].value);
      LandedAtCanon(o, line, n, after, s, r, h);
      if !(r.from <= PathOf(o.units, line, g)) {
        CanonElsewhere(r, PathOf(o.units, line, g));
        UnmovedHome(o, line, n, after, s, r, g, h);
      }
    }
  }

  lemma UnmovedHome(o: Org, line: Lineage, n: Org, after: Lineage, s: Id, r: Rewrite, g: Id, h: Id)
    requires Ordered(o) && Lines(o.units, line) && s in o.units && r.from == PathOf(o.units, line, s)
    requires Kept(o, line, n, after, r) && Inside(o.units, line, n.units, after, s)
    requires g in o.units && h in n.units && Lines(n.units, after)
    requires !(r.from <= PathOf(o.units, line, g)) && PathOf(n.units, after, h) == PathOf(o.units, line, g)
    ensures h == g
  {
    hide *;
    AboveIsPrefixOfPath(o, line, s, g);
    PathLength(o.units, line, g);
    InsideOutside(o.units, line, n.units, after, s, g);
    PathAt(o.units, line, g);
    PathAt(n.units, after, g);
    SamePathOutside(o.units, line, n.units, after, g);
    KeptOrdered(o, line, n, after, r);
    OneAtPath(n, after, h, g);
  }

  /** Who is above a unit has the beginning of its path. */
  lemma AboveIsPrefixOfPath(o: Org, line: Lineage, x: Id, u: Id)
    requires Lines(o.units, line) && x in o.units && u in o.units
    ensures x in line[u] ==> PathOf(o.units, line, x) <= PathOf(o.units, line, u)
  {
    AboveIsPrefix(o.units, line, x, u);
    if x in line[u] {
      PathFromLine(o.units, line, x);
      PathFromLine(o.units, line, u);
      NamesPrefix(o.units, line[x], line[u]);
    }
  }

  lemma SimRepresents(o: Org, p: Paths, n: Org, q: Paths, r: Rewrite, u: Id)
    requires Sim(o, p, n, q, r) && u in p
    ensures Represented(Canon(r, p[u]), q, r)
  {
    hide Canon, UnitsKept, HomesKept, Represented;
  }

  /** What the simulation says of one unit there was. */
  lemma SimStands(o: Org, line: Lineage, n: Org, after: Lineage, r: Rewrite, u: Id) returns (v: Id)
    requires Kept(o, line, n, after, r) && u in o.units
    ensures Lines(o.units, line) && Lines(n.units, after) && v in n.units
    ensures Canon(r, PathOf(n.units, after, v)) == Canon(r, PathOf(o.units, line, u))
  {
    hide PathsOf, PathOf, Canon, Kept, Sim, Lines;
    KeptSim(o, line, n, after, r);
    var (p, q) := (PathsOf(o.units, line), PathsOf(n.units, after));
    PathAt(o.units, line, u);
    SimRepresents(o, p, n, q, r, u);
    v :| v in q && Canon(r, q[v]) == Canon(r, p[u]);
    PathAt(n.units, after, v);
  }

  lemma SomebodyStands(o: Org, line: Lineage, n: Org, after: Lineage, s: Id, r: Rewrite, u: Id)
    requires Ordered(o) && Lines(o.units, line) && s in o.units && r.from == PathOf(o.units, line, s)
    requires Kept(o, line, n, after, r) && s !in n.units && u in o.units
    ensures Lines(n.units, after) && Stands(n.units, after, Canon(r, PathOf(o.units, line, u)))
  {
    hide PathsOf, PathOf, Canon, Kept, Ordered, Lines;
    var v := SimStands(o, line, n, after, r, u);
    LandedAtCanon(o, line, n, after, s, r, v);
  }

  lemma KeptIsConserved(o: Org, line: Lineage, n: Org, after: Lineage, s: Id, r: Rewrite)
    requires Ordered(o) && Lines(o.units, line) && s in o.units && r.from == PathOf(o.units, line, s)
    requires Kept(o, line, n, after, r) && Inside(o.units, line, n.units, after, s) && s !in n.units
    ensures Conserved(o, line, n, after, r)
  {
    hide *;
    KeptSim(o, line, n, after, r);
    KeptOrdered(o, line, n, after, r);
    SimKeys(o, PathsOf(o.units, line), n, PathsOf(n.units, after), r);
    forall u | u in n.units ensures PathOf(n.units, after, u) == Canon(r, PathOf(o.units, line, u)) {
      LandedAtCanon(o, line, n, after, s, r, u);
    }
    forall u | u in o.units ensures Stands(n.units, after, Canon(r, PathOf(o.units, line, u))) {
      SomebodyStands(o, line, n, after, s, r, u);
    }
    forall d | d in o.homes ensures HomeMoved(o, line, n, after, r, d) {
      HomeIsMoved(o, line, n, after, s, r, d);
    }
    ConservedFrom(o, line, n, after, r);
  }

  lemma ConservedFrom(o: Org, line: Lineage, n: Org, after: Lineage, r: Rewrite)
    requires Lines(o.units, line) && Lines(n.units, after) && Ordered(n) && n.units.Keys <= o.units.Keys
    requires forall u | u in n.units :: PathOf(n.units, after, u) == Canon(r, PathOf(o.units, line, u))
    requires forall u | u in o.units :: Stands(n.units, after, Canon(r, PathOf(o.units, line, u)))
    requires n.homes.Keys == o.homes.Keys && forall d | d in o.homes :: HomeMoved(o, line, n, after, r, d)
    ensures Conserved(o, line, n, after, r)
  {
    hide Lines, PathOf, Canon, Stands, HomeMoved, Ordered;
  }

  lemma SimKeys(o: Org, p: Paths, n: Org, q: Paths, r: Rewrite)
    requires Sim(o, p, n, q, r)
    ensures n.units.Keys <= o.units.Keys && n.homes.Keys == o.homes.Keys
  {
  }

  /** When the way is repeated, the unit that should end at the source's own
      place has none: that place is vacated with the source. */
  lemma RepeatsIsLost(o: Org, line: Lineage, n: Org, after: Lineage, s: Id, t: Id)
    requires Ordered(o) && Lines(o.units, line) && s in o.units && t in o.units && Repeats(o.units, line, s, t)
    requires Inside(o.units, line, n.units, after, s) && NoTwin(n.units, o.units[s].name, o.units[s].parent)
    ensures !Conserved(o, line, n, after, Rewrite(PathOf(o.units, line, s), PathOf(o.units, line, t)))
  {
    var (sp, tp) := (PathOf(o.units, line, s), PathOf(o.units, line, t));
    var r := Rewrite(sp, tp);
    var u :| u in o.units && PathOf(o.units, line, u) == sp + sp[|tp|..];
    CanonOfRepeat(sp, tp);
    PathFromLine(o.units, line, t);
    LineShape(o.units, line, t);
    if Conserved(o, line, n, after, r) {
      assert Stands(n.units, after, sp);
      var v :| v in n.units && PathOf(n.units, after, v) == sp;
      VacatedPlace(o, line, n, after, s, v);
    }
  }

  lemma VacatedPlace(o: Org, line: Lineage, n: Org, after: Lineage, s: Id, v: Id)
    requires Ordered(o) && Ordered(n) && Lines(o.units, line) && s in o.units && |line[s]| >= 2
    requires Lines(n.units, after) && Inside(o.units, line, n.units, after, s)
    requires NoTwin(n.units, o.units[s].name, o.units[s].parent) && v in n.units
    ensures PathOf(n.units, after, v) != PathOf(o.units, line, s)
  {
    InsideAll(o.units, line, n.units, after, s);
    var (sp, q) := (PathOf(o.units, line, s), PathOf(n.units, after, v));
    PathOfChild(o.units, line, s);
    PathOfChild(n.units, after, v);
    LineOfChild(o.units, line, s);
    LineOfChild(n.units, after, v);
    if q == sp {
      var (x, y) := (o.units[s].parent.value, n.units[v].parent.value);
      assert q[|q| - 1] == n.units[v].name && sp[|sp| - 1] == o.units[s].name;
      assert PathOf(o.units, line, x) == sp[..|sp| - 1] && PathOf(n.units, after, y) == q[..|q| - 1];
      hide PathOf, PathsOf, Lines, Ordered;
      PathAt(o.units, line, x);
      PathAt(n.units, after, x);
      SamePathOutside(o.units, line, n.units, after, x);
      OneAtPath(n, after, x, y);
    }
  }

  /** The merge conserves everything -- every unit's and every domain's path,
      rewritten from below the source to below the target, in a forest with
      unique names and no dangling reference -- exactly when the source's
      branch does not repeat the way from the target to the source. */
  lemma MergeConservesIff(o: Org, line: Lineage, n: Org, after: Lineage, s: Id, t: Id)
    requires Ordered(o) && Lines(o.units, line) && s in o.units && t in o.units && s !in line[t]
    requires Folded(o, line, n, after, s, t, Rewrite(PathOf(o.units, line, s), PathOf(o.units, line, t)))
    ensures Conserved(o, line, n, after, Rewrite(PathOf(o.units, line, s), PathOf(o.units, line, t)))
       <==> !Repeats(o.units, line, s, t)
  {
    var r := Rewrite(PathOf(o.units, line, s), PathOf(o.units, line, t));
    SafeIff(o, line, s, t);
    PathsAre(o, line);
    CanonOfSource(r);
    if Repeats(o.units, line, s, t) {
      RepeatsIsLost(o, line, n, after, s, t);
    } else {
      hide Safe, Conserved, Inside, Lines, PathOf, PathsOf, Ordered, Canon, Kept;
      KeptIsConserved(o, line, n, after, s, r);
    }
  }

  lemma CanonOfSource(r: Rewrite)
    ensures Canon(r, r.from) == r.to
  {
  }
}
