/** The organisation's tables in two parts (domain_portfolio.py): what hangs on
    units at the top, which is all that get_group and list_groups show, and
    the rows in cycles written by hand, which every call leaves alone. */
module Parts {
  import opened Common
  import opened Forest
  import opened Merge
  import opened MergeSteps
  import opened Organisation
  import opened Trees
  import opened Changes

  predicate HomeIn(home: Option<Id>, units: Units) {
    home.Some? && home.value in units
  }

  ghost function Part(o: Org): (p: Org)
    ensures Acyclic(p.units)
  {
    TreeIsForest(o.units);
    Org(Tree(o.units), map d | d in o.homes && !HomeIn(o.homes[d], Loose(o.units)) :: o.homes[d])
  }

  ghost function Rest(o: Org): Org {
    Org(Loose(o.units), map d | d in o.homes && HomeIn(o.homes[d], Loose(o.units)) :: o.homes[d])
  }

  ghost function Join(p: Org, rest: Org): Org {
    Org(p.units + rest.units, p.homes + rest.homes)
  }

  /** Nothing in either part refers to the other, nor anything in the second to
      nothing at all. */
  ghost predicate Aside(p: Org, rest: Org) {
    Beside(p.units, rest.units) && HomesAside(p, rest)
  }

  ghost predicate HomesAside(p: Org, rest: Org) {
    && p.homes.Keys !! rest.homes.Keys
    && (forall d | d in p.homes :: !HomeIn(p.homes[d], rest.units))
    && forall d | d in rest.homes :: HomeIn(rest.homes[d], rest.units)
  }

  lemma PartsJoin(o: Org)
    ensures Aside(Part(o), Rest(o)) && o == Join(Part(o), Rest(o))
  {
    hide Tree, Loose, Beside, Acyclic;
    TreeBeside(o.units);
    assert o.homes == Part(o).homes + Rest(o).homes;
  }

  /** Two parts are told apart again. */
  lemma JoinParts(p: Org, rest: Org)
    requires Acyclic(p.units) && Aside(p, rest)
    ensures Part(Join(p, rest)) == p && Rest(Join(p, rest)) == rest
  {
    hide Tree, Loose, Beside, Acyclic;
    TreeOfParts(p.units, rest.units);
    assert Part(Join(p, rest)).homes == p.homes;
    assert Rest(Join(p, rest)).homes == rest.homes;
  }

  /** Tables without cycles are one part. */
  lemma AllHangs(o: Org)
    requires Acyclic(o.units)
    ensures Part(o) == o && Rest(o) == Org(map[], map[])
  {
    hide Acyclic;
    ForestHangs(o.units);
    assert Part(o).homes == o.homes;
  }

  // --------------------------------------- what each statement does to one part

  lemma JoinRow(p: Org, rest: Org, u: Id)
    requires Aside(p, rest) && u in p.units
    ensures u !in rest.units && u in Join(p, rest).units && Join(p, rest).units[u] == p.units[u]
  {
  }

  lemma JoinRehome(p: Org, rest: Org, src: Id, dst: Id)
    requires Aside(p, rest) && src in p.units && dst in p.units
    ensures var (o, q) := (Join(p, rest), p.(homes := Rehome(p.homes, src, dst)));
      Aside(q, rest) && Join(q, rest) == o.(homes := Rehome(o.homes, src, dst))
  {
    JoinRow(p, rest, src);
    JoinRow(p, rest, dst);
    HomesRehome(p, rest, src, dst);
  }

  lemma HomesRehome(p: Org, rest: Org, src: Id, dst: Id)
    requires HomesAside(p, rest) && src !in rest.units && dst !in rest.units
    ensures HomesAside(p.(homes := Rehome(p.homes, src, dst)), rest)
    ensures Rehome(p.homes + rest.homes, src, dst) == Rehome(p.homes, src, dst) + rest.homes
  {
  }

  lemma JoinChildren(p: Org, rest: Org, x: Id)
    requires Aside(p, rest) && x in p.units
    ensures ChildrenOf(Join(p, rest).units, x) == ChildrenOf(p.units, x)
  {
  }

  lemma JoinTwin(p: Org, rest: Org, name: string, parent: Option<Id>)
    requires Aside(p, rest) && !HomeIn(parent, rest.units)
    ensures NoTwin(Join(p, rest).units, name, parent) <==> NoTwin(p.units, name, parent)
    ensures forall u | u in Join(p, rest).units && Join(p, rest).units[u].parent == parent :: u in p.units
  {
    var o := Join(p, rest);
    forall u | u in p.units ensures u in o.units && o.units[u] == p.units[u] { JoinRow(p, rest, u); }
    forall u | u in o.units && o.units[u].parent == parent ensures u in p.units {
      if u in rest.units { LooseRow(p.units, rest.units, u); }
    }
  }

  /** A row written into the first part. */
  lemma JoinWrite(p: Org, rest: Org, id: Id, row: Unit)
    requires Aside(p, rest) && id !in rest.units && !HomeIn(row.parent, rest.units)
    ensures var (o, q) := (Join(p, rest), p.(units := p.units[id := row]));
      Aside(q, rest) && Join(q, rest) == o.(units := o.units[id := row])
  {
    BesideWrite(p.units, rest.units, id, row);
  }

  lemma BesideWrite(t: Units, loose: Units, id: Id, row: Unit)
    requires Beside(t, loose) && id !in loose && !HomeIn(row.parent, loose)
    ensures Beside(t[id := row], loose) && (t + loose)[id := row] == t[id := row] + loose
  {
  }

  /** A row taken out of it. */
  lemma JoinDrop(p: Org, rest: Org, id: Id)
    requires Aside(p, rest) && id in p.units
    ensures var (o, q) := (Join(p, rest), p.(units := p.units - {id}));
      Aside(q, rest) && Join(q, rest) == o.(units := o.units - {id})
  {
    BesideDrop(p.units, rest.units, id);
  }

  lemma BesideDrop(t: Units, loose: Units, id: Id)
    requires Beside(t, loose) && id in t
    ensures Beside(t - {id}, loose) && (t + loose) - {id} == (t - {id}) + loose
  {
  }

  lemma JoinMove(p: Org, rest: Org, c: Id, dst: Id)
    requires Aside(p, rest) && c in p.units && dst in p.units
    ensures var (o, q) := (Join(p, rest), p.(units := WithParent(p.units, c, Some(dst))));
      c in o.units && Aside(q, rest) && Join(q, rest) == o.(units := WithParent(o.units, c, Some(dst)))
  {
    JoinRow(p, rest, c);
    JoinWrite(p, rest, c, p.units[c].(parent := Some(dst)));
  }

  lemma JoinEnd(p: Org, rest: Org, src: Id, dst: Id)
    requires Aside(p, rest) && src in p.units && dst in p.units
    ensures var o := Join(p, rest);
      && src in o.units && dst in o.units
      && var q := p.(units := Inherited(p.units, src, dst) - {src});
      Aside(q, rest) && Join(q, rest) == o.(units := Inherited(o.units, src, dst) - {src})
  {
    JoinRow(p, rest, src);
    JoinRow(p, rest, dst);
    var m := p.(units := Inherited(p.units, src, dst));
    JoinWrite(p, rest, dst, m.units[dst]);
    JoinDrop(m, rest, src);
  }

  lemma JoinLift(p: Org, rest: Org, id: Id)
    requires Aside(p, rest) && id in p.units
    ensures var (o, parent) := (Join(p, rest), p.units[id].parent);
      && id in o.units && o.units[id] == p.units[id]
      && var q := Org(Lifted(p.units, id), LiftedHomes(p.homes, id, parent));
      Aside(q, rest) && Join(q, rest) == Org(Lifted(o.units, id), LiftedHomes(o.homes, id, parent))
  {
    JoinRow(p, rest, id);
    BesideLift(p.units, rest.units, id);
    HomesLift(p, rest, id, p.units[id].parent);
  }

  lemma BesideLift(t: Units, loose: Units, id: Id)
    requires Beside(t, loose) && id in t
    ensures Beside(Lifted(t, id), loose) && Lifted(t + loose, id) == Lifted(t, id) + loose
  {
    PartRow(t, loose, id);
    forall u | u in loose ensures u != id && loose[u].parent != Some(id) { LooseRow(t, loose, u); }
    LiftedSum(t, loose, id);
  }

  lemma LiftedSum(t: Units, loose: Units, id: Id)
    requires id in t && id !in loose && forall u | u in loose :: loose[u].parent != Some(id)
    ensures Lifted(t + loose, id) == Lifted(t, id) + loose
  {
  }

  lemma HomesLift(p: Org, rest: Org, id: Id, parent: Option<Id>)
    requires HomesAside(p, rest) && id !in rest.units && !HomeIn(parent, rest.units)
    ensures HomesAside(p.(homes := LiftedHomes(p.homes, id, parent)), rest)
    ensures LiftedHomes(p.homes + rest.homes, id, parent) == LiftedHomes(p.homes, id, parent) + rest.homes
  {
  }

  lemma JoinCut(p: Org, rest: Org, gone: set<Id>)
    requires Aside(p, rest) && gone <= p.units.Keys
    ensures var (o, q) := (Join(p, rest), Org(Without(p.units, gone), WithoutHomes(p.homes, gone)));
      Aside(q, rest) && Join(q, rest) == Org(Without(o.units, gone), WithoutHomes(o.homes, gone))
  {
    BesideCut(p.units, rest.units, gone);
    HomesCut(p, rest, gone);
  }

  lemma BesideCut(t: Units, loose: Units, gone: set<Id>)
    requires Beside(t, loose) && gone <= t.Keys
    ensures gone !! loose.Keys && Beside(Without(t, gone), loose)
      && Without(t + loose, gone) == Without(t, gone) + loose
  {
  }

  lemma HomesCut(p: Org, rest: Org, gone: set<Id>)
    requires HomesAside(p, rest) && gone !! rest.units.Keys
    ensures HomesAside(p.(homes := WithoutHomes(p.homes, gone)), rest)
    ensures WithoutHomes(p.homes + rest.homes, gone) == WithoutHomes(p.homes, gone) + rest.homes
  {
  }

  /** A new row in a place that leads back to it, or nowhere, is not seen, nor
      what waited below it; anywhere else it is the one row more. */
  lemma AddedWhere(o: Org, id: Id, row: Unit)
    requires id !in o.units
    ensures var n := o.(units := o.units[id := row]);
      && (Hidden(o.units, id, row.parent) ==>
            id !in Part(n).units && Part(n).units == AwayFrom(Part(o).units, o.units, id))
      && (!Hidden(o.units, id, row.parent) ==>
            Part(n) == Part(o).(units := Part(o).units[id := row]) && Rest(n) == Rest(o))
  {
    hide Tree, Loose, Hidden, AwayFrom, Hangs;
    AddedHangs(o.units, id, row);
    TreeBeside(o.units[id := row]);
    if Hidden(o.units, id, row.parent) { PartsApart(Tree(o.units[id := row]), Loose(o.units[id := row]), id); }
  }

  lemma PartsApart(t: Units, loose: Units, id: Id)
    requires Beside(t, loose) && id in loose
    ensures id !in t
  {
  }

  /** What waits for a number yet to be given hangs. */
  lemma PartReached(o: Org, x: Id, u: Id)
    requires x !in o.units
    ensures Reached(Part(o).units, x, u) <==> Reached(o.units, x, u)
  {
    hide Hangs, ReachedBy;
    if Reached(Part(o).units, x, u) { MoreReached(Part(o).units, o.units, x, u); }
    if Reached(o.units, x, u) {
      var down :| ReachedBy(o.units, x, u, down);
      ReachedInPart(o, x, u, down);
    }
  }

  lemma {:induction false} ReachedInPart(o: Org, x: Id, u: Id, down: seq<Id>)
    requires x !in o.units && ReachedBy(o.units, x, u, down)
    ensures Reached(Part(o).units, x, u)
    decreases |down|
  {
    ReachedSelf(Part(o).units, x);
    if u != x {
      var init := down[..|down| - 1];
      assert ReachedBy(o.units, x, init[|init| - 1], init);
      hide Hangs, Reached;
      ReachedInPart(o, x, init[|init| - 1], init);
      UnderHangs(o.units, x, o.units[u], down, u);
      ReachedChild(Part(o).units, x, init[|init| - 1], u);
    }
  }
}
