/** The organisation's units and the domains in them, changed in place
    (domain_portfolio.py). */
module Organisation {
  import opened Common
  import opened Forest
  import opened Merge
  import opened MergeSteps

  /** What the tables always satisfy: a forest in which every reference leads
      somewhere. */
  ghost predicate Whole(o: Org) {
    Acyclic(o.units) && Rooted(o.units) && HomesThere(o)
  }

  /** The lineage of a forest; there is only one. */
  ghost function LineageOf(units: Units): (line: Lineage)
    requires Acyclic(units)
    ensures Lines(units, line)
  {
    var line :| Lines(units, line);
    line
  }

  /** x is at or above u. */
  ghost predicate Above(units: Units, x: Id, u: Id)
    requires Acyclic(units) && u in units
  {
    x in LineageOf(units)[u]
  }

  ghost function FullPath(units: Units, u: Id): Path
    requires Acyclic(units) && u in units
  {
    PathOf(units, LineageOf(units), u)
  }

  lemma OneLineage(units: Units, line: Lineage)
    requires Lines(units, line)
    ensures Acyclic(units) && LineageOf(units) == line
  {
    LinesKeys(units, line);
    LinesKeys(units, LineageOf(units));
    forall u | u in units ensures LineageOf(units)[u] == line[u] { LineUnique(units, line, LineageOf(units), u); }
  }

  // --------------------------------------------------------- the branch of a unit

  /** u is reached from x by going down from parents to children. */
  ghost predicate ReachedBy(units: Units, x: Id, u: Id, down: seq<Id>) {
    down != [] && down[0] == x && down[|down| - 1] == u
    && forall i | 0 < i < |down| :: down[i] in units && units[down[i]].parent == Some(down[i - 1])
  }

  ghost predicate Reached(units: Units, x: Id, u: Id) {
    exists down :: ReachedBy(units, x, u, down)
  }

  lemma ReachedChild(units: Units, x: Id, p: Id, u: Id)
    requires Reached(units, x, p) && u in units && units[u].parent == Some(p)
    ensures Reached(units, x, u)
  {
    var down :| ReachedBy(units, x, p, down);
    assert ReachedBy(units, x, u, down + [u]);
  }

  lemma {:induction false} ClosedHoldsReached(units: Units, x: Id, u: Id, down: seq<Id>, found: set<Id>)
    requires ReachedBy(units, x, u, down) && x in found
    requires forall v | v in units && units[v].parent.Some? && units[v].parent.value in found :: v in found
    ensures u in found
    decreases |down|
  {
    if |down| > 1 {
      var init := down[..|down| - 1];
      assert ReachedBy(units, x, init[|init| - 1], init);
      ClosedHoldsReached(units, x, init[|init| - 1], init, found);
    }
  }

  /** One look through all rows: the children of a unit not found before. */
  method AddChildren(units: Units, parent: Id, before: set<Id>, waiting: seq<Id>)
    returns (found: set<Id>, frontier: seq<Id>)
    ensures found == before + ChildrenOf(units, parent)
    ensures forall u :: u in frontier <==> u in waiting || (u in ChildrenOf(units, parent) && u !in before)
    ensures found == before ==> frontier == waiting
  {
    found, frontier := before, waiting;
    var rows := units.Keys;
    while rows != {}
      invariant rows <= units.Keys
      invariant found == before + (ChildrenOf(units, parent) - rows)
      invariant forall u :: u in frontier <==> u in waiting || (u in ChildrenOf(units, parent) - rows && u !in before)
      invariant found == before ==> frontier == waiting
      decreases rows
    {
      var v :| v in rows;
      rows := rows - {v};
      if units[v].parent == Some(parent) && v !in found {
        found := found + {v};
        frontier := frontier + [v];
      }
    }
  }

  /** Exactly what can be reached from the unit by going down, itself included,
      on any data, cycles written by hand too. */
  method Descendants(units: Units, x: Id) returns (found: set<Id>)
    ensures forall u :: u in found <==> Reached(units, x, u)
  {
    hide Reached;
    found := {x};
    var frontier := [x];
    ReachedSelf(units, x);
    ghost var all := units.Keys + {x};
    while frontier != []
      invariant x in found && found <= all
      invariant forall u | u in frontier :: u in found
      invariant forall u | u in found :: Reached(units, x, u)
      invariant forall v | v in units && units[v].parent.Some? && units[v].parent.value in found ::
        v in found || units[v].parent.value in frontier
      decreases |all - found|, |frontier|
    {
      var parent := frontier[|frontier| - 1];
      var waiting := frontier[..|frontier| - 1];
      assert frontier == waiting + [parent];
      ghost var before := found;
      found, frontier := AddChildren(units, parent, found, waiting);
      forall u | u in found ensures Reached(units, x, u) {
        if u !in before { ReachedChild(units, x, parent, u); }
      }
      if found != before { SmallerRest(all, before, found); }
    }
    forall u | Reached(units, x, u) ensures u in found { ReachedIsFound(units, x, u, found); }
  }

  lemma ReachedSelf(units: Units, x: Id)
    ensures Reached(units, x, x)
  {
    assert ReachedBy(units, x, x, [x]);
  }

  lemma SmallerRest(all: set<Id>, before: set<Id>, found: set<Id>)
    requires before <= found <= all && found != before
    ensures |all - found| < |all - before|
  {
    assert all - found <= all - before;
    var v :| v in found && v !in before;
    assert v in all - before && v !in all - found;
    ProperSubsetSize(all - found, all - before);
  }

  lemma ReachedIsFound(units: Units, x: Id, u: Id, found: set<Id>)
    requires Reached(units, x, u) && x in found
    requires forall v | v in units && units[v].parent.Some? && units[v].parent.value in found :: v in found
    ensures u in found
  {
    var down :| ReachedBy(units, x, u, down);
    ClosedHoldsReached(units, x, u, down, found);
  }

  /** In a forest, going down from a unit reaches exactly the units it is above. */
  lemma ReachedIffAbove(units: Units, line: Lineage, x: Id, u: Id)
    requires Lines(units, line) && x in units
    ensures Reached(units, x, u) <==> u in units && x in line[u]
  {
    if Reached(units, x, u) {
      LineOfChild(units, line, x);
      var branch := Branch(line, x);
      forall v | v in units && units[v].parent.Some? && units[v].parent.value in branch ensures v in branch {
        LineOfChild(units, line, v);
      }
      ReachedIsFound(units, x, u, branch);
    }
    if u in units && x in line[u] { AboveIsReached(units, line, x, u); }
  }

  lemma {:induction false} AboveIsReached(units: Units, line: Lineage, x: Id, u: Id)
    requires Lines(units, line) && x in units && u in units && x in line[u]
    ensures Reached(units, x, u)
    decreases |line[u]|
  {
    LineOfChild(units, line, u);
    if u == x {
      ReachedSelf(units, x);
    } else {
      var p := units[u].parent.value;
      AboveIsReached(units, line, x, p);
      ReachedChild(units, x, p, u);
    }
  }

  lemma BranchReached(units: Units, x: Id, found: set<Id>)
    requires Acyclic(units) && x in units && forall u :: u in found <==> Reached(units, x, u)
    ensures found == Branch(LineageOf(units), x)
    ensures forall u | u in units :: u in found <==> Above(units, x, u)
  {
    var line := LineageOf(units);
    LinesKeys(units, line);
    hide Reached, LineageOf, Lines;
    forall u ensures u in found <==> u in units && x in line[u] { ReachedIffAbove(units, line, x, u); }
  }

  // ----------------------------------------------------- forests, without lines

  /** Nobody's parent is below it. */
  ghost predicate NoCycle(units: Units) {
    forall x {:trigger HasParent(units, x)} | x in units && HasParent(units, x) ::
      !Reached(units, x, units[x].parent.value)
  }

  lemma ReachedFromParent(units: Units, p: Id, u: Id, x: Id)
    requires u in units && units[u].parent == Some(p) && Reached(units, u, x)
    ensures Reached(units, p, x)
  {
    var down :| ReachedBy(units, u, x, down);
    assert ReachedBy(units, p, x, [p] + down);
  }

  lemma UpNext(units: Units, u: Id, seen: set<Id>)
    requires NoCycle(units) && u in units && HasParent(units, u) && seen <= units.Keys && u !in seen
    requires forall x | x in seen :: Reached(units, u, x)
    ensures var p := units[u].parent.value; p !in seen + {u} && forall x | x in seen + {u} :: Reached(units, p, x)
    ensures |units.Keys - (seen + {u})| < |units.Keys - seen|
  {
    hide Reached;
    var p := units[u].parent.value;
    ReachedSelf(units, u);
    forall x | x in seen + {u} ensures Reached(units, p, x) { ReachedFromParent(units, p, u, x); }
    ProperSubsetSize(units.Keys - (seen + {u}), units.Keys - seen);
  }

  /** The units above u and u itself; those seen are below. */
  ghost function Upwards(units: Units, u: Id, seen: set<Id>): seq<Id>
    requires NoCycle(units) && u in units && seen <= units.Keys && u !in seen
    requires forall x | x in seen :: Reached(units, u, x)
    decreases |units.Keys - seen|
  {
    if HasParent(units, u) then
      UpNext(units, u, seen);
      Upwards(units, units[u].parent.value, seen + {u}) + [u]
    else [u]
  }

  lemma {:induction false} UpwardsSame(units: Units, u: Id, seen: set<Id>, other: set<Id>)
    requires NoCycle(units) && u in units && seen <= units.Keys && u !in seen && other <= units.Keys && u !in other
    requires (forall x | x in seen :: Reached(units, u, x)) && forall x | x in other :: Reached(units, u, x)
    ensures Upwards(units, u, seen) == Upwards(units, u, other)
    decreases |units.Keys - seen|
  {
    hide Reached;
    if HasParent(units, u) {
      UpNext(units, u, seen);
      UpNext(units, u, other);
      UpwardsSame(units, units[u].parent.value, seen + {u}, other + {u});
    }
  }

  /** There is a lineage exactly when nobody's parent is below it. */
  lemma AcyclicIff(units: Units)
    ensures Acyclic(units) <==> NoCycle(units)
  {
    if Acyclic(units) {
      var line := LineageOf(units);
      hide LineageOf, Acyclic, Lines, Reached;
      forall x | x in units && HasParent(units, x) ensures !Reached(units, x, units[x].parent.value) {
        ReachedIffAbove(units, line, x, units[x].parent.value);
        LineOfChild(units, line, x);
      }
    }
    if NoCycle(units) { UpwardsIsLineage(units); }
  }

  lemma UpwardsIsLineage(units: Units)
    requires NoCycle(units)
    ensures Acyclic(units)
  {
    hide Reached, NoCycle;
    var line := map u | u in units :: Upwards(units, u, {});
    forall u | u in units ensures LineOk(units, line, u) {
      if HasParent(units, u) {
        UpNext(units, u, {});
        assert {} + {u} == {u};
        UpwardsSame(units, units[u].parent.value, {u}, {});
      }
    }
    assert Lines(units, line);
  }
}
