/** Single changes to the organisation's tables (domain_portfolio.py): what
    each does to the forest, to the units' paths, and to their names. */
module Changes {
  import opened Common
  import opened Forest
  import opened Merge
  import opened Organisation
  import opened Trees

  ghost function PathFrom(units: Units, parent: Option<Id>): Path
    requires Acyclic(units)
  {
    if parent.Some? && parent.value in units then FullPath(units, parent.value) else []
  }

  lemma FullPathStep(units: Units, u: Id)
    requires Acyclic(units) && u in units
    ensures FullPath(units, u) == PathFrom(units, units[u].parent) + [units[u].name]
    ensures forall x :: Above(units, x, u) <==>
      x == u || (HasParent(units, u) && Above(units, x, units[u].parent.value))
    ensures HasParent(units, u) ==> !Above(units, u, units[u].parent.value)
  {
    PathOfChild(units, LineageOf(units), u);
    LineOfChild(units, LineageOf(units), u);
  }

  ghost function Depth(units: Units, u: Id): nat
    requires Acyclic(units) && u in units
  {
    LinesKeys(units, LineageOf(units));
    |LineageOf(units)[u]|
  }

  lemma DepthStep(units: Units, u: Id)
    requires Acyclic(units) && u in units
    ensures HasParent(units, u) ==> Depth(units, units[u].parent.value) < Depth(units, u)
    ensures |FullPath(units, u)| == Depth(units, u)
  {
    LineOfChild(units, LineageOf(units), u);
    PathOfChild(units, LineageOf(units), u);
  }

  /** Rows that did not change, and whose parents did not, all the way up. */
  ghost predicate Untouched(o: Units, n: Units, keep: set<Id>) {
    forall u | u in keep ::
      && u in o && u in n && n[u].name == o[u].name && n[u].parent == o[u].parent
      && (HasParent(o, u) || HasParent(n, u) ==> n[u].parent.value in keep)
  }

  lemma {:induction false} SameFullPath(o: Units, n: Units, keep: set<Id>, u: Id)
    requires Acyclic(o) && Acyclic(n) && Untouched(o, n, keep) && u in keep
    ensures FullPath(n, u) == FullPath(o, u)
    decreases Depth(o, u)
  {
    hide FullPath, Acyclic, Depth, Above;
    FullPathStep(o, u);
    FullPathStep(n, u);
    DepthStep(o, u);
    if HasParent(o, u) { SameFullPath(o, n, keep, o[u].parent.value); }
  }

  /** Only parents make a lineage. */
  lemma SameParents(o: Units, line: Lineage, n: Units)
    requires Lines(o, line) && n.Keys == o.Keys && forall u | u in o :: n[u].parent == o[u].parent
    ensures Lines(n, line)
  {
    forall u | u in n ensures LineOk(n, line, u) { assert LineOk(o, line, u); }
  }

  // ------------------------------------------------------------- a unit is added

  /** The new place leads back to the new unit. */
  ghost predicate LeadsBack(units: Units, id: Id, parent: Option<Id>) {
    parent.Some? && Reached(units, id, parent.value)
  }

  /** A forest stays one exactly when the new unit is not put under itself, or
      under one that waits below it. */
  lemma AddAcyclicIff(units: Units, id: Id, row: Unit)
    requires Acyclic(units) && id !in units
    ensures Acyclic(units[id := row]) <==> !LeadsBack(units, id, row.parent)
  {
    hide Acyclic, Reached, Tree, Loose;
    var n := units[id := row];
    ForestHangs(units);
    AddedHangs(units, id, row);
    TreeIsForest(n);
    if Acyclic(n) { ForestHangs(n); }
  }

  /** A new unit has its parent's path and its name; what waited below it has
      its path in front, and nobody else's path changes. */
  lemma {:induction false} AddKeepsForest(units: Units, id: Id, row: Unit, u: Id)
    requires Acyclic(units) && id !in units && u in units && !LeadsBack(units, id, row.parent)
    ensures Acyclic(units[id := row])
    ensures FullPath(units[id := row], id) == PathFrom(units, row.parent) + [row.name]
    ensures FullPath(units[id := row], u) ==
      (if Reached(units, id, u) then FullPath(units[id := row], id) else []) + FullPath(units, u)
  {
    AddAcyclicIff(units, id, row);
    hide Acyclic, FullPath, Reached;
    FullPathStep(units[id := row], id);
    if row.parent.Some? && row.parent.value in units {
      ReachedSelf(units, id);
      AddedPath(units, id, row, row.parent.value);
    }
    AddedPath(units, id, row, u);
  }

  lemma {:induction false} AddedPath(units: Units, id: Id, row: Unit, u: Id)
    requires Acyclic(units) && Acyclic(units[id := row]) && id !in units && u in units
    ensures FullPath(units[id := row], u) ==
      (if Reached(units, id, u) then FullPath(units[id := row], id) else []) + FullPath(units, u)
    decreases Depth(units, u)
  {
    hide Acyclic, FullPath, Depth, Above, Reached;
    FullPathStep(units, u);
    FullPathStep(units[id := row], u);
    DepthStep(units, u);
    ReachedSelf(units, id);
    if Reached(units, id, u) {
      ReachedUp(units, id, u);
      if !HasParent(units, u) && units[u].parent.value != id { ReachedUp(units, id, units[u].parent.value); }
    } else {
      AwayParent(units, id, u);
    }
    if HasParent(units, u) { AddedPath(units, id, row, units[u].parent.value); }
  }

  lemma AddAbove(units: Units, id: Id, row: Unit, x: Id, u: Id)
    requires Acyclic(units) && Acyclic(units[id := row]) && id !in units
    requires u in units && x in units && Above(units, x, u)
    ensures Above(units[id := row], x, u)
  {
    var n := units[id := row];
    hide LineageOf, Reached;
    ReachedIffAbove(units, LineageOf(units), x, u);
    MoreReached(units, n, x, u);
    ReachedIffAbove(n, LineageOf(n), x, u);
  }

  lemma MoreReached(units: Units, n: Units, x: Id, u: Id)
    requires Reached(units, x, u) && forall v | v in units :: v in n && n[v].parent == units[v].parent
    ensures Reached(n, x, u)
  {
    var down :| ReachedBy(units, x, u, down);
    assert ReachedBy(n, x, u, down);
  }

  /** From a unit without a parent down, nothing waits for a new unit. */
  lemma {:induction false} GroundedAway(units: Units, id: Id, u: Id)
    requires Acyclic(units) && id !in units && u in units && Grounded(units, LineageOf(units), u)
    ensures !Reached(units, id, u)
    decreases Depth(units, u)
  {
    var line := LineageOf(units);
    LineShape(units, line, u);
    LineOfChild(units, line, u);
    DepthStep(units, u);
    hide LineageOf, Lines, Reached, Depth;
    if Reached(units, id, u) {
      ReachedUp(units, id, u);
      if HasParent(units, u) {
        LineShape(units, line, units[u].parent.value);
        GroundedAway(units, id, units[u].parent.value);
      }
    }
  }

  lemma {:induction false} GroundedStays(units: Units, id: Id, row: Unit, u: Id)
    requires Acyclic(units) && Acyclic(units[id := row]) && id !in units
    requires u in units && Grounded(units, LineageOf(units), u)
    ensures Grounded(units[id := row], LineageOf(units[id := row]), u)
    decreases Depth(units, u)
  {
    var (n, line, after) := (units[id := row], LineageOf(units), LineageOf(units[id := row]));
    LineShape(units, line, u);
    LineOfChild(units, line, u);
    LineShape(n, after, u);
    LineOfChild(n, after, u);
    DepthStep(units, u);
    hide LineageOf, Lines, Depth;
    if HasParent(units, u) {
      LineShape(units, line, units[u].parent.value);
      LineShape(n, after, units[u].parent.value);
      GroundedStays(units, id, row, units[u].parent.value);
    }
  }

  // ----------------------------------------------------------- a unit is changed

  /** The new place of a unit: at the top, or under a known unit outside its
      own branch. */
  ghost predicate Placeable(units: Units, id: Id, parent: Option<Id>)
    requires Acyclic(units)
  {
    parent.Some? ==> parent.value in units && !Above(units, id, parent.value)
  }

  lemma ChangeAcyclic(units: Units, id: Id, row: Unit)
    requires Acyclic(units) && id in units && Placeable(units, id, row.parent)
    ensures Acyclic(units[id := row])
  {
    var line := LineageOf(units);
    MoveKeepsLines(units, line, id, row.parent);
    hide LineageOf, MovedLines;
    SameParents(WithParent(units, id, row.parent), MovedLines(line, id, LineAt(units, line, row.parent)),
                units[id := row]);
  }

  /** The units that are not below x. */
  ghost function Elsewhere(units: Units, x: Id): set<Id>
    requires Acyclic(units)
  {
    set u | u in units && !Above(units, x, u)
  }

  lemma ElsewhereUp(units: Units, x: Id)
    requires Acyclic(units) && x in units
    ensures x !in Elsewhere(units, x)
    ensures forall u | u in Elsewhere(units, x) ::
      u in units && (HasParent(units, u) ==> units[u].parent.value in Elsewhere(units, x))
  {
    hide Acyclic, Above;
    FullPathStep(units, x);
    forall u | u in Elsewhere(units, x) ensures HasParent(units, u) ==> units[u].parent.value in Elsewhere(units, x) {
      FullPathStep(units, u);
    }
  }

  lemma IsElsewhere(units: Units, x: Id, u: Id)
    requires Acyclic(units)
    ensures u in Elsewhere(units, x) <==> u in units && !Above(units, x, u)
  {
  }

  /** What is not below the unit stays where it was. */
  lemma ChangeElsewhere(units: Units, id: Id, row: Unit, u: Id)
    requires Acyclic(units) && id in units && Placeable(units, id, row.parent)
    requires u in units && !Above(units, id, u)
    ensures Acyclic(units[id := row]) && FullPath(units[id := row], u) == FullPath(units, u)
  {
    hide FullPath, Acyclic, Elsewhere, Above;
    ChangeAcyclic(units, id, row);
    ElsewhereUp(units, id);
    IsElsewhere(units, id, u);
    SameFullPath(units, units[id := row], Elsewhere(units, id), u);
  }

  /** The whole branch goes along: below the unit, paths begin anew. */
  lemma {:induction false} ChangeBelow(units: Units, id: Id, row: Unit, u: Id)
    requires Acyclic(units) && id in units && Placeable(units, id, row.parent) && u in units && Above(units, id, u)
    ensures Acyclic(units[id := row]) && |FullPath(units, id)| <= |FullPath(units, u)|
    ensures FullPath(units[id := row], u)
         == PathFrom(units, row.parent) + [row.name] + FullPath(units, u)[|FullPath(units, id)|..]
    decreases Depth(units, u)
  {
    hide FullPath, Acyclic, Depth, Above;
    var n := units[id := row];
    ChangeAcyclic(units, id, row);
    if row.parent.Some? { ChangeElsewhere(units, id, row, row.parent.value); }
    FullPathStep(units, u);
    FullPathStep(n, u);
    DepthStep(units, u);
    if u == id {
      assert FullPath(units, u)[|FullPath(units, id)|..] == [];
    } else {
      var p := units[u].parent.value;
      ChangeBelow(units, id, row, p);
      assert FullPath(units, u)[|FullPath(units, id)|..] ==
        FullPath(units, p)[|FullPath(units, id)|..] + [units[u].name];
    }
  }

  lemma ChangeApart(units: Units, id: Id, row: Unit)
    requires NamesApart(units) && id in units
    ensures NamesApart(units[id := row]) <==> NoTwin(units - {id}, row.name, row.parent)
  {
    var n := units[id := row];
    ApartAll(units);
    if NamesApart(n) {
      forall u | u in units - {id} ensures !(units[u].name == row.name && units[u].parent == row.parent) {
        assert n[u] == units[u] && n[id] == row && !Namesakes(n, u, id);
      }
    }
    if NoTwin(units - {id}, row.name, row.parent) {
      forall u, v | u in n && v in n && u != v ensures !Namesakes(n, u, v) {
        if u != id { assert u in units - {id} && (units - {id})[u] == units[u]; }
        if v != id { assert v in units - {id} && (units - {id})[v] == units[v]; }
      }
    }
  }

  // ---------------------------------------------------- a unit goes, its units stay

  /** A deleted unit's own units move up to its parent. */
  function Lifted(units: Units, x: Id): Units
    requires x in units
  {
    map u | u in units && u != x ::
      if units[u].parent == Some(x) then units[u].(parent := units[x].parent) else units[u]
  }

  function LiftedHomes(homes: map<DomainName, Option<Id>>, x: Id, parent: Option<Id>): map<DomainName, Option<Id>> {
    map d | d in homes :: if homes[d] == Some(x) then parent else homes[d]
  }

  ghost function LiftLines(line: Lineage, x: Id): Lineage
    requires x in line && line[x] != []
  {
    map u | u in line && u != x ::
      if line[x] <= line[u] then line[x][..|line[x]| - 1] + line[u][|line[x]|..] else line[u]
  }

  lemma LiftLine(units: Units, line: Lineage, x: Id, u: Id)
    requires Lines(units, line) && x in units && line[x] != [] && u in units && u != x
    ensures LineOk(Lifted(units, x), LiftLines(line, x), u)
  {
    LinesKeys(units, line);
    hide Lines, LineOk, Lifted, LiftLines;
    LineOfChild(units, line, u);
    LineOfChild(units, line, x);
    AboveIsPrefix(units, line, x, u);
    if units[u].parent == Some(x) {
      if HasParent(units, x) { AboveIsPrefix(units, line, x, units[x].parent.value); }
      assert line[x][..|line[x]| - 1] == if HasParent(units, x) then line[units[x].parent.value] else [];
      LiftedChild(units, line, x, u);
    } else {
      if HasParent(units, u) { PrefixOfLonger(line[x], line[units[u].parent.value], u); }
      LiftedOther(units, line, x, u);
    }
  }

  lemma LiftedChild(units: Units, line: Lineage, x: Id, u: Id)
    requires line.Keys == units.Keys && x in units && line[x] != [] && u in units && u != x
      && units[u].parent == Some(x)
    requires line[u] == line[x] + [u] && units[x].parent != Some(x)
    requires line[x][..|line[x]| - 1] == if HasParent(units, x) then line[units[x].parent.value] else []
    requires HasParent(units, x) ==> !(line[x] <= line[units[x].parent.value])
    ensures LineOk(Lifted(units, x), LiftLines(line, x), u)
  {
    assert line[u][|line[x]|..] == [u];
  }

  lemma LiftedOther(units: Units, line: Lineage, x: Id, u: Id)
    requires line.Keys == units.Keys && x in units && line[x] != [] && u in units && u != x
      && units[u].parent != Some(x)
    requires line[u] == if HasParent(units, u) then line[units[u].parent.value] + [u] else [u]
    requires HasParent(units, u) ==> var l := line[units[u].parent.value];
      (line[x] <= line[u] <==> line[x] <= l) && (line[x] <= l ==> line[u][|line[x]|..] == l[|line[x]|..] + [u])
    requires !HasParent(units, u) ==> !(line[x] <= line[u])
    ensures LineOk(Lifted(units, x), LiftLines(line, x), u)
  {
  }

  lemma LiftAcyclic(units: Units, x: Id)
    requires Acyclic(units) && x in units
    ensures Acyclic(Lifted(units, x))
  {
    var line := LineageOf(units);
    LinesKeys(units, line);
    LineOfChild(units, line, x);
    hide Lines, LineageOf, LineOk;
    forall u | u in units && u != x ensures LineOk(Lifted(units, x), LiftLines(line, x), u) {
      LiftLine(units, line, x, u);
    }
    LinesOk(Lifted(units, x), LiftLines(line, x));
  }

  lemma NotOwnParent(units: Units, x: Id)
    requires Acyclic(units) && x in units
    ensures units[x].parent != Some(x)
  {
    FullPathStep(units, x);
  }

  lemma LiftUntouched(units: Units, x: Id, keep: set<Id>)
    requires x in units && x !in keep
    requires forall u | u in keep :: u in units && (HasParent(units, u) ==> units[u].parent.value in keep)
    ensures Untouched(units, Lifted(units, x), keep)
  {
    forall u | u in keep
      ensures u in Lifted(units, x) && Lifted(units, x)[u] == units[u]
    {
      if units[u].parent == Some(x) { assert HasParent(units, u); }
    }
  }

  lemma LiftElsewhere(units: Units, x: Id, u: Id)
    requires Acyclic(units) && x in units && u in units && !Above(units, x, u)
    ensures Acyclic(Lifted(units, x)) && u != x && FullPath(Lifted(units, x), u) == FullPath(units, u)
  {
    hide FullPath, Acyclic, Elsewhere, Above;
    LiftAcyclic(units, x);
    ElsewhereUp(units, x);
    IsElsewhere(units, x, u);
    NotOwnParent(units, x);
    LiftUntouched(units, x, Elsewhere(units, x));
    SameFullPath(units, Lifted(units, x), Elsewhere(units, x), u);
  }

  /** Below a deleted unit, its name drops out of the paths. */
  lemma {:induction false} LiftBelow(units: Units, x: Id, u: Id)
    requires Acyclic(units) && x in units && u in units && u != x && Above(units, x, u)
    ensures Acyclic(Lifted(units, x)) && |FullPath(units, x)| <= |FullPath(units, u)|
    ensures FullPath(Lifted(units, x), u) ==
      PathFrom(units, units[x].parent) + FullPath(units, u)[|FullPath(units, x)|..]
    decreases Depth(units, u)
  {
    hide FullPath, Acyclic, Depth, Above;
    var n := Lifted(units, x);
    LiftAcyclic(units, x);
    NotOwnParent(units, x);
    if HasParent(units, x) {
      FullPathStep(units, x);
      LiftElsewhere(units, x, units[x].parent.value);
    }
    FullPathStep(units, u);
    FullPathStep(n, u);
    DepthStep(units, u);
    var p := units[u].parent.value;
    if p == x {
      assert FullPath(units, u)[|FullPath(units, x)|..] == [units[u].name];
    } else {
      LiftBelow(units, x, p);
      assert FullPath(units, u)[|FullPath(units, x)|..] == FullPath(units, p)[|FullPath(units, x)|..] + [units[u].name];
    }
  }

  /** A unit below x has the name of a unit beside x. */
  ghost predicate LiftClashes(units: Units, x: Id)
    requires x in units
  {
    exists c, v | c in units && v in units ::
      units[c].parent == Some(x) && v != x && v != c && units[v].parent == units[x].parent
        && units[v].name == units[c].name
  }

  /** Names stay apart exactly when no unit below has the name of one beside. */
  lemma LiftApartIff(units: Units, x: Id)
    requires NamesApart(units) && x in units && units[x].parent != Some(x)
    ensures NamesApart(Lifted(units, x)) <==> !LiftClashes(units, x)
  {
    var n := Lifted(units, x);
    if LiftClashes(units, x) {
      var c, v :| c in units && v in units &&
        units[c].parent == Some(x) && v != x && v != c && units[v].parent == units[x].parent
          && units[v].name == units[c].name;
      assert Namesakes(n, c, v);
    } else {
      forall u, v | u in n && v in n && u != v ensures !Namesakes(n, u, v) {
        assert !Namesakes(units, u, v);
      }
    }
  }

  lemma LiftWhole(o: Org, x: Id)
    requires Whole(o) && x in o.units && o.units[x].parent != Some(x)
    ensures Whole(Org(Lifted(o.units, x), LiftedHomes(o.homes, x, o.units[x].parent)))
  {
    LiftAcyclic(o.units, x);
    RootedAll(o.units);
    hide Acyclic;
  }

  // ------------------------------------------------------ a unit goes with contents

  function Without(units: Units, gone: set<Id>): Units {
    map u | u in units && u !in gone :: units[u]
  }

  function WithoutHomes(homes: map<DomainName, Option<Id>>, gone: set<Id>): map<DomainName, Option<Id>> {
    map d | d in homes && !(homes[d].Some? && homes[d].value in gone) :: homes[d]
  }

  lemma CutAcyclic(units: Units, x: Id)
    requires Acyclic(units) && x in units
    ensures Acyclic(Without(units, Branch(LineageOf(units), x)))
  {
    var line := LineageOf(units);
    LinesKeys(units, line);
    var n := Without(units, Branch(line, x));
    var after := map u | u in n :: line[u];
    hide Lines, LineageOf;
    forall u | u in n ensures LineOk(n, after, u) { LineOfChild(units, line, u); }
    LinesOk(n, after);
  }

  /** What is not in the branch stays where it was. */
  lemma CutElsewhere(units: Units, x: Id, u: Id)
    requires Acyclic(units) && x in units && u in units && !Above(units, x, u)
    ensures var n := Without(units, Branch(LineageOf(units), x));
      Acyclic(n) && u in n && FullPath(n, u) == FullPath(units, u)
  {
    hide FullPath, Acyclic, Elsewhere, LineageOf, Branch, Above;
    CutAcyclic(units, x);
    var (n, keep) := (Without(units, Branch(LineageOf(units), x)), Elsewhere(units, x));
    CutKeepsElsewhere(units, x);
    ElsewhereUp(units, x);
    IsElsewhere(units, x, u);
    SameFullPath(units, n, keep, u);
  }

  lemma CutKeepsElsewhere(units: Units, x: Id)
    requires Acyclic(units)
    ensures Without(units, Branch(LineageOf(units), x)).Keys == Elsewhere(units, x)
  {
    LinesKeys(units, LineageOf(units));
    hide LineageOf, Acyclic;
  }

  lemma CutWhole(o: Org, x: Id)
    requires Whole(o) && x in o.units
    ensures var gone := Branch(LineageOf(o.units), x); Whole(Org(Without(o.units, gone), WithoutHomes(o.homes, gone)))
    ensures NamesApart(o.units) ==> NamesApart(Without(o.units, Branch(LineageOf(o.units), x)))
  {
    var gone := Branch(LineageOf(o.units), x);
    CutAcyclic(o.units, x);
    LinesKeys(o.units, LineageOf(o.units));
    RootedAll(o.units);
    var n := Without(o.units, gone);
    forall u | u in n && n[u].parent.Some? ensures n[u].parent.value in n {
      assert !Above(o.units, x, u);
      FullPathStep(o.units, u);
    }
    hide Acyclic, LineageOf, Branch;
    if NamesApart(o.units) { ApartAll(o.units); }
  }
}
