/** Organisation units that nest by a parent reference (domain_portfolio.py):
    what it means that they form a forest, and what a move or a removal does
    to it.

    A lineage names, for every unit, the units from its root down to itself.
    One exists exactly when no unit is its own ancestor. */
module Forest {
  import opened Common

  type Id = nat

  /** A row of the units' table; names are as the table compares them, without
      regard to case. */
  datatype Unit = Unit(name: string, parent: Option<Id>, registrar: Option<string>, contact: Option<nat>,
                       minutes: Option<nat>)

  type Units = map<Id, Unit>
  type Lineage = map<Id, seq<Id>>
  type Path = seq<string>

  /** The unit's parent is there. */
  predicate HasParent(units: Units, u: Id)
    requires u in units
  {
    units[u].parent.Some? && units[u].parent.value in units
  }

  /** No unit names a parent that is missing. */
  ghost predicate Rooted(units: Units) {
    forall u {:trigger HasParent(units, u)} | u in units :: units[u].parent.Some? ==> HasParent(units, u)
  }

  lemma RootedAll(units: Units)
    requires Rooted(units)
    ensures forall u | u in units :: units[u].parent.Some? ==> units[u].parent.value in units
  {
    forall u | u in units && units[u].parent.Some? ensures units[u].parent.value in units {
      assert HasParent(units, u);
    }
  }

  /** No two units of one level have the same name. */
  ghost predicate NamesApart(units: Units) {
    forall u, v {:trigger Namesakes(units, u, v)} | u in units && v in units && u != v :: !Namesakes(units, u, v)
  }

  ghost predicate Namesakes(units: Units, u: Id, v: Id)
    requires u in units && v in units
  {
    units[u].parent == units[v].parent && units[u].name == units[v].name
  }

  lemma ApartAll(units: Units)
    requires NamesApart(units)
    ensures forall u, v | u in units && v in units && u != v ::
      !(units[u].parent == units[v].parent && units[u].name == units[v].name)
  {
    forall u, v | u in units && v in units && u != v
      ensures !(units[u].parent == units[v].parent && units[u].name == units[v].name)
    {
      assert !Namesakes(units, u, v);
    }
  }

  ghost predicate LineOk(units: Units, line: Lineage, u: Id)
    requires u in units && line.Keys == units.Keys
  {
    line[u] == if HasParent(units, u) then line[units[u].parent.value] + [u] else [u]
  }

  ghost predicate Lines(units: Units, line: Lineage) {
    line.Keys == units.Keys && forall u {:trigger LineOk(units, line, u)} | u in units :: LineOk(units, line, u)
  }

  ghost predicate Acyclic(units: Units) {
    exists line :: Lines(units, line)
  }

  /** The units at or below x. */
  ghost function Branch(line: Lineage, x: Id): set<Id> {
    set u | u in line && x in line[u]
  }

  /** A lineage ends with the unit itself and starts with each of its ancestors'. */
  lemma {:induction false} LineShape(units: Units, line: Lineage, u: Id)
    requires Lines(units, line) && u in units
    ensures line[u] != [] && line[u][|line[u]| - 1] == u
    ensures forall x | x in line[u] :: x in units && line[x] <= line[u]
    decreases |line[u]|
  {
    assert LineOk(units, line, u);
    if HasParent(units, u) {
      LineShape(units, line, units[u].parent.value);
    }
  }

  /** Who is above the parent is above the unit, and nobody else but itself. */
  lemma LineOfChild(units: Units, line: Lineage, u: Id)
    requires Lines(units, line) && u in units
    ensures u in line[u]
    ensures HasParent(units, u) ==> var p := units[u].parent.value;
      line[u] == line[p] + [u] && u !in line[p] && forall x :: x in line[u] <==> x == u || x in line[p]
    ensures !HasParent(units, u) ==> line[u] == [u]
  {
    assert LineOk(units, line, u);
    if HasParent(units, u) {
      var p := units[u].parent.value;
      LineShape(units, line, p);
      assert forall x | x in line[p] :: |line[x]| <= |line[p]|;
    }
  }

  /** Two units above the same one: one is above the other. */
  lemma LinesMeet(units: Units, line: Lineage, x: Id, y: Id, u: Id)
    requires Lines(units, line) && u in units && x in line[u] && y in line[u]
    ensures x in units && y in units
    ensures x in line[y] || y in line[x]
  {
    LineShape(units, line, u);
    LineShape(units, line, x);
    LineShape(units, line, y);
    if |line[x]| <= |line[y]| {
      assert line[x] == line[u][..|line[x]|] == line[y][..|line[x]|];
      assert line[y][|line[x]| - 1] == x;
    } else {
      assert line[x][|line[y]| - 1] == line[u][|line[y]| - 1] == line[y][|line[y]| - 1] == y;
    }
  }

  /** Two units above each other are the same. */
  lemma LineAntisymmetric(units: Units, line: Lineage, x: Id, y: Id)
    requires Lines(units, line) && x in units && y in units && x in line[y] && y in line[x]
    ensures x == y
  {
    LineShape(units, line, x);
    LineShape(units, line, y);
    assert line[x] == line[y];
  }

  lemma LineTransitive(units: Units, line: Lineage, x: Id, y: Id, u: Id)
    requires Lines(units, line) && u in units && y in line[u] && y in units && x in line[y]
    ensures x in line[u]
  {
    LineShape(units, line, u);
    assert line[y] <= line[u];
  }

  /** There is only one lineage. */
  lemma {:induction false} LineUnique(units: Units, line: Lineage, other: Lineage, u: Id)
    requires Lines(units, line) && Lines(units, other) && u in units
    ensures line[u] == other[u]
    decreases |line[u]|
  {
    assert LineOk(units, line, u) && LineOk(units, other, u);
    if HasParent(units, u) { LineUnique(units, line, other, units[u].parent.value); }
  }

  // ------------------------------------------------------------- one changed row

  function WithParent(units: Units, c: Id, parent: Option<Id>): Units
    requires c in units
  {
    units[c := units[c].(parent := parent)]
  }

  /** Being above a unit is being the beginning of its line. */
  lemma AboveIsPrefix(units: Units, line: Lineage, x: Id, u: Id)
    requires Lines(units, line) && x in units && u in units
    ensures x in line[u] <==> line[x] <= line[u]
    ensures line[x] == line[u] <==> x == u
  {
    LineShape(units, line, u);
    LineShape(units, line, x);
  }

  lemma PrefixOfLonger(stem: seq<Id>, l: seq<Id>, x: Id)
    requires stem != l + [x]
    ensures stem <= l + [x] <==> stem <= l
    ensures stem <= l ==> (l + [x])[|stem|..] == l[|stem|..] + [x]
  {
    if stem <= l + [x] {
      assert |stem| <= |l|;
      assert stem == (l + [x])[..|stem|] == l[..|stem|];
    }
  }

  /** The lines after c moved below others: its branch's lines begin anew. */
  ghost function MovedLines(line: Lineage, c: Id, below: seq<Id>): Lineage
    requires c in line
  {
    map u | u in line :: if line[c] <= line[u] then below + [c] + line[u][|line[c]|..] else line[u]
  }

  ghost function LineAt(units: Units, line: Lineage, parent: Option<Id>): seq<Id>
    requires parent.Some? ==> parent.value in units
    requires line.Keys == units.Keys
  {
    if parent.Some? then line[parent.value] else []
  }

  lemma MoveKeepsLine(units: Units, line: Lineage, c: Id, parent: Option<Id>, u: Id)
    requires Lines(units, line) && c in units && u in units
    requires parent.Some? ==> parent.value in units && c !in line[parent.value]
    ensures LineOk(WithParent(units, c, parent), MovedLines(line, c, LineAt(units, line, parent)), u)
  {
    LinesKeys(units, line);
    hide Lines, LineOk;
    var moved := WithParent(units, c, parent);
    var after := MovedLines(line, c, LineAt(units, line, parent));
    LineOfChild(units, line, u);
    AboveIsPrefix(units, line, c, u);
    if u == c {
      if parent.Some? { AboveIsPrefix(units, line, c, parent.value); }
      assert after[u] == LineAt(units, line, parent) + [u];
      MovedSelf(units, line, c, parent);
    } else {
      if HasParent(units, u) {
        PrefixOfLonger(line[c], line[units[u].parent.value], u);
      } else {
        LineOfChild(units, line, c);
      }
      MovedOther(units, line, c, parent, u);
    }
  }

  lemma MovedSelf(units: Units, line: Lineage, c: Id, parent: Option<Id>)
    requires line.Keys == units.Keys && c in units
    requires parent.Some? ==> parent.value in units && !(line[c] <= line[parent.value])
    ensures var after := MovedLines(line, c, LineAt(units, line, parent));
      after[c] == LineAt(units, line, parent) + [c] ==> LineOk(WithParent(units, c, parent), after, c)
  {
  }

  lemma MovedOther(units: Units, line: Lineage, c: Id, parent: Option<Id>, u: Id)
    requires line.Keys == units.Keys && c in units && u in units && u != c
    requires parent.Some? ==> parent.value in units
    requires line[u] == if HasParent(units, u) then line[units[u].parent.value] + [u] else [u]
    requires HasParent(units, u) ==> var l := line[units[u].parent.value];
      (line[c] <= line[u] <==> line[c] <= l) && (line[c] <= l ==> line[u][|line[c]|..] == l[|line[c]|..] + [u])
    requires !HasParent(units, u) ==> !(line[c] <= line[u])
    ensures LineOk(WithParent(units, c, parent), MovedLines(line, c, LineAt(units, line, parent)), u)
  {
  }

  /** Moving a unit to a place outside its own branch leaves a forest: the
      branch goes along, everything else stays where it was. */
  lemma MoveKeepsLines(units: Units, line: Lineage, c: Id, parent: Option<Id>)
    requires Lines(units, line) && c in units
    requires parent.Some? ==> parent.value in units && c !in line[parent.value]
    ensures Lines(WithParent(units, c, parent), MovedLines(line, c, LineAt(units, line, parent)))
  {
    forall u | u in units
      ensures LineOk(WithParent(units, c, parent), MovedLines(line, c, LineAt(units, line, parent)), u)
    {
      MoveKeepsLine(units, line, c, parent, u);
    }
  }

  ghost function CutLines(line: Lineage, x: Id): Lineage
    requires x in line
  {
    map u | u in line && u != x :: if line[x] <= line[u] then line[u][|line[x]|..] else line[u]
  }

  /** Removing a unit leaves its children at the top of branches of their own. */
  lemma RemoveKeepsLines(units: Units, line: Lineage, x: Id)
    requires Lines(units, line) && x in units
    ensures Lines(units - {x}, CutLines(line, x))
  {
    LinesKeys(units, line);
    hide Lines, LineOk;
    var (rest, after) := (units - {x}, CutLines(line, x));
    assert after.Keys == rest.Keys;
    forall u | u in rest
      ensures after[u] == if HasParent(rest, u) then after[units[u].parent.value] + [u] else [u]
    {
      LineOfChild(units, line, u);
      LineOfChild(units, line, x);
      AboveIsPrefix(units, line, x, u);
      if HasParent(units, u) { PrefixOfLonger(line[x], line[units[u].parent.value], u); }
    }
    LinesFrom(rest, after);
  }

  lemma LinesKeys(units: Units, line: Lineage)
    requires Lines(units, line)
    ensures line.Keys == units.Keys
  {
  }

  lemma LinesFrom(units: Units, line: Lineage)
    requires line.Keys == units.Keys
    requires forall u | u in units :: line[u] == if HasParent(units, u) then line[units[u].parent.value] + [u] else [u]
    ensures Lines(units, line)
  {
  }

  // ------------------------------------------------------------------- paths

  /** The names along a line of units. */
  function NamesOf(units: Units, ids: seq<Id>): Path
    requires forall x | x in ids :: x in units
  {
    seq(|ids|, i requires 0 <= i < |ids| => assert ids[i] in ids; units[ids[i]].name)
  }

  lemma NamesConcat(units: Units, a: seq<Id>, b: seq<Id>)
    requires forall x | x in a + b :: x in units
    ensures (forall x | x in a :: x in units) && (forall x | x in b :: x in units)
    ensures NamesOf(units, a + b) == NamesOf(units, a) + NamesOf(units, b)
  {
    forall x | x in a ensures x in units { assert x in a + b; }
    forall x | x in b ensures x in units { assert x in a + b; }
  }

  lemma NamesSame(units: Units, others: Units, ids: seq<Id>)
    requires forall x | x in ids :: x in units && x in others && others[x].name == units[x].name
    ensures NamesOf(others, ids) == NamesOf(units, ids)
  {
    forall i | 0 <= i < |ids| ensures others[ids[i]].name == units[ids[i]].name { assert ids[i] in ids; }
  }

  /** The unit's path, from its root down. */
  ghost function PathOf(units: Units, line: Lineage, u: Id): (path: Path)
    requires Lines(units, line) && u in units
  {
    LineShape(units, line, u);
    NamesOf(units, line[u])
  }

  lemma PathOfChild(units: Units, line: Lineage, u: Id)
    requires Lines(units, line) && u in units
    ensures PathOf(units, line, u)
         == (if HasParent(units, u) then PathOf(units, line, units[u].parent.value) else []) + [units[u].name]
    ensures |PathOf(units, line, u)| == |line[u]|
  {
    LineOfChild(units, line, u);
  }

  /** The unit's line goes all the way up to a unit without a parent. */
  ghost predicate Grounded(units: Units, line: Lineage, u: Id)
    requires Lines(units, line) && u in units
  {
    LineShape(units, line, u);
    units[line[u][0]].parent.None?
  }

  lemma {:induction false} RootedGrounds(units: Units, line: Lineage, u: Id)
    requires Lines(units, line) && Rooted(units) && u in units
    ensures Grounded(units, line, u)
    decreases |line[u]|
  {
    LineShape(units, line, u);
    LineOfChild(units, line, u);
    if HasParent(units, u) {
      LineShape(units, line, units[u].parent.value);
      RootedGrounds(units, line, units[u].parent.value);
    }
  }

  /** With names apart on every level, a path names at most one unit. */
  lemma {:induction false} PathNamesOne(units: Units, line: Lineage, u: Id, v: Id)
    requires Lines(units, line) && NamesApart(units) && u in units && v in units
    requires Grounded(units, line, u) && Grounded(units, line, v)
    requires PathOf(units, line, u) == PathOf(units, line, v)
    ensures u == v
    decreases |line[u]|
  {
    PathOfChild(units, line, u);
    PathOfChild(units, line, v);
    LineOfChild(units, line, u);
    LineOfChild(units, line, v);
    var (a, b) := (PathOf(units, line, u), PathOf(units, line, v));
    assert a[|a| - 1] == units[u].name && b[|b| - 1] == units[v].name;
    if HasParent(units, u) { LineShape(units, line, units[u].parent.value); }
    if HasParent(units, v) { LineShape(units, line, units[v].parent.value); }
    if u != v { assert !Namesakes(units, u, v); }
    assert |line[u]| == |line[v]|;
    if HasParent(units, u) && HasParent(units, v) {
      var (p, q) := (units[u].parent.value, units[v].parent.value);
      assert PathOf(units, line, p) == a[..|a| - 1] && PathOf(units, line, q) == b[..|b| - 1];
      PathNamesOne(units, line, p, q);
    }
  }

  /** Every beginning of a unit's path is the path of a unit above it. */
  lemma {:induction false} Ancestor(units: Units, line: Lineage, u: Id, n: nat) returns (x: Id)
    requires Lines(units, line) && u in units && 1 <= n <= |line[u]|
    ensures x in units && x in line[u] && |line[x]| == n
    ensures PathOf(units, line, x) == PathOf(units, line, u)[..n]
    ensures Grounded(units, line, u) ==> Grounded(units, line, x)
    decreases |line[u]|
  {
    LineShape(units, line, u);
    LineOfChild(units, line, u);
    PathOfChild(units, line, u);
    if n == |line[u]| {
      x := u;
      assert PathOf(units, line, u)[..n] == PathOf(units, line, u);
    } else {
      var p := units[u].parent.value;
      LineShape(units, line, p);
      x := Ancestor(units, line, p, n);
      assert PathOf(units, line, p)[..n] == PathOf(units, line, u)[..n];
    }
  }
}
