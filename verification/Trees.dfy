/** Units on any data, cycles written by hand included (domain_portfolio.py):
    the part that hangs on units at the top is a forest, and the rest refers to
    nothing but itself. */
module Trees {
  import opened Common
  import opened Forest
  import opened Organisation

  /** A way down from a unit without a known parent. */
  ghost predicate TopDown(units: Units, down: seq<Id>) {
    && down != [] && down[0] in units && !HasParent(units, down[0])
    && forall i | 0 < i < |down| :: down[i] in units && units[down[i]].parent == Some(down[i - 1])
  }

  ghost predicate EndsAt(down: seq<Id>, u: Id) {
    down != [] && down[|down| - 1] == u
  }

  /** Going up from the unit ends. */
  ghost predicate Hangs(units: Units, u: Id) {
    exists down :: TopDown(units, down) && EndsAt(down, u)
  }

  /** The units from which going up ends, and those from which it does not. */
  ghost function Tree(units: Units): Units {
    map u | u in units && Hangs(units, u) :: units[u]
  }

  ghost function Loose(units: Units): Units {
    map u | u in units && !Hangs(units, u) :: units[u]
  }

  /** Neither part refers to the other, and in the second nothing leads out. */
  ghost predicate Beside(t: Units, loose: Units) {
    && t.Keys !! loose.Keys
    && (forall u {:trigger t[u]} | u in t :: t[u].parent.Some? ==> t[u].parent.value !in loose)
    && (forall u {:trigger loose[u]} | u in loose :: loose[u].parent.Some? && loose[u].parent.value in loose)
  }

  lemma PartRow(t: Units, loose: Units, u: Id)
    requires Beside(t, loose) && u in t
    ensures u !in loose && (t + loose)[u] == t[u] && (HasParent(t + loose, u) <==> HasParent(t, u))
  {
  }

  lemma LooseRow(t: Units, loose: Units, u: Id)
    requires Beside(t, loose) && u in loose
    ensures u !in t && (t + loose)[u] == loose[u] && HasParent(t + loose, u)
    ensures loose[u].parent.Some? && loose[u].parent.value in loose && loose[u].parent.value !in t
  {
    assert loose[u].parent.value in loose;
  }

  lemma DownToParent(units: Units, down: seq<Id>, u: Id)
    requires TopDown(units, down) && EndsAt(down, u)
    ensures u in units
    ensures if |down| == 1 then !HasParent(units, u)
            else var up := down[..|down| - 1];
              HasParent(units, u) && TopDown(units, up) && EndsAt(up, units[u].parent.value) && down == up + [u]
  {
    var up := down[..|down| - 1];
    assert down == up + [u];
    if |down| > 1 {
      assert units[down[|down| - 1]].parent == Some(down[|down| - 2]);
      if |down| > 2 { assert down[|down| - 2] in units; }
    }
  }

  lemma DownToChild(units: Units, down: seq<Id>, p: Id, u: Id)
    requires TopDown(units, down) && EndsAt(down, p) && u in units && units[u].parent == Some(p)
    ensures TopDown(units, down + [u]) && EndsAt(down + [u], u)
  {
  }

  lemma {:induction false} OneWayDown(units: Units, a: seq<Id>, b: seq<Id>, u: Id)
    requires TopDown(units, a) && TopDown(units, b) && EndsAt(a, u) && EndsAt(b, u)
    ensures a == b
    decreases |a|
  {
    hide TopDown, EndsAt;
    DownToParent(units, a, u);
    DownToParent(units, b, u);
    if |a| > 1 { OneWayDown(units, a[..|a| - 1], b[..|b| - 1], units[u].parent.value); }
    OnlyOne(a, u);
    OnlyOne(b, u);
  }

  lemma OnlyOne(down: seq<Id>, u: Id)
    ensures EndsAt(down, u) && |down| == 1 ==> down == [u]
  {
  }

  lemma HangsIff(units: Units, u: Id)
    requires u in units
    ensures Hangs(units, u) <==> (HasParent(units, u) ==> Hangs(units, units[u].parent.value))
  {
    hide TopDown, EndsAt;
    if Hangs(units, u) {
      var down :| TopDown(units, down) && EndsAt(down, u);
      DownToParent(units, down, u);
    }
    if !HasParent(units, u) {
      TopAlone(units, u);
    } else if Hangs(units, units[u].parent.value) {
      var down :| TopDown(units, down) && EndsAt(down, units[u].parent.value);
      DownToChild(units, down, units[u].parent.value, u);
    }
  }

  lemma TopAlone(units: Units, u: Id)
    requires u in units && !HasParent(units, u)
    ensures TopDown(units, [u]) && EndsAt([u], u)
  {
  }

  /** The two parts make up the whole, and neither refers to the other. */
  lemma TreeBeside(units: Units)
    ensures Beside(Tree(units), Loose(units)) && units == Tree(units) + Loose(units)
  {
    hide Hangs;
    forall u | u in Tree(units) && units[u].parent.Some? ensures units[u].parent.value !in Loose(units) {
      HangsIff(units, u);
    }
    forall u | u in Loose(units) ensures units[u].parent.Some? && units[u].parent.value in Loose(units) {
      HangsIff(units, u);
    }
  }

  ghost function WayDown(units: Units, u: Id): (down: seq<Id>)
    requires Hangs(units, u)
    ensures TopDown(units, down) && EndsAt(down, u)
  {
    var down :| TopDown(units, down) && EndsAt(down, u);
    down
  }

  /** What hangs on units at the top is a forest. */
  lemma TreeIsForest(units: Units)
    ensures Acyclic(Tree(units))
  {
    hide TopDown, EndsAt;
    var t := Tree(units);
    var line := map u | u in t :: WayDown(units, u);
    forall u | u in t ensures LineOk(t, line, u) {
      HangsIff(units, u);
      DownToParent(units, line[u], u);
      OnlyOne(line[u], u);
      if HasParent(units, u) {
        var p := units[u].parent.value;
        assert p in t;
        OneWayDown(units, line[u][..|line[u]| - 1], line[p], p);
      }
    }
    LinesOk(t, line);
  }

  lemma LinesOk(units: Units, line: Lineage)
    requires line.Keys == units.Keys && forall u | u in units :: LineOk(units, line, u)
    ensures Acyclic(units)
  {
    assert Lines(units, line);
  }

  lemma {:induction false} LineHangs(t: Units, line: Lineage, loose: Units, u: Id)
    requires Lines(t, line) && Beside(t, loose) && u in t
    ensures Hangs(t + loose, u)
    decreases |line[u]|
  {
    LinesKeys(t, line);
    LineOfChild(t, line, u);
    hide Lines, Hangs;
    HangsIff(t + loose, u);
    if HasParent(t, u) { LineHangs(t, line, loose, t[u].parent.value); }
  }

  lemma {:induction false} LooseNeverHangs(units: Units, loose: Units, down: seq<Id>, u: Id)
    requires (forall x {:trigger loose[x]} | x in loose :: x in units && units[x] == loose[x]) && u in loose
    requires forall x {:trigger loose[x]} | x in loose :: loose[x].parent.Some? && loose[x].parent.value in loose
    ensures !(TopDown(units, down) && EndsAt(down, u))
    decreases |down|
  {
    hide TopDown, EndsAt;
    if TopDown(units, down) && EndsAt(down, u) {
      DownToParent(units, down, u);
      var p := loose[u].parent.value;
      assert loose[p] == loose[p];
      if |down| > 1 { LooseNeverHangs(units, loose, down[..|down| - 1], p); }
    }
  }

  lemma LooseStays(t: Units, loose: Units, u: Id)
    requires Beside(t, loose) && u in loose
    ensures !Hangs(t + loose, u)
  {
    forall down ensures !(TopDown(t + loose, down) && EndsAt(down, u)) { LooseNeverHangs(t + loose, loose, down, u); }
  }

  lemma PartsAre(t: Units, loose: Units)
    requires t.Keys !! loose.Keys
    requires (forall u | u in t :: Hangs(t + loose, u)) && forall u | u in loose :: !Hangs(t + loose, u)
    ensures Tree(t + loose) == t && Loose(t + loose) == loose
  {
    hide Hangs;
  }

  /** A forest beside rows that lead nowhere is what hangs of the two together. */
  lemma TreeOfParts(t: Units, loose: Units)
    requires Acyclic(t) && Beside(t, loose)
    ensures Tree(t + loose) == t && Loose(t + loose) == loose
  {
    hide *;
    forall u | u in t ensures Hangs(t + loose, u) { LineHangs(t, LineageOf(t), loose, u); }
    forall u | u in loose ensures !Hangs(t + loose, u) { LooseStays(t, loose, u); }
    BesideApart(t, loose);
    PartsAre(t, loose);
  }

  lemma BesideApart(t: Units, loose: Units)
    requires Beside(t, loose)
    ensures t.Keys !! loose.Keys
  {
  }

  /** In a forest everything hangs. */
  lemma ForestHangs(units: Units)
    requires Acyclic(units)
    ensures Tree(units) == units && Loose(units) == map[]
  {
    hide Acyclic;
    TreeOfParts(units, map[]);
    assert units + map[] == units;
  }

  // ------------------------------------------------------------- a row is added

  lemma ReachedUp(units: Units, x: Id, u: Id)
    requires Reached(units, x, u) && u != x
    ensures u in units && units[u].parent.Some? && Reached(units, x, units[u].parent.value)
  {
    var down :| ReachedBy(units, x, u, down);
    assert ReachedBy(units, x, down[|down| - 2], down[..|down| - 1]);
  }

  /** What is not below the new row hangs as before. */
  lemma {:induction false} AwayHangs(units: Units, id: Id, row: Unit, down: seq<Id>, u: Id)
    requires id !in units && !Reached(units, id, u) && TopDown(units, down) && EndsAt(down, u)
    ensures u in units && Hangs(units[id := row], u)
    decreases |down|
  {
    hide TopDown, EndsAt, Reached, Hangs;
    DownToParent(units, down, u);
    AwayParent(units, id, u);
    HangsIff(units[id := row], u);
    if |down| > 1 { AwayHangs(units, id, row, down[..|down| - 1], units[u].parent.value); }
  }

  lemma AwayParent(units: Units, id: Id, u: Id)
    requires u in units && !Reached(units, id, u)
    ensures units[u].parent.Some? ==> units[u].parent.value != id && !Reached(units, id, units[u].parent.value)
  {
    hide Reached;
    if units[u].parent.Some? {
      if Reached(units, id, units[u].parent.value) { ReachedChild(units, id, units[u].parent.value, u); }
      ReachedSelf(units, id);
    }
  }

  lemma {:induction false} AwayHung(units: Units, id: Id, row: Unit, down: seq<Id>, u: Id)
    requires id !in units && u != id && !Reached(units, id, u)
    requires TopDown(units[id := row], down) && EndsAt(down, u)
    ensures u in units && Hangs(units, u)
    decreases |down|
  {
    hide TopDown, EndsAt, Reached, Hangs;
    DownToParent(units[id := row], down, u);
    AwayParent(units, id, u);
    HangsIff(units, u);
    if |down| > 1 { AwayHung(units, id, row, down[..|down| - 1], units[u].parent.value); }
  }

  lemma AwayIff(units: Units, id: Id, row: Unit, u: Id)
    requires id !in units && u in units && !Reached(units, id, u)
    ensures Hangs(units[id := row], u) <==> Hangs(units, u)
  {
    hide TopDown, EndsAt, Reached;
    if Hangs(units, u) {
      var down :| TopDown(units, down) && EndsAt(down, u);
      AwayHangs(units, id, row, down, u);
    }
    if Hangs(units[id := row], u) {
      var down :| TopDown(units[id := row], down) && EndsAt(down, u);
      AwayHung(units, id, row, down, u);
    }
  }

  /** What is below the new row hangs if that does; before, it hung alone. */
  lemma {:induction false} UnderHangs(units: Units, id: Id, row: Unit, down: seq<Id>, u: Id)
    requires id !in units && u != id && ReachedBy(units, id, u, down)
    ensures u in units && Hangs(units, u) && (Hangs(units[id := row], u) <==> Hangs(units[id := row], id))
    decreases |down|
  {
    var p := down[|down| - 2];
    assert ReachedBy(units, id, p, down[..|down| - 1]);
    hide ReachedBy, Hangs;
    HangsIff(units, u);
    HangsIff(units[id := row], u);
    if p != id { UnderHangs(units, id, row, down[..|down| - 1], p); }
  }

  /** Under itself or one below itself, the new row hangs nowhere. */
  lemma OnRingNeverHangs(units: Units, id: Id, row: Unit)
    requires id !in units && row.parent.Some? && Reached(units, id, row.parent.value)
    ensures !Hangs(units[id := row], id)
  {
    var n := units[id := row];
    hide TopDown, EndsAt, Reached;
    ReachedSelf(units, id);
    var ring := map u | u in n && Reached(units, id, u) :: n[u];
    forall x | x in ring ensures ring[x].parent.Some? && ring[x].parent.value in ring {
      if x != id { ReachedUp(units, id, x); }
      var p := ring[x].parent.value;
      if p != id { ReachedUp(units, id, p); }
    }
    forall down ensures !(TopDown(n, down) && EndsAt(down, id)) { LooseNeverHangs(n, ring, down, id); }
  }

  /** A place that leads back to the row put there, or nowhere. */
  ghost predicate Hidden(units: Units, id: Id, parent: Option<Id>) {
    parent.Some? && (Reached(units, id, parent.value) || parent.value in Loose(units))
  }

  /** A new row hangs, and whatever was waiting below it with it, exactly when
      its place does not lead back to it, or nowhere. */
  lemma AddedHangs(units: Units, id: Id, row: Unit)
    requires id !in units
    ensures var n := units[id := row];
      && (!Hidden(units, id, row.parent) ==> Tree(n) == Tree(units)[id := row] && Loose(n) == Loose(units))
      && (Hidden(units, id, row.parent) ==> id in Loose(n) && Tree(n) == AwayFrom(Tree(units), units, id))
  {
    hide Hangs, Reached;
    var n := units[id := row];
    HangsIff(n, id);
    if row.parent.Some? {
      var p := row.parent.value;
      if Reached(units, id, p) {
        OnRingNeverHangs(units, id, row);
      } else {
        ReachedSelf(units, id);
        if p in units { AwayIff(units, id, row, p); }
      }
    }
    forall u | u in units
      ensures Hangs(n, u) <==> if Reached(units, id, u) then Hangs(n, id) else Hangs(units, u)
      ensures Reached(units, id, u) ==> Hangs(units, u)
    {
      if Reached(units, id, u) { UnderIff(units, id, row, u); } else { AwayIff(units, id, row, u); }
    }
  }

  lemma UnderIff(units: Units, id: Id, row: Unit, u: Id)
    requires id !in units && u != id && Reached(units, id, u)
    ensures u in units && Hangs(units, u) && (Hangs(units[id := row], u) <==> Hangs(units[id := row], id))
  {
    hide Hangs, ReachedBy;
    var down :| ReachedBy(units, id, u, down);
    UnderHangs(units, id, row, down, u);
  }

  /** Those that are not reached by going down from the unit. */
  ghost function AwayFrom(t: Units, units: Units, id: Id): Units {
    map u | u in t && !Reached(units, id, u) :: t[u]
  }
}
