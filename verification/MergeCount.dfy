/** How many units a merge moves (domain_portfolio.py, merge_group): never
    fewer than end elsewhere, and exactly these where nothing repeats, the
    target above the source or not. */
module MergeCount {
  import opened Common
  import opened Forest
  import opened Merge
  import opened MergeSteps
  import opened MergeAnchor
  import opened MergeTheorem

  /** The counter, whatever the data, and from a safe state. */
  ghost predicate MoveInv(o: Org, line: Lineage, n: Org, src: Id, dst: Id, r: Rewrite, moved: nat) {
    && |Relocated(o.units, n.units)| <= moved
    && (Sound(o, line, src, dst, r) ==> moved == |Relocated(o.units, n.units)|)
  }

  lemma MoveStart(o: Org, line: Lineage, n: Org, src: Id, dst: Id, r: Rewrite)
    requires n.units == o.units
    ensures MoveInv(o, line, n, src, dst, r, 0)
  {
    assert Relocated(o.units, n.units) == {};
  }

  /** What has moved so far is not below a child still to be handled. */
  lemma RelocatedOut(o: Org, line: Lineage, n: Org, after: Lineage, src: Id, dst: Id, r: Rewrite, c: Id, u: Id)
    requires Kept(o, line, n, after, r) && Sound(n, after, src, dst, r)
    requires c in n.units && n.units[c].parent == Some(src) && u in Relocated(o.units, n.units)
    ensures c in after && u in after && c !in after[u]
  {
    LinesKeys(n.units, after);
    PlaceOut(o, line, n, after, r, u);
    SoundMembers(n, after, src, dst, r);
    PathAt(n.units, after, src);
    LineOfChild(n.units, after, c);
    LineOfChild(n.units, after, src);
    LineOfChild(n.units, after, u);
    hide Kept, Sound, Lines, PathOf, PathsOf;
    if c in after[u] {
      var q := n.units[u].parent.value;
      if u != c { LineTransitive(n.units, after, src, c, q); }
      AboveIsPrefixOfPath(n, after, src, q);
    }
  }

  /** What changed its place is out of the source's path. */
  lemma PlaceOut(o: Org, line: Lineage, n: Org, after: Lineage, r: Rewrite, u: Id)
    requires Kept(o, line, n, after, r) && u in Relocated(o.units, n.units)
    ensures Lines(n.units, after) && n.units[u].parent.Some? && n.units[u].parent.value in n.units
    ensures !(r.from <= PathOf(n.units, after, n.units[u].parent.value))
  {
    KeptSim(o, line, n, after, r);
    PathsAre(n, after);
    hide Canon, AllRepresented, HomesKept, PathOf, Lines, Safe;
    assert UnitKept(o.units, PathsOf(o.units, line), n.units, PathsOf(n.units, after), r, u);
  }

  lemma NoneTwice(o: Units, n: Units, m: Units)
    requires m.Keys <= n.Keys <= o.Keys
    ensures |Relocated(o, m)| <= |Relocated(o, n)| + |Relocated(n, m)|
  {
    SubsetSize(Relocated(o, m), Relocated(o, n) + Relocated(n, m));
  }

  lemma OneMoved(n: Units, c: Id, dst: Id)
    requires c in n
    ensures |Relocated(n, WithParent(n, c, Some(dst)))| <= 1
  {
    SubsetSize(Relocated(n, WithParent(n, c, Some(dst))), {c});
  }

  lemma MoveMove(o: Org, line: Lineage, n: Org, after: Lineage, src: Id, dst: Id, todo: set<Id>, r: Rewrite, c: Id,
                 moved: nat)
    requires FoldInv(o, line, n, after, src, dst, todo, r) && c in todo && c in n.units
    requires MoveInv(o, line, n, src, dst, r, moved)
    ensures MoveInv(o, line, n.(units := WithParent(n.units, c, Some(dst))), src, dst, r, moved + 1)
  {
    FoldKeys(o, line, n, after, src, dst, todo, r);
    ChildOfSource(o.units, line, n.units, after, src, dst, todo, c);
    hide Frame, Kept, Sound, Cleared, Relocated;
    NoneTwice(o.units, n.units, WithParent(n.units, c, Some(dst)));
    OneMoved(n.units, c, dst);
    if Sound(o, line, src, dst, r) {
      SourceNotTarget(n, after, src, dst, r);
      SelfAbove(n.units, after, c);
      if c in Relocated(o.units, n.units) { RelocatedOut(o, line, n, after, src, dst, r, c, c); }
      RelocatedOne(o.units, n.units, src, dst, c);
    }
  }

  lemma SelfAbove(units: Units, line: Lineage, c: Id)
    requires Lines(units, line) && c in units
    ensures c in line && c in line[c]
  {
    LineOfChild(units, line, c);
    LinesKeys(units, line);
  }

  lemma FoldKeys(o: Org, line: Lineage, n: Org, after: Lineage, src: Id, dst: Id, todo: set<Id>, r: Rewrite)
    requires FoldInv(o, line, n, after, src, dst, todo, r)
    ensures Frame(o.units, line, n.units, after, src, dst, todo)
    ensures Lines(n.units, after) && n.units.Keys <= o.units.Keys
    ensures Sound(o, line, src, dst, r) ==> Kept(o, line, n, after, r) && Sound(n, after, src, dst, r)
  {
    InsideMembers(o.units, line, n.units, after, src);
    InsideLines(o.units, line, n.units, after, src);
  }

  /** A child is folded into its namesake: what moved before stays where it is. */
  lemma MoveTwin(o: Org, line: Lineage, n: Org, after: Lineage, src: Id, dst: Id, todo: set<Id>, r: Rewrite, c: Id,
                 twin: Id, moved: nat, m: Org, last: Lineage, more: nat)
    requires FoldInv(o, line, n, after, src, dst, todo, r) && c in todo && c in n.units && Lines(n.units, after)
    requires twin in n.units && n.units[twin].parent == Some(dst) && n.units[twin].name == n.units[c].name
    requires Folded(n, after, m, last, c, twin, r)
    requires MoveInv(o, line, n, src, dst, r, moved) && MoveInv(n, after, m, c, twin, r, more)
    ensures MoveInv(o, line, m, src, dst, r, moved + more)
  {
    FoldKeys(o, line, n, after, src, dst, todo, r);
    ChildOfSource(o.units, line, n.units, after, src, dst, todo, c);
    FoldedParts(n, after, m, last, c, twin, r);
    InsideMembers(n.units, after, m.units, last, c);
    hide Frame, Kept, Sound, Cleared, Relocated, Inside, Folded, Lines;
    NoneTwice(o.units, n.units, m.units);
    if Sound(o, line, src, dst, r) {
      TwinPaired(n, after, src, dst, r, c, twin);
      forall u | u in Relocated(o.units, n.units) ensures u in m.units && m.units[u].parent == n.units[u].parent {
        RelocatedOut(o, line, n, after, src, dst, r, c, u);
        RelocatedThere(o.units, n.units, u);
        InsideParent(n.units, after, m.units, last, c, u);
      }
      RelocatedTwice(o.units, n.units, m.units);
    }
  }

  lemma RelocatedThere(o: Units, n: Units, u: Id)
    requires u in Relocated(o, n)
    ensures u in o && u in n
  {
  }

  lemma MoveEnd(o: Org, line: Lineage, n: Org, after: Lineage, src: Id, dst: Id, r: Rewrite, moved: nat)
    requires Frame(o.units, line, n.units, after, src, dst, {}) && MoveInv(o, line, n, src, dst, r, moved)
    ensures src in n.units && dst in n.units
    ensures MoveInv(o, line, n.(units := Inherited(n.units, src, dst) - {src}), src, dst, r, moved)
  {
    FrameMembers(o.units, line, n.units, after, src, dst, {});
    FrameSource(o.units, line, n.units, after, src, dst);
    hide Frame, Sound, Inherited;
    assert Relocated(o.units, Inherited(n.units, src, dst) - {src}) == Relocated(o.units, n.units);
  }
}
