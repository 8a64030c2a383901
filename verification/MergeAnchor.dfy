/** A merge into a unit that is not above the source leaves no reference
    dangling, whatever the names (domain_portfolio.py, merge_group): what
    changes its place goes where the fold no longer comes. */
module MergeAnchor {
  import opened Common
  import opened Forest
  import opened Merge
  import opened MergeSteps

  /** One fold on behalf of a merge of `top` into `goal`: its source is in the
      branch of the one, its target in that of the other but not of the first. */
  ghost predicate Free(o: Org, line: Lineage, src: Id, dst: Id, top: Id, goal: Id) {
    && Lines(o.units, line) && Rooted(o.units) && HomesThere(o)
    && src in o.units && dst in o.units && top in o.units && goal in o.units
    && top in line[src] && goal in line[dst] && top !in line[dst] && goal !in line[top]
  }

  ghost predicate Beyond(place: Option<Id>, units: Units, line: Lineage, top: Id) {
    place.Some? && place.value in units && place.value in line && top !in line[place.value]
  }

  /** Nothing dangles, and what changed its place is out of the source's branch. */
  ghost predicate Anchored(o: Org, line: Lineage, n: Org, after: Lineage, top: Id) {
    && Inside(o.units, line, n.units, after, top) && Rooted(n.units) && HomesThere(n) && n.homes.Keys == o.homes.Keys
    && (forall u | u in n.units ::
          n.units[u].parent == o.units[u].parent || Beyond(n.units[u].parent, n.units, after, top))
    && (forall d | d in n.homes :: n.homes[d] == o.homes[d] || Beyond(n.homes[d], n.units, after, top))
  }

  lemma BeyondStays(n: Units, after: Lineage, m: Units, last: Lineage, top: Id, place: Option<Id>)
    requires Inside(n, after, m, last, top) && Beyond(place, n, after, top)
    ensures Beyond(place, m, last, top)
  {
    InsideAll(n, after, m, last, top);
  }

  lemma InsideWider(n: Units, after: Lineage, m: Units, last: Lineage, top: Id, c: Id)
    requires Inside(n, after, m, last, c) && c in n && top in after[c]
    ensures Inside(n, after, m, last, top)
  {
    InsideRefl(n, after, top);
    InsideTrans(n, after, n, after, m, last, top, c);
  }

  lemma InsideTransSame(o: Units, line: Lineage, n: Units, after: Lineage, m: Units, last: Lineage, x: Id)
    requires Inside(o, line, n, after, x) && Inside(n, after, m, last, x)
    ensures Inside(o, line, m, last, x)
  {
    InsideAll(o, line, n, after, x);
    InsideAll(n, after, m, last, x);
    LinesKeys(o, line); LinesKeys(n, after); LinesKeys(m, last);
    hide Lines;
  }

  lemma AnchoredTrans(o: Org, line: Lineage, n: Org, after: Lineage, m: Org, last: Lineage, top: Id)
    requires Anchored(o, line, n, after, top) && Anchored(n, after, m, last, top)
    ensures Anchored(o, line, m, last, top)
  {
    InsideTransSame(o.units, line, n.units, after, m.units, last, top);
    InsideMembers(n.units, after, m.units, last, top);
    hide Inside, Rooted, HomesThere, Beyond;
    forall u | u in m.units
      ensures m.units[u].parent == o.units[u].parent || Beyond(m.units[u].parent, m.units, last, top)
    {
      if n.units[u].parent != o.units[u].parent { BeyondStays(n.units, after, m.units, last, top, n.units[u].parent); }
    }
    forall d | d in m.homes ensures m.homes[d] == o.homes[d] || Beyond(m.homes[d], m.units, last, top) {
      if n.homes[d] != o.homes[d] { BeyondStays(n.units, after, m.units, last, top, n.homes[d]); }
    }
  }

  lemma InsideMembers(n: Units, after: Lineage, m: Units, last: Lineage, x: Id)
    requires Inside(n, after, m, last, x)
    ensures m.Keys <= n.Keys && n.Keys == after.Keys && m.Keys == last.Keys
  {
  }

  ghost predicate AnchorInv(o: Org, line: Lineage, n: Org, after: Lineage, src: Id, dst: Id, todo: set<Id>, top: Id,
                            goal: Id)
  {
    Free(o, line, src, dst, top, goal) ==>
      Anchored(o, line, n, after, top) && Free(n, after, src, dst, top, goal) && Cleared(n, src, todo)
  }

  lemma RehomedAnchored(o: Org, line: Lineage, src: Id, dst: Id, top: Id)
    requires Inside(o.units, line, o.units, line, top) && Rooted(o.units) && HomesThere(o)
    requires Beyond(Some(dst), o.units, line, top)
    ensures var n := o.(homes := Rehome(o.homes, src, dst)); Anchored(o, line, n, line, top) && HomesThere(n)
  {
    hide Inside, Rooted;
  }

  lemma AnchorStart(o: Org, line: Lineage, src: Id, dst: Id, top: Id, goal: Id)
    ensures AnchorInv(o, line, o.(homes := Rehome(o.homes, src, dst)), line, src, dst, ChildrenOf(o.units, src), top,
                      goal)
  {
    hide Anchored, Inside, Lines, Cleared, Rooted, HomesThere, Rehome;
    if Free(o, line, src, dst, top, goal) {
      LinesKeys(o.units, line);
      InsideRefl(o.units, line, top);
      RehomedAnchored(o, line, src, dst, top);
      ClearedStart(o, src, dst);
    }
  }

  /** The frame of the merge is untouched by what happens below one child. */
  lemma FreeKept(o: Units, line: Lineage, n: Org, after: Lineage, src: Id, dst: Id, todo: set<Id>, c: Id, top: Id,
                 goal: Id, m: Org, last: Lineage)
    requires Frame(o, line, n.units, after, src, dst, todo) && c in todo && Free(n, after, src, dst, top, goal)
    requires Inside(n.units, after, m.units, last, c) && Rooted(m.units) && HomesThere(m)
    ensures Free(m, last, src, dst, top, goal)
  {
    ChildSmaller(o, line, n.units, after, src, dst, todo, c);
    ChildOfSource(o, line, n.units, after, src, dst, todo, c);
    InsideLines(n.units, after, m.units, last, c);
    hide Frame, Inside, Lines, Rooted, HomesThere;
    if c in after[top] {
      LineTransitive(n.units, after, c, top, src);
    }
    if c in after[goal] { LineTransitive(n.units, after, c, goal, dst); }
    InsideOne(n.units, after, m.units, last, c, src);
    InsideOne(n.units, after, m.units, last, c, dst);
    InsideOne(n.units, after, m.units, last, c, top);
    InsideOne(n.units, after, m.units, last, c, goal);
  }

  lemma InsideLines(n: Units, after: Lineage, m: Units, last: Lineage, x: Id)
    requires Inside(n, after, m, last, x)
    ensures Lines(n, after) && Lines(m, last)
  {
  }

  lemma InsideOne(n: Units, after: Lineage, m: Units, last: Lineage, x: Id, u: Id)
    requires Inside(n, after, m, last, x) && u in n && u in after && x !in after[u]
    ensures u in m && u in last && last[u] == after[u]
  {
    InsideAll(n, after, m, last, x);
  }

  lemma MovedAnchored(n: Org, after: Lineage, dst: Id, c: Id, last: Lineage, top: Id)
    requires c in n.units && dst in n.units && Rooted(n.units) && HomesThere(n)
    requires var m := WithParent(n.units, c, Some(dst));
      Inside(n.units, after, m, last, top) && Beyond(Some(dst), m, last, top)
    ensures Anchored(n, after, n.(units := WithParent(n.units, c, Some(dst))), last, top)
  {
    RootedAll(n.units);
    hide Inside;
  }

  lemma AnchoredMove(n: Org, after: Lineage, src: Id, dst: Id, c: Id, top: Id, goal: Id)
    requires Free(n, after, src, dst, top, goal) && c in n.units && n.units[c].parent == Some(src) && c in after
      && dst in after
    requires c !in after[dst]
    ensures Anchored(n, after, n.(units := WithParent(n.units, c, Some(dst))), MovedLines(after, c, after[dst]), top)
    ensures Inside(n.units, after, WithParent(n.units, c, Some(dst)), MovedLines(after, c, after[dst]), c)
  {
    hide Lines, Inside, MovedLines, Rooted, HomesThere, Anchored;
    var (m, last) := (WithParent(n.units, c, Some(dst)), MovedLines(after, c, after[dst]));
    MoveInside(n.units, after, c, dst);
    LineOfChild(n.units, after, c);
    InsideWider(n.units, after, m, last, top, c);
    InsideOne(n.units, after, m, last, top, dst);
    MovedAnchored(n, after, dst, c, last, top);
  }

  lemma AnchorMove(o: Org, line: Lineage, n: Org, after: Lineage, src: Id, dst: Id, todo: set<Id>, c: Id, top: Id,
                   goal: Id)
    requires Frame(o.units, line, n.units, after, src, dst, todo) && c in todo && c in n.units
    requires AnchorInv(o, line, n, after, src, dst, todo, top, goal)
    requires NoTwin(n.units, n.units[c].name, Some(dst))
    ensures dst in after && c in after
    ensures AnchorInv(o, line, n.(units := WithParent(n.units, c, Some(dst))), MovedLines(after, c, after[dst]),
                      src, dst, todo - {c}, top, goal)
  {
    ChildOfSource(o.units, line, n.units, after, src, dst, todo, c);
    ChildSmaller(o.units, line, n.units, after, src, dst, todo, c);
    hide Frame, Free, Anchored, Cleared, MovedLines, NoTwin;
    if Free(o, line, src, dst, top, goal) {
      var (m, last) := (n.(units := WithParent(n.units, c, Some(dst))), MovedLines(after, c, after[dst]));
      AnchoredMove(n, after, src, dst, c, top, goal);
      AnchoredTrans(o, line, n, after, m, last, top);
      AnchoredWhole(n, after, m, last, top);
      FreeKept(o.units, line, n, after, src, dst, todo, c, top, goal, m, last);
      FreeApart(n, after, src, dst, top, goal);
      ClearedMove(n, src, dst, todo, c);
    }
  }

  lemma FreeApart(n: Org, after: Lineage, src: Id, dst: Id, top: Id, goal: Id)
    requires Free(n, after, src, dst, top, goal)
    ensures src != dst && Lines(n.units, after)
  {
  }

  lemma AnchoredWhole(o: Org, line: Lineage, n: Org, after: Lineage, top: Id)
    requires Anchored(o, line, n, after, top)
    ensures Rooted(n.units) && HomesThere(n)
  {
  }

  /** A namesake below the target is not the merge's own source. */
  lemma FreeTwin(n: Org, after: Lineage, src: Id, dst: Id, c: Id, twin: Id, top: Id, goal: Id)
    requires Free(n, after, src, dst, top, goal) && c in n.units && n.units[c].parent == Some(src)
    requires twin in n.units && n.units[twin].parent == Some(dst)
    ensures Free(n, after, c, twin, top, goal)
  {
    LineOfChild(n.units, after, c);
    LineOfChild(n.units, after, twin);
  }

  lemma AnchoredClears(n: Org, after: Lineage, m: Org, last: Lineage, src: Id, todo: set<Id>, c: Id, top: Id)
    requires Anchored(n, after, m, last, top) && Cleared(n, src, todo) && c !in m.units
    requires src in last && top in last[src]
    ensures Cleared(m, src, todo - {c})
  {
    hide Inside, Rooted, HomesThere;
    InsideMembers(n.units, after, m.units, last, top);
  }

  lemma AnchorTwin(o: Org, line: Lineage, n: Org, after: Lineage, src: Id, dst: Id, todo: set<Id>, c: Id, twin: Id,
                   top: Id, goal: Id, m: Org, last: Lineage)
    requires Frame(o.units, line, n.units, after, src, dst, todo) && c in todo && c in n.units
    requires AnchorInv(o, line, n, after, src, dst, todo, top, goal)
    requires twin in n.units && n.units[twin].parent == Some(dst)
    requires Inside(n.units, after, m.units, last, c) && c !in m.units
    requires Free(n, after, c, twin, top, goal) ==> Anchored(n, after, m, last, top)
    ensures AnchorInv(o, line, m, last, src, dst, todo - {c}, top, goal)
  {
    ChildOfSource(o.units, line, n.units, after, src, dst, todo, c);
    hide Frame, Free, Anchored, Cleared, Inside;
    if Free(o, line, src, dst, top, goal) {
      FreeTwin(n, after, src, dst, c, twin, top, goal);
      AnchoredTrans(o, line, n, after, m, last, top);
      AnchoredWhole(n, after, m, last, top);
      FreeKept(o.units, line, n, after, src, dst, todo, c, top, goal, m, last);
      FreeSource(m, last, src, dst, top, goal);
      AnchoredClears(n, after, m, last, src, todo, c, top);
    }
  }

  lemma FreeSource(n: Org, after: Lineage, src: Id, dst: Id, top: Id, goal: Id)
    requires Free(n, after, src, dst, top, goal)
    ensures Lines(n.units, after) && src in n.units && dst in n.units && src in after && top in after[src] && src != dst
  {
  }

  lemma AnchoredEnd(n: Org, after: Lineage, src: Id, dst: Id, top: Id, goal: Id)
    requires Free(n, after, src, dst, top, goal) && Cleared(n, src, {}) && src in n.units && dst in n.units
      && src in after
    ensures Anchored(n, after, n.(units := Inherited(n.units, src, dst) - {src}), CutLines(after, src), top)
  {
    RootedAll(n.units);
    var m := Inherited(n.units, src, dst);
    SameShapeInside(n.units, after, m, top);
    RemoveInside(m, after, src);
    InsideWider(m, after, m - {src}, CutLines(after, src), top, src);
    InsideTransSame(n.units, after, m, after, m - {src}, CutLines(after, src), top);
    hide Inside, CutLines, Lines, Inherited;
  }

  lemma AnchorEnd(o: Org, line: Lineage, n: Org, after: Lineage, src: Id, dst: Id, top: Id, goal: Id)
    requires Frame(o.units, line, n.units, after, src, dst, {}) && AnchorInv(o, line, n, after, src, dst, {}, top, goal)
    ensures src in n.units && dst in n.units && src in after
    ensures Free(o, line, src, dst, top, goal) ==>
      Anchored(o, line, n.(units := Inherited(n.units, src, dst) - {src}), CutLines(after, src), top)
  {
    FrameMembers(o.units, line, n.units, after, src, dst, {});
    hide Frame, Free, Anchored, Cleared, CutLines, Inherited;
    if Free(o, line, src, dst, top, goal) {
      AnchoredEnd(n, after, src, dst, top, goal);
      AnchoredTrans(o, line, n, after, n.(units := Inherited(n.units, src, dst) - {src}), CutLines(after, src), top);
    }
  }

  // ------------------------------------------------------- the units that moved

  /** The units left that have another parent than before. */
  ghost function Relocated(o: Units, n: Units): set<Id> {
    set u | u in n && u in o && n[u].parent != o[u].parent
  }

  /** As long as nothing moves twice, the counter is the number of units moved. */
  ghost predicate CountInv(o: Org, line: Lineage, n: Org, src: Id, dst: Id, top: Id, goal: Id, moved: nat) {
    Free(o, line, src, dst, top, goal) ==> moved == |Relocated(o.units, n.units)|
  }

  lemma CountStart(o: Org, line: Lineage, n: Org, src: Id, dst: Id, top: Id, goal: Id)
    requires n.units == o.units
    ensures CountInv(o, line, n, src, dst, top, goal, 0)
  {
    assert Relocated(o.units, n.units) == {};
  }

  lemma AnchoredParent(o: Org, line: Lineage, n: Org, after: Lineage, top: Id, u: Id)
    requires Anchored(o, line, n, after, top) && u in n.units
    ensures u in o.units && (n.units[u].parent == o.units[u].parent || Beyond(n.units[u].parent, n.units, after, top))
  {
    InsideMembers(o.units, line, n.units, after, top);
    hide Inside;
  }

  /** What has moved so far is no longer in the source's branch. */
  lemma RelocatedBeyond(o: Org, line: Lineage, n: Org, after: Lineage, src: Id, dst: Id, top: Id, goal: Id, c: Id,
                        u: Id)
    requires Anchored(o, line, n, after, top) && Free(n, after, src, dst, top, goal)
    requires c in n.units && n.units[c].parent == Some(src) && u in Relocated(o.units, n.units)
    ensures c in after && u in after && c !in after[u]
  {
    AnchoredParent(o, line, n, after, top, u);
    FreeSource(n, after, src, dst, top, goal);
    LinesKeys(n.units, after);
    LineOfChild(n.units, after, c);
    LineOfChild(n.units, after, u);
    hide Anchored, Free, Lines;
    if c in after[u] {
      var q := n.units[u].parent.value;
      if u != c { LineTransitive(n.units, after, top, c, q); }
    }
  }

  lemma RelocatedOne(o: Units, n: Units, src: Id, dst: Id, c: Id)
    requires c in o && c in n && n[c].parent == Some(src) && src != dst && c !in Relocated(o, n)
    ensures |Relocated(o, WithParent(n, c, Some(dst)))| == |Relocated(o, n)| + 1
  {
    assert Relocated(o, WithParent(n, c, Some(dst))) == Relocated(o, n) + {c};
  }

  lemma CountMove(o: Org, line: Lineage, n: Org, after: Lineage, src: Id, dst: Id, todo: set<Id>, c: Id, top: Id,
                  goal: Id, moved: nat)
    requires Frame(o.units, line, n.units, after, src, dst, todo) && c in todo && c in n.units
    requires AnchorInv(o, line, n, after, src, dst, todo, top, goal) && CountInv(o, line, n, src, dst, top, goal, moved)
    ensures CountInv(o, line, n.(units := WithParent(n.units, c, Some(dst))), src, dst, top, goal, moved + 1)
  {
    ChildOfSource(o.units, line, n.units, after, src, dst, todo, c);
    hide Frame, Free, Anchored, Cleared, Lines, Relocated;
    if Free(o, line, src, dst, top, goal) {
      FreeSource(n, after, src, dst, top, goal);
      LineOfChild(n.units, after, c);
      if c in Relocated(o.units, n.units) { RelocatedBeyond(o, line, n, after, src, dst, top, goal, c, c); }
      AnchoredParent(o, line, n, after, top, c);
      RelocatedOne(o.units, n.units, src, dst, c);
    }
  }

  lemma RelocatedTwice(o: Units, n: Units, m: Units)
    requires m.Keys <= n.Keys <= o.Keys
    requires forall u | u in Relocated(o, n) :: u in m && m[u].parent == n[u].parent
    ensures |Relocated(o, m)| == |Relocated(o, n)| + |Relocated(n, m)|
  {
    assert Relocated(o, m) == Relocated(o, n) + Relocated(n, m);
    assert Relocated(o, n) !! Relocated(n, m);
  }

  lemma InsideParent(n: Units, after: Lineage, m: Units, last: Lineage, x: Id, u: Id)
    requires Inside(n, after, m, last, x) && u in n && u in after && x !in after[u]
    ensures u in m && m[u].parent == n[u].parent
  {
    InsideAll(n, after, m, last, x);
  }

  lemma CountTwin(o: Org, line: Lineage, n: Org, after: Lineage, src: Id, dst: Id, todo: set<Id>, c: Id, twin: Id,
                  top: Id, goal: Id, moved: nat, m: Org, last: Lineage, more: nat)
    requires Frame(o.units, line, n.units, after, src, dst, todo) && c in todo && c in n.units
    requires twin in n.units && n.units[twin].parent == Some(dst)
    requires AnchorInv(o, line, n, after, src, dst, todo, top, goal) && CountInv(o, line, n, src, dst, top, goal, moved)
    requires Inside(n.units, after, m.units, last, c) && CountInv(n, after, m, c, twin, top, goal, more)
    ensures CountInv(o, line, m, src, dst, top, goal, moved + more)
  {
    ChildOfSource(o.units, line, n.units, after, src, dst, todo, c);
    InsideMembers(n.units, after, m.units, last, c);
    hide Frame, Free, Anchored, Cleared, Inside, Relocated;
    if Free(o, line, src, dst, top, goal) {
      FreeTwin(n, after, src, dst, c, twin, top, goal);
      AnchoredKeys(o, line, n, after, top);
      forall u | u in Relocated(o.units, n.units) ensures u in m.units && m.units[u].parent == n.units[u].parent {
        RelocatedBeyond(o, line, n, after, src, dst, top, goal, c, u);
        InsideParent(n.units, after, m.units, last, c, u);
      }
      RelocatedTwice(o.units, n.units, m.units);
    }
  }

  lemma AnchoredKeys(o: Org, line: Lineage, n: Org, after: Lineage, top: Id)
    requires Anchored(o, line, n, after, top)
    ensures n.units.Keys <= o.units.Keys && n.units.Keys == after.Keys
  {
    InsideMembers(o.units, line, n.units, after, top);
  }

  lemma CountEnd(o: Org, line: Lineage, n: Org, after: Lineage, src: Id, dst: Id, top: Id, goal: Id, moved: nat)
    requires Frame(o.units, line, n.units, after, src, dst, {}) && CountInv(o, line, n, src, dst, top, goal, moved)
    ensures src in n.units && dst in n.units
    ensures CountInv(o, line, n.(units := Inherited(n.units, src, dst) - {src}), src, dst, top, goal, moved)
  {
    FrameMembers(o.units, line, n.units, after, src, dst, {});
    FrameSource(o.units, line, n.units, after, src, dst);
    hide Frame, Free, Inherited;
    assert Relocated(o.units, Inherited(n.units, src, dst) - {src}) == Relocated(o.units, n.units);
  }

  lemma FrameSource(o: Units, line: Lineage, n: Units, after: Lineage, src: Id, dst: Id)
    requires Frame(o, line, n, after, src, dst, {})
    ensures src in o && src in n && n[src].parent == o[src].parent
  {
  }
}
