/** The loop of one fold (domain_portfolio.py, merge_group): what holds between
    two of its children, and what a fold leaves when it is done. */
module MergeSteps {
  import opened Common
  import opened Forest
  import opened Merge

  /** What one fold is held to: the tables before and after it. Whatever the
      data, only the source's branch changes, the source goes, and its place
      stays empty; from a safe state, all rewritten paths are kept. */
  ghost predicate Folded(o: Org, line: Lineage, n: Org, after: Lineage, src: Id, dst: Id, r: Rewrite)
    requires src in o.units && Lines(o.units, line)
  {
    && Inside(o.units, line, n.units, after, src) && src !in n.units
    && (NamesApart(o.units) ==> NamesApart(n.units) && NoTwin(n.units, o.units[src].name, o.units[src].parent))
    && (Sound(o, line, src, dst, r) ==> Kept(o, line, n, after, r))
  }

  ghost predicate Sound(o: Org, line: Lineage, src: Id, dst: Id, r: Rewrite) {
    Safe(o, line, r) && Paired(PathsOf(o.units, line), src, dst, r)
  }

  ghost predicate Kept(o: Org, line: Lineage, n: Org, after: Lineage, r: Rewrite) {
    && Lines(o.units, line) && Lines(n.units, after)
    && Safe(n, after, r) && Sim(o, PathsOf(o.units, line), n, PathsOf(n.units, after), r)
  }

  /** Nothing is left at the source but the children still to be handled. */
  ghost predicate Cleared(n: Org, src: Id, todo: set<Id>) {
    && (forall u | u in n.units :: n.units[u].parent == Some(src) ==> u in todo)
    && (forall d | d in n.homes :: n.homes[d] != Some(src))
  }

  /** Between two children, whatever the data. */
  ghost predicate Frame(o: Units, line: Lineage, n: Units, after: Lineage, src: Id, dst: Id, todo: set<Id>) {
    && Lines(o, line) && src in o && dst in o && src !in line[dst]
    && Inside(o, line, n, after, src)
    && src in n && n[src].parent == o[src].parent && after[src] == line[src]
    && (forall c | c in todo :: c in n && n[c].parent == Some(src))
    && (NamesApart(o) ==> NamesApart(n))
  }

  ghost predicate FoldInv(o: Org, line: Lineage, n: Org, after: Lineage, src: Id, dst: Id, todo: set<Id>, r: Rewrite) {
    && Frame(o.units, line, n.units, after, src, dst, todo)
    && (Sound(o, line, src, dst, r) ==>
          Kept(o, line, n, after, r) && Sound(n, after, src, dst, r) && Cleared(n, src, todo))
  }

  lemma KeptTrans(o: Org, line: Lineage, n: Org, after: Lineage, m: Org, last: Lineage, r: Rewrite)
    requires Kept(o, line, n, after, r) && Kept(n, after, m, last, r)
    ensures Kept(o, line, m, last, r)
  {
    hide Sim, Safe, Lines;
    SimTrans(o, PathsOf(o.units, line), n, PathsOf(n.units, after), m, PathsOf(m.units, last), r);
  }

  /** A unit outside the changes keeps its path. */
  lemma SamePathOutside(o: Units, line: Lineage, n: Units, after: Lineage, u: Id)
    requires Lines(o, line) && Lines(n, after) && u in o && u in n && after[u] == line[u]
    requires forall x | x in n :: x in o && n[x].name == o[x].name
    ensures PathsOf(n, after)[u] == PathsOf(o, line)[u]
  {
    PathFromLine(o, line, u);
    PathFromLine(n, after, u);
    NamesSame(o, n, line[u]);
  }

  function ChildrenOf(units: Units, x: Id): set<Id> {
    set c | c in units && units[c].parent == Some(x)
  }

  lemma FrameStart(o: Units, line: Lineage, src: Id, dst: Id)
    requires Lines(o, line) && src in o && dst in o && src !in line[dst]
    ensures Frame(o, line, o, line, src, dst, ChildrenOf(o, src))
  {
    InsideRefl(o, line, src);
  }

  lemma SoundStart(o: Org, line: Lineage, src: Id, dst: Id, r: Rewrite)
    requires Sound(o, line, src, dst, r)
    ensures var n := o.(homes := Rehome(o.homes, src, dst));
      Kept(o, line, n, line, r) && Sound(n, line, src, dst, r) && Cleared(n, src, ChildrenOf(o.units, src))
  {
    RehomeSim(o, line, r, src, dst);
    SafeLines(o, line, r);
    SourceNotTarget(o, line, src, dst, r);
    ClearedStart(o, src, dst);
    hide Sim, Safe, Paired, PathsOf, Lines, Cleared, Rehome;
  }

  lemma ClearedStart(o: Org, src: Id, dst: Id)
    requires src != dst
    ensures Cleared(o.(homes := Rehome(o.homes, src, dst)), src, ChildrenOf(o.units, src))
  {
  }

  /** The first thing a fold does: the source's domains go to the target. */
  lemma FoldStart(o: Org, line: Lineage, src: Id, dst: Id, r: Rewrite)
    requires Lines(o.units, line) && src in o.units && dst in o.units && src !in line[dst]
    ensures FoldInv(o, line, o.(homes := Rehome(o.homes, src, dst)), line, src, dst, ChildrenOf(o.units, src), r)
  {
    FrameStart(o.units, line, src, dst);
    hide Frame, Kept, Sound, Cleared, Lines, Rehome;
    if Sound(o, line, src, dst, r) { SoundStart(o, line, src, dst, r); }
  }

  /** A child of the source is not above the target, nor above the target's
      children, and its branch is smaller than the source's. */
  lemma ChildSmaller(o: Units, line: Lineage, n: Units, after: Lineage, src: Id, dst: Id, todo: set<Id>, c: Id)
    requires Frame(o, line, n, after, src, dst, todo) && c in todo
    ensures dst in n && after[dst] == line[dst] && c !in after[dst] && src in after[c] && src !in after[dst]
    ensures forall t | t in n && n[t].parent == Some(dst) :: c !in after[t]
    ensures Branch(after, c) < Branch(line, src) && |Branch(after, c)| < |Branch(line, src)|
    ensures c !in after[src]
  {
    InsideAll(o, line, n, after, src);
    assert dst in n && after[dst] == line[dst];
    LineOfChild(n, after, c);
    LinesKeys(n, after);
    LinesKeys(o, line);
    LineOfChild(n, after, src);
    hide NamesApart, Lines;
    if c in after[dst] { LineTransitive(n, after, src, c, dst); }
    forall t | t in n && n[t].parent == Some(dst) ensures c !in after[t] {
      LineOfChild(n, after, t);
    }
    LineOfChild(o, line, src);
    forall u | u in Branch(after, c) ensures u in Branch(line, src) && u != src {
      LineTransitive(n, after, src, c, u);
    }
    assert src in Branch(line, src) && src !in Branch(after, c);
    ProperSubsetSize(Branch(after, c), Branch(line, src));
  }

  /** Something happened inside the branch of one child of the source: the
      fold's frame holds on, the child itself aside. */
  lemma FrameKept(o: Units, line: Lineage, n: Units, after: Lineage, src: Id, dst: Id, todo: set<Id>, c: Id,
                  m: Units, last: Lineage)
    requires Frame(o, line, n, after, src, dst, todo) && c in todo
    requires Inside(n, after, m, last, c) && (NamesApart(n) ==> NamesApart(m))
    ensures Frame(o, line, m, last, src, dst, todo - {c})
  {
    InsideAll(n, after, m, last, c);
    ChildSmaller(o, line, n, after, src, dst, todo, c);
    InsideTrans(o, line, n, after, m, last, src, c);
    LinesKeys(n, after);
    hide NamesApart;
    forall d | d in todo && d != c ensures d in m && m[d].parent == Some(src) {
      LineOfChild(n, after, d);
    }
  }

  lemma SoundKept(n: Org, after: Lineage, src: Id, dst: Id, r: Rewrite, c: Id, m: Org, last: Lineage)
    requires Sound(n, after, src, dst, r) && Kept(n, after, m, last, r) && Inside(n.units, after, m.units, last, c)
    requires src in n.units && dst in n.units && c !in after[src] && c !in after[dst]
    ensures Sound(m, last, src, dst, r)
  {
    InsideAll(n.units, after, m.units, last, c);
    hide Sim, Safe, Lines, PathsOf, Canon;
    SamePathOutside(n.units, after, m.units, last, src);
    SamePathOutside(n.units, after, m.units, last, dst);
    PathsAre(m, last);
  }

  lemma SourceNotTarget(n: Org, after: Lineage, src: Id, dst: Id, r: Rewrite)
    requires Sound(n, after, src, dst, r)
    ensures src != dst
  {
    TargetOut(n, after, r, src, dst);
  }

  lemma FrameMove(o: Units, line: Lineage, n: Units, after: Lineage, src: Id, dst: Id, todo: set<Id>, c: Id)
    requires Frame(o, line, n, after, src, dst, todo) && c in todo && c in n && NoTwin(n, n[c].name, Some(dst))
    ensures dst in after && c in after
    ensures Frame(o, line, WithParent(n, c, Some(dst)), MovedLines(after, c, after[dst]), src, dst, todo - {c})
  {
    ChildSmaller(o, line, n, after, src, dst, todo, c);
    LinesKeys(n, after);
    if NamesApart(n) { MoveApart(n, c, Some(dst)); }
    MoveInside(n, after, c, dst);
    hide Frame, Inside, NamesApart, MovedLines;
    FrameKept(o, line, n, after, src, dst, todo, c, WithParent(n, c, Some(dst)), MovedLines(after, c, after[dst]));
  }

  lemma KeptFrom(o: Org, line: Lineage, n: Org, after: Lineage, r: Rewrite)
    requires Lines(o.units, line) && Lines(n.units, after)
    requires Safe(n, after, r) && Sim(o, PathsOf(o.units, line), n, PathsOf(n.units, after), r)
    ensures Kept(o, line, n, after, r)
  {
  }

  lemma SafeLines(o: Org, line: Lineage, r: Rewrite)
    requires Safe(o, line, r)
    ensures Lines(o.units, line)
  {
  }

  lemma MoveKept(n: Org, after: Lineage, src: Id, dst: Id, r: Rewrite, c: Id)
    requires Sound(n, after, src, dst, r) && c in n.units && n.units[c].parent == Some(src)
    requires dst in after && c in after && c !in after[dst] && NoTwin(n.units, n.units[c].name, Some(dst))
    ensures var (m, last) := (n.(units := WithParent(n.units, c, Some(dst))), MovedLines(after, c, after[dst]));
      Kept(n, after, m, last, r) && Inside(n.units, after, m.units, last, c)
  {
    var (m, last) := (n.(units := WithParent(n.units, c, Some(dst))), MovedLines(after, c, after[dst]));
    MoveSim(n, after, r, src, dst, c);
    hide Sim, Safe, PathsOf, MovedLines, Paired, NoTwin, Inside, Lines;
    SafeLines(n, after, r);
    SafeLines(m, last, r);
    KeptFrom(n, after, m, last, r);
  }

  lemma ClearedMove(n: Org, src: Id, dst: Id, todo: set<Id>, c: Id)
    requires Cleared(n, src, todo) && src != dst && c in n.units
    ensures Cleared(n.(units := WithParent(n.units, c, Some(dst))), src, todo - {c})
  {
  }

  lemma SoundMove(n: Org, after: Lineage, src: Id, dst: Id, todo: set<Id>, r: Rewrite, c: Id)
    requires Sound(n, after, src, dst, r) && Cleared(n, src, todo)
    requires dst in after && c in n.units && n.units[c].parent == Some(src) && c in after && src in after
    requires c !in after[dst] && c !in after[src] && NoTwin(n.units, n.units[c].name, Some(dst))
    ensures var (m, last) := (n.(units := WithParent(n.units, c, Some(dst))), MovedLines(after, c, after[dst]));
      Kept(n, after, m, last, r) && Sound(m, last, src, dst, r) && Cleared(m, src, todo - {c})
  {
    hide *;
    MoveKept(n, after, src, dst, r, c);
    SourceNotTarget(n, after, src, dst, r);
    SoundMembers(n, after, src, dst, r);
    ClearedMove(n, src, dst, todo, c);
    SoundKept(n, after, src, dst, r, c, n.(units := WithParent(n.units, c, Some(dst))),
              MovedLines(after, c, after[dst]));
  }

  lemma SoundMembers(n: Org, after: Lineage, src: Id, dst: Id, r: Rewrite)
    requires Sound(n, after, src, dst, r)
    ensures Lines(n.units, after) && src in n.units && dst in n.units && src in PathsOf(n.units, after)
    ensures r.from <= PathsOf(n.units, after)[src]
  {
    PathsAre(n, after);
  }

  /** A child without a namesake below the target moves there as a whole. */
  lemma FoldMove(o: Org, line: Lineage, n: Org, after: Lineage, src: Id, dst: Id, todo: set<Id>, r: Rewrite, c: Id)
    requires FoldInv(o, line, n, after, src, dst, todo, r) && c in todo && c in n.units
    requires NoTwin(n.units, n.units[c].name, Some(dst))
    ensures dst in after && c in after
    ensures FoldInv(o, line, n.(units := WithParent(n.units, c, Some(dst))), MovedLines(after, c, after[dst]),
                    src, dst, todo - {c}, r)
  {
    FrameMove(o.units, line, n.units, after, src, dst, todo, c);
    ChildSmaller(o.units, line, n.units, after, src, dst, todo, c);
    ChildOfSource(o.units, line, n.units, after, src, dst, todo, c);
    hide Frame, Kept, Sound, Cleared, MovedLines, NoTwin;
    if Sound(o, line, src, dst, r) {
      SoundMove(n, after, src, dst, todo, r, c);
      KeptTrans(o, line, n, after, n.(units := WithParent(n.units, c, Some(dst))), MovedLines(after, c, after[dst]), r);
    }
  }

  lemma ChildOfSource(o: Units, line: Lineage, n: Units, after: Lineage, src: Id, dst: Id, todo: set<Id>, c: Id)
    requires Frame(o, line, n, after, src, dst, todo) && c in todo
    ensures c in n && n[c].parent == Some(src) && src in n && dst in n && c in after && src in after && dst in after
  {
    InsideAll(o, line, n, after, src);
  }

  /** A child and its namesake below the target stand at the same place. */
  lemma TwinPaired(n: Org, after: Lineage, src: Id, dst: Id, r: Rewrite, c: Id, twin: Id)
    requires Sound(n, after, src, dst, r) && c in n.units && n.units[c].parent == Some(src)
    requires twin in n.units && n.units[twin].parent == Some(dst) && n.units[twin].name == n.units[c].name
    ensures Sound(n, after, c, twin, r)
  {
    PathsAre(n, after);
    PathOfChild(n.units, after, c);
    PathOfChild(n.units, after, twin);
    CanonExtends(r, PathOf(n.units, after, src), [n.units[c].name]);
  }

  lemma ClearedUnits(n: Units, p: Paths, m: Units, q: Paths, src: Id, todo: set<Id>, r: Rewrite, c: Id)
    requires UnitsKept(n, p, m, q, r) && src in q && r.from <= q[src] && c !in m
    requires forall u | u in n :: n[u].parent == Some(src) ==> u in todo
    ensures forall u | u in m :: m[u].parent == Some(src) ==> u in todo - {c}
  {
    hide Canon;
    forall u | u in m && m[u].parent == Some(src) ensures u in todo - {c} {
      assert UnitKept(n, p, m, q, r, u);
    }
  }

  lemma ClearedHomes(n: map<DomainName, Option<Id>>, p: Paths, m: map<DomainName, Option<Id>>, q: Paths, src: Id,
                     r: Rewrite)
    requires HomesKept(n, p, m, q, r) && src in q && r.from <= q[src]
    requires forall d | d in n :: n[d] != Some(src)
    ensures forall d | d in m :: m[d] != Some(src)
  {
    hide Canon;
    forall d | d in m ensures m[d] != Some(src) {
      assert HomeKept(n[d], p, m[d], q, r);
    }
  }

  /** After one of the source's children: nothing came to the source. */
  lemma ClearedKept(n: Org, p: Paths, m: Org, q: Paths, src: Id, todo: set<Id>, r: Rewrite, c: Id)
    requires Sim(n, p, m, q, r) && Cleared(n, src, todo) && c !in m.units
    requires src in q && r.from <= q[src]
    ensures Cleared(m, src, todo - {c})
  {
    hide UnitsKept, HomesKept, AllRepresented, Rooted, HomesThere;
    ClearedUnits(n.units, p, m.units, q, src, todo, r, c);
    ClearedHomes(n.homes, p, m.homes, q, src, r);
  }

  lemma SoundTwin(n: Org, after: Lineage, src: Id, dst: Id, todo: set<Id>, r: Rewrite, c: Id, m: Org, last: Lineage)
    requires Sound(n, after, src, dst, r) && Cleared(n, src, todo) && Kept(n, after, m, last, r)
    requires Inside(n.units, after, m.units, last, c) && c !in m.units
    requires src in after && dst in after && c !in after[dst] && c !in after[src]
    ensures Sound(m, last, src, dst, r) && Cleared(m, src, todo - {c})
  {
    hide *;
    SoundMembers(n, after, src, dst, r);
    KeptSim(n, after, m, last, r);
    SoundKept(n, after, src, dst, r, c, m, last);
    SoundMembers(m, last, src, dst, r);
    ClearedKept(n, PathsOf(n.units, after), m, PathsOf(m.units, last), src, todo, r, c);
  }

  lemma KeptSim(n: Org, after: Lineage, m: Org, last: Lineage, r: Rewrite)
    requires Kept(n, after, m, last, r)
    ensures Lines(n.units, after) && Lines(m.units, last)
    ensures Sim(n, PathsOf(n.units, after), m, PathsOf(m.units, last), r)
  {
  }

  lemma FoldedParts(o: Org, line: Lineage, n: Org, after: Lineage, src: Id, dst: Id, r: Rewrite)
    requires src in o.units && Lines(o.units, line) && Folded(o, line, n, after, src, dst, r)
    ensures Inside(o.units, line, n.units, after, src) && src !in n.units
    ensures NamesApart(o.units) ==> NamesApart(n.units)
    ensures Sound(o, line, src, dst, r) ==> Kept(o, line, n, after, r)
  {
  }

  /** A child with a namesake below the target is folded into that one. */
  lemma FoldTwin(o: Org, line: Lineage, n: Org, after: Lineage, src: Id, dst: Id, todo: set<Id>, r: Rewrite, c: Id,
                 twin: Id, m: Org, last: Lineage)
    requires FoldInv(o, line, n, after, src, dst, todo, r) && c in todo && c in n.units && Lines(n.units, after)
    requires twin in n.units && n.units[twin].parent == Some(dst) && n.units[twin].name == n.units[c].name
    requires Folded(n, after, m, last, c, twin, r)
    ensures FoldInv(o, line, m, last, src, dst, todo - {c}, r)
  {
    ChildOfSource(o.units, line, n.units, after, src, dst, todo, c);
    ChildSmaller(o.units, line, n.units, after, src, dst, todo, c);
    hide Frame, Kept, Sound, Cleared, Inside, Lines, Folded, NamesApart;
    FoldedParts(n, after, m, last, c, twin, r);
    FrameKept(o.units, line, n.units, after, src, dst, todo, c, m.units, last);
    if Sound(o, line, src, dst, r) {
      TwinPaired(n, after, src, dst, r, c, twin);
      KeptTrans(o, line, n, after, m, last, r);
      SoundTwin(n, after, src, dst, todo, r, c, m, last);
    }
  }

  /** The end of a fold: the target inherits, and the source is deleted. */
  lemma EndFrame(o: Units, line: Lineage, n: Units, after: Lineage, src: Id, dst: Id, m: Units)
    requires Frame(o, line, n, after, src, dst, {}) && SameShape(n, m)
    ensures src in after && Inside(o, line, m - {src}, CutLines(after, src), src)
    ensures NamesApart(o) ==> NamesApart(m - {src}) && NoTwin(m - {src}, o[src].name, o[src].parent)
  {
    InsideAll(o, line, n, after, src);
    SameShapeInside(n, after, m, src);
    RemoveInside(m, after, src);
    LineOfChild(n, after, src);
    if NamesApart(o) { EndApart(o, n, src, m); }
    hide Lines, NamesApart, CutLines;
    InsideTrans(n, after, m, after, m - {src}, CutLines(after, src), src, src);
    InsideTrans(o, line, n, after, m - {src}, CutLines(after, src), src, src);
  }

  lemma EndApart(o: Units, n: Units, src: Id, m: Units)
    requires NamesApart(n) && SameShape(n, m) && src in n && src in o
    requires n[src].parent == o[src].parent && n[src].name == o[src].name
    ensures NamesApart(m - {src}) && NoTwin(m - {src}, o[src].name, o[src].parent)
  {
    ApartAll(n);
  }

  lemma FoldEnd(o: Org, line: Lineage, n: Org, after: Lineage, src: Id, dst: Id, r: Rewrite)
    requires FoldInv(o, line, n, after, src, dst, {}, r)
    ensures Lines(o.units, line) && src in o.units && src in n.units && dst in n.units && src in after
    ensures Folded(o, line, n.(units := Inherited(n.units, src, dst) - {src}), CutLines(after, src), src, dst, r)
  {
    FrameMembers(o.units, line, n.units, after, src, dst, {});
    var m := n.(units := Inherited(n.units, src, dst));
    EndFrame(o.units, line, n.units, after, src, dst, m.units);
    hide Frame, Kept, Sound, Cleared, Inside, Lines, NamesApart, NoTwin, CutLines, SameShape, Inherited;
    if Sound(o, line, src, dst, r) {
      SoundEnd(n, after, src, dst, r);
      KeptTrans(o, line, n, after, m.(units := m.units - {src}), CutLines(after, src), r);
    }
  }

  lemma FrameMembers(o: Units, line: Lineage, n: Units, after: Lineage, src: Id, dst: Id, todo: set<Id>)
    requires Frame(o, line, n, after, src, dst, todo)
    ensures Lines(o, line) && src in o && Lines(n, after) && src in n && dst in n && src in after
  {
    InsideAll(o, line, n, after, src);
  }

  lemma InheritKept(n: Org, after: Lineage, src: Id, dst: Id, r: Rewrite)
    requires Sound(n, after, src, dst, r) && src in n.units && dst in n.units
    ensures var m := n.(units := Inherited(n.units, src, dst));
      Kept(n, after, m, after, r) && Sound(m, after, src, dst, r)
  {
    SameShapeSim(n, after, r, Inherited(n.units, src, dst));
    SamePaths(n.units, Inherited(n.units, src, dst), after);
    hide Sim, Safe, PathsOf, Inherited, Paired;
  }

  lemma RemoveKept(m: Org, after: Lineage, src: Id, dst: Id, r: Rewrite)
    requires Sound(m, after, src, dst, r) && Emptied(m, src) && src in after
    ensures Kept(m, after, m.(units := m.units - {src}), CutLines(after, src), r)
  {
    RemoveSim(m, after, r, src, dst);
    hide Sim, PathsOf, Paired, CutLines, Emptied;
  }

  lemma SoundEnd(n: Org, after: Lineage, src: Id, dst: Id, r: Rewrite)
    requires Sound(n, after, src, dst, r) && Cleared(n, src, {}) && src in n.units && dst in n.units && src in after
    ensures Kept(n, after, n.(units := Inherited(n.units, src, dst) - {src}), CutLines(after, src), r)
  {
    hide *;
    var m := n.(units := Inherited(n.units, src, dst));
    InheritKept(n, after, src, dst, r);
    EmptiedAlike(n, m, src);
    RemoveKept(m, after, src, dst, r);
    KeptTrans(n, after, m, after, m.(units := m.units - {src}), CutLines(after, src), r);
  }

  lemma EmptiedAlike(n: Org, m: Org, src: Id)
    requires Cleared(n, src, {}) && SameShape(n.units, m.units) && m.homes == n.homes
    ensures Emptied(m, src)
  {
  }
}
