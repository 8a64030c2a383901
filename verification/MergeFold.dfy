/** All that one fold is held to, in one place (domain_portfolio.py,
    merge_group): its result, and what holds between two children. */
module MergeFold {
  import opened Common
  import opened Forest
  import opened Merge
  import opened MergeSteps
  import opened MergeAnchor
  import opened MergeCount
  import opened MergeFields
  import opened MergeRun

  /** For whom a fold works: the paths of the merge, and its two units. */
  datatype Errand = Errand(r: Rewrite, top: Id, goal: Id)

  /** After a fold: the tables and the two counters. */
  ghost predicate Done(o: Org, line: Lineage, n: Org, after: Lineage, src: Id, dst: Id, e: Errand, moved: nat,
                       merged: nat)
    requires src in o.units && Lines(o.units, line)
  {
    && Folded(o, line, n, after, src, dst, e.r)
    && (Free(o, line, src, dst, e.top, e.goal) ==> Anchored(o, line, n, after, e.top))
    && CountInv(o, line, n, src, dst, e.top, e.goal, moved)
    && MoveInv(o, line, n, src, dst, e.r, moved)
    && FieldInv(o, line, n, src, dst, e.r)
    && |o.units| == |n.units| + 1 + merged
    && n.homes.Keys == o.homes.Keys
  }

  /** Between two children. */
  ghost predicate Midway(o: Org, line: Lineage, n: Org, after: Lineage, src: Id, dst: Id, todo: set<Id>, e: Errand,
                         moved: nat, merged: nat) {
    && FoldInv(o, line, n, after, src, dst, todo, e.r)
    && AnchorInv(o, line, n, after, src, dst, todo, e.top, e.goal)
    && CountInv(o, line, n, src, dst, e.top, e.goal, moved)
    && MoveInv(o, line, n, src, dst, e.r, moved)
    && FieldInv(o, line, n, src, dst, e.r)
    && |o.units| == |n.units| + merged
    && n.homes.Keys == o.homes.Keys
  }

  lemma Start(o: Org, line: Lineage, src: Id, dst: Id, e: Errand)
    requires Lines(o.units, line) && src in o.units && dst in o.units && src !in line[dst]
    ensures Midway(o, line, o.(homes := Rehome(o.homes, src, dst)), line, src, dst, ChildrenOf(o.units, src), e, 0, 0)
  {
    hide FoldInv, AnchorInv, CountInv, MoveInv, FieldInv, Lines;
    var n := o.(homes := Rehome(o.homes, src, dst));
    FoldStart(o, line, src, dst, e.r);
    AnchorStart(o, line, src, dst, e.top, e.goal);
    CountStart(o, line, n, src, dst, e.top, e.goal);
    MoveStart(o, line, n, src, dst, e.r);
    FieldStart(o, line, n, src, dst, e.r);
  }

  lemma FoldFrame(o: Org, line: Lineage, n: Org, after: Lineage, src: Id, dst: Id, todo: set<Id>, r: Rewrite)
    requires FoldInv(o, line, n, after, src, dst, todo, r)
    ensures Frame(o.units, line, n.units, after, src, dst, todo)
  {
  }

  /** What the next step needs to know of the child it takes up. */
  lemma Next(o: Org, line: Lineage, n: Org, after: Lineage, src: Id, dst: Id, todo: set<Id>, e: Errand, moved: nat,
             merged: nat, c: Id)
    requires Midway(o, line, n, after, src, dst, todo, e, moved, merged) && c in todo
    ensures Lines(n.units, after) && Lines(o.units, line) && c in n.units && dst in after && c in after
      && c !in after[dst]
    ensures forall t | t in n.units && n.units[t].parent == Some(dst) :: c !in after[t]
    ensures |Branch(after, c)| < |Branch(line, src)|
  {
    hide FoldInv, AnchorInv, CountInv, MoveInv, FieldInv, Lines;
    FoldFrame(o, line, n, after, src, dst, todo, e.r);
    ChildOfSource(o.units, line, n.units, after, src, dst, todo, c);
    ChildSmaller(o.units, line, n.units, after, src, dst, todo, c);
    FrameMembers(o.units, line, n.units, after, src, dst, todo);
  }

  lemma Move(o: Org, line: Lineage, n: Org, after: Lineage, src: Id, dst: Id, todo: set<Id>, e: Errand, moved: nat,
             merged: nat, c: Id)
    requires Midway(o, line, n, after, src, dst, todo, e, moved, merged) && c in todo && c in n.units
    requires NoTwin(n.units, n.units[c].name, Some(dst))
    ensures dst in after && c in after
    ensures Midway(o, line, n.(units := WithParent(n.units, c, Some(dst))), MovedLines(after, c, after[dst]),
                   src, dst, todo - {c}, e, moved + 1, merged)
  {
    hide FoldInv, AnchorInv, CountInv, MoveInv, FieldInv, NoTwin, MovedLines;
    FoldFrame(o, line, n, after, src, dst, todo, e.r);
    FoldMove(o, line, n, after, src, dst, todo, e.r, c);
    AnchorMove(o, line, n, after, src, dst, todo, c, e.top, e.goal);
    CountMove(o, line, n, after, src, dst, todo, c, e.top, e.goal, moved);
    MoveMove(o, line, n, after, src, dst, todo, e.r, c, moved);
    FieldMove(o, line, n, src, dst, e.r, c);
    assert WithParent(n.units, c, Some(dst)).Keys == n.units.Keys;
    SameSize(n.units, WithParent(n.units, c, Some(dst)));
  }

  lemma SameSize(n: Units, m: Units)
    requires n.Keys == m.Keys
    ensures |n| == |m|
  {
    assert |n| == |n.Keys| && |m| == |m.Keys|;
  }

  lemma Twin(o: Org, line: Lineage, n: Org, after: Lineage, src: Id, dst: Id, todo: set<Id>, e: Errand, moved: nat,
             merged: nat, c: Id, twin: Id, m: Org, last: Lineage, more: nat, gone: nat)
    requires Midway(o, line, n, after, src, dst, todo, e, moved, merged) && c in todo && c in n.units
      && Lines(n.units, after)
    requires twin in n.units && n.units[twin].parent == Some(dst) && n.units[twin].name == n.units[c].name
    requires Done(n, after, m, last, c, twin, e, more, gone)
    ensures Midway(o, line, m, last, src, dst, todo - {c}, e, moved + more, merged + 1 + gone)
  {
    hide FoldInv, AnchorInv, CountInv, MoveInv, FieldInv, Lines, Folded, Free, Anchored;
    FoldFrame(o, line, n, after, src, dst, todo, e.r);
    FoldedParts(n, after, m, last, c, twin, e.r);
    FoldTwin(o, line, n, after, src, dst, todo, e.r, c, twin, m, last);
    AnchorTwin(o, line, n, after, src, dst, todo, c, twin, e.top, e.goal, m, last);
    CountTwin(o, line, n, after, src, dst, todo, c, twin, e.top, e.goal, moved, m, last, more);
    MoveTwin(o, line, n, after, src, dst, todo, e.r, c, twin, moved, m, last, more);
    FieldTwin(o, line, n, after, src, dst, todo, e.r, c, twin, m);
  }

  lemma End(o: Org, line: Lineage, n: Org, after: Lineage, src: Id, dst: Id, e: Errand, moved: nat, merged: nat)
    requires Midway(o, line, n, after, src, dst, {}, e, moved, merged)
    ensures Lines(o.units, line) && src in o.units && src in n.units && dst in n.units && src in after
    ensures Done(o, line, n.(units := Inherited(n.units, src, dst) - {src}), CutLines(after, src), src, dst, e, moved,
                 merged)
  {
    hide FoldInv, AnchorInv, CountInv, MoveInv, FieldInv, Lines, Folded, Free, Anchored, CutLines, Inherited;
    FoldFrame(o, line, n, after, src, dst, {}, e.r);
    FoldEnd(o, line, n, after, src, dst, e.r);
    AnchorEnd(o, line, n, after, src, dst, e.top, e.goal);
    CountEnd(o, line, n, after, src, dst, e.top, e.goal, moved);
    MoveEnd(o, line, n, after, src, dst, e.r, moved);
    FieldEnd(o, line, n, after, src, dst, e.r);
    OneLess(n.units, Inherited(n.units, src, dst), src);
  }

  lemma OneLess(n: Units, m: Units, x: Id)
    requires m.Keys == n.Keys && x in n
    ensures |n| == |m - {x}| + 1
  {
    assert (m - {x}).Keys == n.Keys - {x};
    assert |m - {x}| == |(m - {x}).Keys| && |n| == |n.Keys|;
  }

  // ---------------------------------------------------- one fold among others

  /** A fold, the tables it begins with, the folds around it, and the counters
      so far. */
  datatype Job = Job(o: Org, line: Lineage, src: Id, dst: Id, e: Errand, around: seq<Pending>, moved: nat, merged: nat)

  ghost predicate Ready(j: Job) {
    Lines(j.o.units, j.line) && j.src in j.o.units && j.dst in j.o.units && j.src !in j.line[j.dst]
  }

  function Begun(j: Job): Machine {
    Opened(j.o, j.around, j.src, j.dst, j.moved, j.merged)
  }

  ghost predicate Between(j: Job, n: Org, after: Lineage, todo: set<Id>, moved: nat, merged: nat) {
    && Midway(j.o, j.line, n, after, j.src, j.dst, todo, j.e, moved, merged)
    && Leads(Begun(j), Loop(n, j.around, j.src, j.dst, todo, j.moved + moved, j.merged + merged))
  }

  ghost predicate Finished(j: Job, n: Org, after: Lineage, moved: nat, merged: nat)
    requires Ready(j)
  {
    && Done(j.o, j.line, n, after, j.src, j.dst, j.e, moved, merged)
    && Leads(Begun(j), Machine(n, j.around, j.moved + moved, j.merged + merged + if j.around == [] then 0 else 1))
  }

  /** The fold of a child into its namesake. */
  function Inner(j: Job, n: Org, after: Lineage, todo: set<Id>, moved: nat, merged: nat, c: Id, twin: Id): Job {
    Job(n, after, c, twin, j.e, j.around + [Pending(j.src, j.dst, todo - {c})], j.moved + moved, j.merged + merged)
  }

  lemma JobStart(j: Job)
    requires Ready(j)
    ensures Between(j, j.o.(homes := Rehome(j.o.homes, j.src, j.dst)), j.line, ChildrenOf(j.o.units, j.src), 0, 0)
  {
    hide Midway, Leads;
    Start(j.o, j.line, j.src, j.dst, j.e);
    LoopStart(j.o, j.around, j.src, j.dst, j.moved, j.merged);
  }

  lemma JobNext(j: Job, n: Org, after: Lineage, todo: set<Id>, moved: nat, merged: nat, c: Id)
    requires Between(j, n, after, todo, moved, merged) && c in todo
    ensures Lines(n.units, after) && Lines(j.o.units, j.line) && c in n.units && j.dst in after && c in after
    ensures c !in after[j.dst] && |Branch(after, c)| < |Branch(j.line, j.src)|
    ensures forall t | t in n.units && n.units[t].parent == Some(j.dst) :: c !in after[t]
  {
    hide Midway, Leads;
    Next(j.o, j.line, n, after, j.src, j.dst, todo, j.e, moved, merged, c);
  }

  lemma JobMove(j: Job, n: Org, after: Lineage, todo: set<Id>, moved: nat, merged: nat, c: Id)
    requires Between(j, n, after, todo, moved, merged) && c in todo && c in n.units
    requires NoTwin(n.units, n.units[c].name, Some(j.dst))
    ensures j.dst in after && c in after
    ensures Between(j, n.(units := WithParent(n.units, c, Some(j.dst))), MovedLines(after, c, after[j.dst]), todo - {c},
                    moved + 1, merged)
  {
    hide Midway, Leads, NoTwin, MovedLines;
    Move(j.o, j.line, n, after, j.src, j.dst, todo, j.e, moved, merged, c);
    LoopMove(Begun(j), n, j.around, j.src, j.dst, todo, j.moved + moved, j.merged + merged, c);
  }

  lemma JobTwin(j: Job, n: Org, after: Lineage, todo: set<Id>, moved: nat, merged: nat, c: Id, twin: Id, m: Org,
                last: Lineage, more: nat, gone: nat)
    requires Between(j, n, after, todo, moved, merged) && c in todo && c in n.units
    requires twin in n.units && n.units[twin].parent == Some(j.dst) && n.units[twin].name == n.units[c].name
    requires var inner := Inner(j, n, after, todo, moved, merged, c, twin);
      Ready(inner) && Finished(inner, m, last, more, gone)
    ensures Between(j, m, last, todo - {c}, moved + more, merged + 1 + gone)
  {
    hide Midway, Done, Leads, Lines, Opened, Loop;
    Twin(j.o, j.line, n, after, j.src, j.dst, todo, j.e, moved, merged, c, twin, m, last, more, gone);
    LoopFold(Begun(j), n, j.around, j.src, j.dst, todo, j.moved + moved, j.merged + merged, c, twin, m,
             j.moved + moved + more, j.merged + merged + gone + 1);
  }

  lemma JobEnd(j: Job, n: Org, after: Lineage, moved: nat, merged: nat)
    requires Ready(j) && Between(j, n, after, {}, moved, merged)
    ensures j.src in n.units && j.dst in n.units && j.src in after
    ensures Finished(j, n.(units := Inherited(n.units, j.src, j.dst) - {j.src}), CutLines(after, j.src), moved, merged)
  {
    hide Midway, Done, Leads, Lines, Inherited, CutLines;
    End(j.o, j.line, n, after, j.src, j.dst, j.e, moved, merged);
    LoopEnd(Begun(j), n, j.around, j.src, j.dst, j.moved + moved, j.merged + merged);
  }
}
