/** A merge statement by statement (domain_portfolio.py, merge_group): the
    folds that are open, each with the children it has still to handle, and
    what the next statement may do. A merge is a run of such steps, on any
    data; only the order of a unit's children is free. */
module MergeRun {
  import opened Common
  import opened Forest
  import opened Merge
  import opened MergeSteps

  datatype Pending = Pending(src: Id, dst: Id, todo: set<Id>)

  /** The tables, the open folds with the innermost last, and the counters. */
  datatype Machine = Machine(org: Org, open: seq<Pending>, moved: nat, merged: nat)

  function Outer(open: seq<Pending>): seq<Pending>
    requires open != []
  {
    open[..|open| - 1]
  }

  function Innermost(open: seq<Pending>): Pending
    requires open != []
  {
    open[|open| - 1]
  }

  function Handled(open: seq<Pending>, c: Id): seq<Pending>
    requires open != []
  {
    Outer(open) + [Innermost(open).(todo := Innermost(open).todo - {c})]
  }

  /** A fold begins with its source's domains going to its target. */
  function Opened(o: Org, open: seq<Pending>, src: Id, dst: Id, moved: nat, merged: nat): Machine {
    Machine(o.(homes := Rehome(o.homes, src, dst)), open + [Pending(src, dst, ChildrenOf(o.units, src))], moved, merged)
  }

  /** A child without a namesake below the target goes there. */
  predicate Moves(a: Machine, b: Machine, c: Id) {
    && a.open != [] && c in Innermost(a.open).todo && c in a.org.units
    && var dst := Innermost(a.open).dst;
    && NoTwin(a.org.units, a.org.units[c].name, Some(dst))
    && b == Machine(a.org.(units := WithParent(a.org.units, c, Some(dst))), Handled(a.open, c), a.moved + 1, a.merged)
  }

  /** A child with a namesake there is folded into it. */
  predicate Folds(a: Machine, b: Machine, c: Id, twin: Id) {
    && a.open != [] && c in Innermost(a.open).todo && c in a.org.units && twin in a.org.units
    && a.org.units[twin].name == a.org.units[c].name && a.org.units[twin].parent == Some(Innermost(a.open).dst)
    && b == Opened(a.org, Handled(a.open, c), c, twin, a.moved, a.merged)
  }

  /** After the last child the target takes what it lacks, and the source goes;
      it counts as merged unless it is the merge's own. */
  predicate Closes(a: Machine, b: Machine) {
    && a.open != [] && Innermost(a.open).todo == {}
    && var Pending(src, dst, _) := Innermost(a.open);
    && src in a.org.units && dst in a.org.units
    && b == Machine(a.org.(units := Inherited(a.org.units, src, dst) - {src}), Outer(a.open), a.moved,
                    a.merged + if |a.open| > 1 then 1 else 0)
  }

  ghost predicate Steps(a: Machine, b: Machine) {
    || (exists c :: Moves(a, b, c))
    || (exists c, twin :: Folds(a, b, c, twin))
    || Closes(a, b)
  }

  ghost predicate IsRun(run: seq<Machine>) {
    run != [] && forall i | 0 <= i < |run| - 1 :: Steps(run[i], run[i + 1])
  }

  ghost predicate RunsFrom(run: seq<Machine>, a: Machine, b: Machine) {
    IsRun(run) && run[0] == a && run[|run| - 1] == b
  }

  /** Some run leads from one state to the other. */
  ghost predicate Leads(a: Machine, b: Machine) {
    exists run :: RunsFrom(run, a, b)
  }

  /** The whole merge of one unit into another. */
  ghost predicate Merges(o: Org, s: Id, t: Id, n: Org, moved: nat, merged: nat) {
    Leads(Opened(o, [], s, t, 0, 0), Machine(n, [], moved, merged))
  }

  lemma LeadsSelf(a: Machine)
    ensures Leads(a, a)
  {
    assert RunsFrom([a], a, a);
  }

  lemma LeadsNext(a: Machine, b: Machine, c: Machine)
    requires Leads(a, b) && Steps(b, c)
    ensures Leads(a, c)
  {
    hide Steps;
    var run :| RunsFrom(run, a, b);
    assert RunsFrom(run + [c], a, c);
  }

  lemma LeadsOn(a: Machine, b: Machine, c: Machine)
    requires Leads(a, b) && Leads(b, c)
    ensures Leads(a, c)
  {
    hide Steps;
    var first :| RunsFrom(first, a, b);
    var second :| RunsFrom(second, b, c);
    var run := first + second[1..];
    forall i | 0 <= i < |run| - 1 ensures Steps(run[i], run[i + 1]) {
      if i >= |first| - 1 { assert run[i] == second[i - |first| + 1]; }
    }
    assert RunsFrom(run, a, c);
  }

  // ------------------------------------------- what each part of the loop does

  /** Between two children of one fold, the folds around it as they are. */
  function Loop(o: Org, around: seq<Pending>, src: Id, dst: Id, todo: set<Id>, moved: nat, merged: nat): Machine {
    Machine(o, around + [Pending(src, dst, todo)], moved, merged)
  }

  lemma LoopStart(o: Org, around: seq<Pending>, src: Id, dst: Id, moved: nat, merged: nat)
    ensures Leads(Opened(o, around, src, dst, moved, merged),
                  Loop(o.(homes := Rehome(o.homes, src, dst)), around, src, dst, ChildrenOf(o.units, src), moved,
                       merged))
  {
    LeadsSelf(Opened(o, around, src, dst, moved, merged));
  }

  lemma LoopMove(from: Machine, o: Org, around: seq<Pending>, src: Id, dst: Id, todo: set<Id>, moved: nat, merged: nat,
                 c: Id)
    requires Leads(from, Loop(o, around, src, dst, todo, moved, merged)) && c in todo && c in o.units
    requires NoTwin(o.units, o.units[c].name, Some(dst))
    ensures Leads(from, Loop(o.(units := WithParent(o.units, c, Some(dst))), around, src, dst, todo - {c}, moved + 1,
                             merged))
  {
    hide Leads, NoTwin, WithParent;
    var n := o.(units := WithParent(o.units, c, Some(dst)));
    var (a, b) := (Loop(o, around, src, dst, todo, moved, merged),
                   Loop(n, around, src, dst, todo - {c}, moved + 1, merged));
    assert Moves(a, b, c);
    LeadsNext(from, a, b);
  }

  lemma LoopFold(from: Machine, o: Org, around: seq<Pending>, src: Id, dst: Id, todo: set<Id>, moved: nat, merged: nat,
                 c: Id, twin: Id, n: Org, movedNow: nat, mergedNow: nat)
    requires Leads(from, Loop(o, around, src, dst, todo, moved, merged)) && c in todo && c in o.units && twin in o.units
    requires o.units[twin].name == o.units[c].name && o.units[twin].parent == Some(dst)
    requires var inner := around + [Pending(src, dst, todo - {c})];
      Leads(Opened(o, inner, c, twin, moved, merged), Machine(n, inner, movedNow, mergedNow))
    ensures Leads(from, Loop(n, around, src, dst, todo - {c}, movedNow, mergedNow))
  {
    hide Leads, Opened;
    var inner := around + [Pending(src, dst, todo - {c})];
    var (a, m) := (Loop(o, around, src, dst, todo, moved, merged), Opened(o, inner, c, twin, moved, merged));
    assert Handled(a.open, c) == inner;
    assert Folds(a, m, c, twin);
    LeadsNext(from, a, m);
    LeadsOn(from, m, Machine(n, inner, movedNow, mergedNow));
  }

  lemma LoopEnd(from: Machine, o: Org, around: seq<Pending>, src: Id, dst: Id, moved: nat, merged: nat)
    requires Leads(from, Loop(o, around, src, dst, {}, moved, merged)) && src in o.units && dst in o.units
    ensures Leads(from, Machine(o.(units := Inherited(o.units, src, dst) - {src}), around, moved,
                                merged + if around == [] then 0 else 1))
  {
    hide Leads, Inherited;
    var (a, b) := (Loop(o, around, src, dst, {}, moved, merged),
                   Machine(o.(units := Inherited(o.units, src, dst) - {src}), around, moved,
                           merged + if around == [] then 0 else 1));
    assert Outer(a.open) == around;
    assert Closes(a, b);
    LeadsNext(from, a, b);
  }
}
