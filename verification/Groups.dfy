/** The organisation's tables, changed in place (domain_portfolio.py). */
module Groups {
  import opened Common
  import opened Forest
  import opened Merge
  import opened MergeSteps
  import opened MergeAnchor
  import opened MergeCount
  import opened MergeRun
  import opened MergeFields
  import opened MergeFold
  import opened MergeTheorem
  import opened Organisation
  import opened Changes
  import opened Trees
  import opened Parts
  import opened Listing

  /** The domains in the units given. */
  function DomainsIn(homes: map<DomainName, Option<Id>>, ids: set<Id>): set<DomainName> {
    set d | d in homes && homes[d].Some? && homes[d].value in ids
  }

  /** No unit has a number that is yet to be given. */
  ghost predicate BelowNext(units: Units, next: Id) {
    forall u | u in units :: u < next
  }

  // ----------------------------------------------------------------- merging

  datatype MergeResult = Merged(domains: nat, moved: nat, merged: nat) | UnknownUnit | IntoItself | IntoOwnBranch

  ghost function PathsOfMerge(units: Units, s: Id, t: Id): Rewrite
    requires Acyclic(units) && s in units && t in units
  {
    Rewrite(FullPath(units, s), FullPath(units, t))
  }

  /** Whatever the data: the source is gone, and with it one unit for each that
      was merged; every unit outside its branch is where it was, and still the
      only one of its name at its level if names were apart. */
  ghost predicate Shrunk(o: Org, n: Org, s: Id, merged: nat)
    requires Acyclic(o.units) && Acyclic(n.units)
  {
    && |o.units| == |n.units| + 1 + merged && s !in n.units && n.units.Keys <= o.units.Keys
    && n.homes.Keys == o.homes.Keys
    && (forall u | u in o.units && !Above(o.units, s, u) ::
          u in n.units && n.units[u].parent == o.units[u].parent && FullPath(n.units, u) == FullPath(o.units, u))
    && (NamesApart(o.units) ==> NamesApart(n.units))
  }

  /** The target not being above the source: nothing dangles afterwards. */
  ghost predicate StillWhole(o: Org, n: Org, s: Id, t: Id)
    requires Acyclic(o.units) && s in o.units
  {
    Whole(o) && !Above(o.units, t, s) ==> Whole(n)
  }

  /** The counter is never less than the number of units left with another
      parent than before, and is that number where nothing dangles and the
      target is not above the source, and where names are apart as well and
      the source's branch does not repeat the way to it. */
  ghost predicate Counted(o: Org, n: Org, s: Id, t: Id, moved: nat)
    requires Acyclic(o.units) && s in o.units && t in o.units
  {
    && |Relocated(o.units, n.units)| <= moved
    && (Whole(o) && !Above(o.units, t, s) ==> moved == |Relocated(o.units, n.units)|)
    && (Ordered(o) && !Repeats(o.units, LineageOf(o.units), s, t) ==> moved == |Relocated(o.units, n.units)|)
  }

  /** From well-ordered tables: the merged tree is the rewritten one, exactly
      when the source's branch does not repeat the way from the target to it;
      then every unit left is set as the two folded together were. */
  ghost predicate MergedTree(o: Org, n: Org, s: Id, t: Id)
    requires Acyclic(o.units) && Acyclic(n.units) && s in o.units && t in o.units
  {
    var (line, after) := (LineageOf(o.units), LineageOf(n.units));
    Ordered(o) ==>
      && (Conserved(o, line, n, after, PathsOfMerge(o.units, s, t)) <==> !Repeats(o.units, line, s, t))
      && (!Repeats(o.units, line, s, t) ==>
            forall u | u in n.units :: u in o.units && Settled(o.units, line, n.units, PathsOfMerge(o.units, s, t), u))
  }

  lemma ShrunkBy(o: Org, n: Org, after: Lineage, s: Id, t: Id, e: Errand, moved: nat, merged: nat)
    requires Acyclic(o.units) && s in o.units && Done(o, LineageOf(o.units), n, after, s, t, e, moved, merged)
    ensures Lines(n.units, after) && Acyclic(n.units) && LineageOf(n.units) == after && Shrunk(o, n, s, merged)
  {
    var line := LineageOf(o.units);
    FoldedParts(o, line, n, after, s, t, e.r);
    InsideLines(o.units, line, n.units, after, s);
    InsideMembers(o.units, line, n.units, after, s);
    OneLineage(n.units, after);
    hide Done, Folded, Inside, Lines, LineageOf, PathOf, NamesApart;
    DoneCounts(o, line, n, after, s, t, e, moved, merged);
    forall u | u in o.units && !Above(o.units, s, u)
      ensures u in n.units && n.units[u].parent == o.units[u].parent && FullPath(n.units, u) == FullPath(o.units, u)
    {
      InsideOutside(o.units, line, n.units, after, s, u);
      PathAt(o.units, line, u);
      PathAt(n.units, after, u);
      SamePathOutside(o.units, line, n.units, after, u);
    }
  }

  lemma DoneCounts(o: Org, line: Lineage, n: Org, after: Lineage, s: Id, t: Id, e: Errand, moved: nat, merged: nat)
    requires Lines(o.units, line) && s in o.units && Done(o, line, n, after, s, t, e, moved, merged)
    ensures |o.units| == |n.units| + 1 + merged && n.homes.Keys == o.homes.Keys
    ensures Free(o, line, s, t, e.top, e.goal) ==>
      Anchored(o, line, n, after, e.top) && moved == |Relocated(o.units, n.units)|
    ensures Folded(o, line, n, after, s, t, e.r) && FieldInv(o, line, n, s, t, e.r)
    ensures MoveInv(o, line, n, s, t, e.r, moved)
  {
    hide Folded, Free, Anchored, FieldInv, MoveInv, Lines, Relocated;
  }

  lemma FreeFrom(o: Org, s: Id, t: Id)
    requires Whole(o) && s in o.units && t in o.units && !Above(o.units, t, s) && !Above(o.units, s, t)
    ensures Free(o, LineageOf(o.units), s, t, s, t)
  {
    LineOfChild(o.units, LineageOf(o.units), s);
    LineOfChild(o.units, LineageOf(o.units), t);
  }

  lemma StillWholeBy(o: Org, n: Org, after: Lineage, s: Id, t: Id, r: Rewrite, moved: nat, merged: nat)
    requires Acyclic(o.units) && s in o.units && t in o.units && !Above(o.units, s, t)
    requires Done(o, LineageOf(o.units), n, after, s, t, Errand(r, s, t), moved, merged) && Acyclic(n.units)
    ensures StillWhole(o, n, s, t)
  {
    hide Done, Free, Anchored, LineageOf, Relocated, Lines;
    DoneCounts(o, LineageOf(o.units), n, after, s, t, Errand(r, s, t), moved, merged);
    if Whole(o) && !Above(o.units, t, s) {
      FreeFrom(o, s, t);
      AnchoredWhole(o, LineageOf(o.units), n, after, s);
    }
  }

  lemma CountedBy(o: Org, n: Org, after: Lineage, s: Id, t: Id, moved: nat, merged: nat)
    requires Acyclic(o.units) && s in o.units && t in o.units && !Above(o.units, s, t)
    requires Done(o, LineageOf(o.units), n, after, s, t, Errand(PathsOfMerge(o.units, s, t), s, t), moved, merged)
    ensures Counted(o, n, s, t, moved)
  {
    hide Done, Free, Anchored, LineageOf, Relocated, Lines, Ordered, Repeats, PathOf, Sound;
    var (line, r) := (LineageOf(o.units), PathsOfMerge(o.units, s, t));
    DoneCounts(o, line, n, after, s, t, Errand(r, s, t), moved, merged);
    if Whole(o) && !Above(o.units, t, s) { FreeFrom(o, s, t); }
    if Ordered(o) && !Repeats(o.units, line, s, t) {
      SafeIff(o, line, s, t);
      SoundFrom(o, line, s, t);
    }
  }

  lemma SoundFrom(o: Org, line: Lineage, s: Id, t: Id)
    requires Lines(o.units, line) && s in o.units && t in o.units
    requires Safe(o, line, Rewrite(PathOf(o.units, line, s), PathOf(o.units, line, t)))
    ensures Sound(o, line, s, t, Rewrite(PathOf(o.units, line, s), PathOf(o.units, line, t)))
  {
    PathsAre(o, line);
    CanonOfSource(Rewrite(PathOf(o.units, line, s), PathOf(o.units, line, t)));
    hide Safe, PathOf, PathsOf, Lines, Canon;
  }

  lemma MergedTreeBy(o: Org, n: Org, after: Lineage, s: Id, t: Id, moved: nat, merged: nat)
    requires Acyclic(o.units) && s in o.units && t in o.units && !Above(o.units, s, t)
    requires Done(o, LineageOf(o.units), n, after, s, t, Errand(PathsOfMerge(o.units, s, t), s, t), moved, merged)
    requires Acyclic(n.units) && LineageOf(n.units) == after
    ensures MergedTree(o, n, s, t)
  {
    hide Done, LineageOf, Lines, PathOf, Ordered, Conserved, Repeats, Folded, FieldInv, Settled;
    var line := LineageOf(o.units);
    DoneCounts(o, line, n, after, s, t, Errand(PathsOfMerge(o.units, s, t), s, t), moved, merged);
    if Ordered(o) {
      MergeConservesIff(o, line, n, after, s, t);
      if !Repeats(o.units, line, s, t) {
        forall u | u in n.units
          ensures u in o.units && Settled(o.units, line, n.units, PathsOfMerge(o.units, s, t), u)
        {
          MergeSettles(o, line, n, after, s, t, u);
        }
      }
    }
  }

  /** A unit with a unit of its own name below it. */
  function Nested(): Org {
    Org(map[1 := Bare("Org", None), 2 := Bare("Sales", Some(1)), 3 := Bare("Sales", Some(2))],
        map["example.org" := Some(3)])
  }

  function Bare(name: string, parent: Option<Id>): Unit {
    Unit(name, parent, None, None, None)
  }

  function NestedLine(): Lineage {
    map[1 := [1], 2 := [1, 2], 3 := [1, 2, 3]]
  }

  lemma NestedOrdered()
    ensures Ordered(Nested())
  {
  }

  lemma NestedForest()
    ensures Ordered(Nested()) && Lines(Nested().units, NestedLine())
  {
    NestedOrdered();
    hide Ordered;
  }

  lemma NestedPaths()
    ensures Lines(Nested().units, NestedLine())
    ensures var (units, line) := (Nested().units, NestedLine());
      && PathOf(units, line, 1) == ["Org"] && PathOf(units, line, 2) == ["Org", "Sales"]
      && PathOf(units, line, 3) == ["Org", "Sales", "Sales"]
  {
    NestedForest();
    hide Lines, PathOf;
    PathOfChild(Nested().units, NestedLine(), 1);
    PathOfChild(Nested().units, NestedLine(), 2);
    PathOfChild(Nested().units, NestedLine(), 3);
  }

  lemma NestedRepeats()
    ensures Ordered(Nested()) && Acyclic(Nested().units) && !Above(Nested().units, 2, 1)
    ensures Repeats(Nested().units, LineageOf(Nested().units), 2, 1)
  {
    NestedForest();
    NestedPaths();
    hide Ordered, Lines, PathOf, LineageOf;
    OneLineage(Nested().units, NestedLine());
    assert ["Org", "Sales", "Sales"] == ["Org", "Sales"] + ["Org", "Sales"][1..];
  }

  /** Merging the one in the middle into the one above it loses the third: its
      namesake below the target is the source itself, which is then deleted. */
  lemma NestedIsLost(n: Org, after: Lineage, moved: nat, merged: nat)
    requires Acyclic(Nested().units)
    requires Done(Nested(), LineageOf(Nested().units), n, after, 2, 1, Errand(PathsOfMerge(Nested().units, 2, 1), 2, 1),
                  moved, merged)
    ensures !Conserved(Nested(), LineageOf(Nested().units), n, after, PathsOfMerge(Nested().units, 2, 1))
  {
    NestedRepeats();
    hide Nested, Done, LineageOf, Acyclic, Ordered, Repeats, Conserved, PathOf, Folded, Lines;
    var o := Nested();
    NestedMembers();
    DoneCounts(o, LineageOf(o.units), n, after, 2, 1, Errand(PathsOfMerge(o.units, 2, 1), 2, 1), moved, merged);
    MergeConservesIff(o, LineageOf(o.units), n, after, 2, 1);
  }

  lemma NestedMembers()
    ensures 1 in Nested().units && 2 in Nested().units
  {
  }

  /** A unit with the name of one beside the unit above it. */
  function Crowded(): Org {
    Org(map[1 := Bare("Org", None), 2 := Bare("North", Some(1)), 3 := Bare("Sales", Some(1)),
            4 := Bare("Sales", Some(2))], map[])
  }

  function CrowdedLine(): Lineage {
    map[1 := [1], 2 := [1, 2], 3 := [1, 3], 4 := [1, 2, 4]]
  }

  /** Deleting the one in the middle lifts its unit beside a namesake. */
  lemma CrowdedClash()
    ensures Ordered(Crowded()) && 2 in Crowded().units && LiftClashes(Crowded().units, 2)
    ensures !NamesApart(Lifted(Crowded().units, 2))
  {
    var units := Crowded().units;
    assert Lines(units, CrowdedLine());
    var n := Lifted(units, 2);
    assert n[3].name == n[4].name && n[3].parent == n[4].parent;
    assert Namesakes(n, 3, 4);
  }

  // ------------------------------------------------------------------- runs

  datatype State = State(org: Org, next: Id)

  datatype Command =
    | Ensure(name: string, parent: Option<Id>)
    | Update(id: Id, row: Unit)
    | Merge(source: Id, target: Id)
    | Lift(id: Id)
    | Delete(id: Id)

  /** No unit is its own ancestor or has a number that is yet to be given. */
  ghost predicate Sane(s: State) {
    Acyclic(s.org.units) && BelowNext(s.org.units, s.next)
  }

  /** The unit's new place is its old one, or nobody else has it. */
  ghost predicate Fits(units: Units, id: Id, row: Unit)
    requires id in units
  {
    NoTwin(units - {id}, row.name, row.parent) || (row.name == units[id].name && row.parent == units[id].parent)
  }

  ghost predicate MergeStep(o: Org, n: Org, s: Id, t: Id)
    requires Acyclic(o.units) && s in o.units && t in o.units
  {
    exists after, moved, merged ::
      Done(o, LineageOf(o.units), n, after, s, t, Errand(PathsOfMerge(o.units, s, t), s, t), moved, merged)
  }

  /** What a successful call leaves. */
  ghost predicate Step(a: State, c: Command, b: State) {
    && Sane(a)
    && var units := a.org.units;
      match c
      case Ensure(name, parent) =>
        && (NoTwin(units, name, parent) ==> !LeadsBack(units, a.next, parent))
        && b == if NoTwin(units, name, parent)
                then State(a.org.(units := units[a.next := Bare(name, parent)]), a.next + 1)
                else a
      case Update(id, row) =>
        && id in units && Placeable(units, id, row.parent) && Fits(units, id, row)
        && b == a.(org := a.org.(units := units[id := row]))
      case Merge(s, t) =>
        && s in units && t in units && !Above(units, s, t)
        && MergeStep(a.org, b.org, s, t) && b.next == a.next && BelowNext(b.org.units, b.next)
      case Lift(id) =>
        id in units && b == a.(org := Org(Lifted(units, id), LiftedHomes(a.org.homes, id, units[id].parent)))
      case Delete(id) =>
        && id in units
        && var gone := Branch(LineageOf(units), id);
           b == a.(org := Org(Without(units, gone), WithoutHomes(a.org.homes, gone)))
  }

  /** Any successful call leaves a forest. */
  lemma StepKeepsForest(a: State, c: Command, b: State)
    requires Step(a, c, b)
    ensures Sane(b)
  {
    hide Acyclic, LineageOf, Above, Done, PathOf;
    var units := a.org.units;
    match c
    case Ensure(name, parent) =>
      if NoTwin(units, name, parent) { AddAcyclicIff(units, a.next, Bare(name, parent)); }
    case Update(id, row) => ChangeAcyclic(units, id, row);
    case Merge(s, t) =>
      var e := Errand(PathsOfMerge(units, s, t), s, t);
      var after, moved, merged :| Done(a.org, LineageOf(units), b.org, after, s, t, e, moved, merged);
      ShrunkBy(a.org, b.org, after, s, t, e, moved, merged);
    case Lift(id) => LiftAcyclic(units, id);
    case Delete(id) => CutAcyclic(units, id);
  }

  /** No unit is created under a missing one, or merged into one above it. */
  ghost predicate Careful(a: State, c: Command)
    requires Sane(a)
  {
    match c
    case Ensure(_, parent) => parent.Some? ==> parent.value in a.org.units
    case Merge(s, t) => s in a.org.units ==> !Above(a.org.units, t, s)
    case _ => true
  }

  /** Careful calls leave no reference dangling. */
  lemma StepKeepsWhole(a: State, c: Command, b: State)
    requires Step(a, c, b) && Careful(a, c) && Whole(a.org)
    ensures Whole(b.org)
  {
    StepKeepsForest(a, c, b);
    RootedAll(a.org.units);
    hide Acyclic, LineageOf, Above, Done, PathOf, Relocated, MergeStep;
    var units := a.org.units;
    match c
    case Ensure(name, parent) =>
    case Update(id, row) =>
    case Merge(s, t) => MergeStepWhole(a.org, b.org, s, t);
    case Lift(id) => NotOwnParent(units, id); LiftWhole(a.org, id);
    case Delete(id) => CutWhole(a.org, id);
  }

  lemma MergeStepWhole(o: Org, n: Org, s: Id, t: Id)
    requires Whole(o) && s in o.units && t in o.units && !Above(o.units, s, t) && !Above(o.units, t, s)
    requires MergeStep(o, n, s, t) && Acyclic(n.units)
    ensures Whole(n)
  {
    hide Acyclic, LineageOf, Above, Done, PathOf, Relocated, Rooted, HomesThere;
    var r := PathsOfMerge(o.units, s, t);
    var after, moved, merged :| Done(o, LineageOf(o.units), n, after, s, t, Errand(r, s, t), moved, merged);
    StillWholeBy(o, n, after, s, t, r, moved, merged);
  }

  /** Careful, and no merge repeats the way to the source, and no deletion lifts
      a unit beside a namesake. */
  ghost predicate Orderly(a: State, c: Command)
    requires Sane(a)
  {
    match c
    case Ensure(_, parent) => parent.Some? ==> parent.value in a.org.units
    case Merge(s, t) => s in a.org.units && t in a.org.units ==> !Repeats(a.org.units, LineageOf(a.org.units), s, t)
    case Lift(id) => id in a.org.units ==> !LiftClashes(a.org.units, id)
    case _ => true
  }

  /** Orderly calls also leave names apart on every level. */
  lemma StepKeepsOrder(a: State, c: Command, b: State)
    requires Step(a, c, b) && Orderly(a, c) && Ordered(a.org)
    ensures Ordered(b.org)
  {
    StepKeepsForest(a, c, b);
    var units := a.org.units;
    if c.Merge? {
      hide Acyclic, LineageOf, Above, Done, PathOf, Repeats;
      MergeStepOrder(a.org, b.org, c.source, c.target);
    } else {
      StepKeepsWhole(a, c, b);
      hide Acyclic, LineageOf, Above, Done, PathOf, Repeats, Rooted, HomesThere;
      match c
      case Ensure(name, parent) => if NoTwin(units, name, parent) { AddedApart(units, a.next, name, parent); }
      case Update(id, row) =>
        if NoTwin(units - {id}, row.name, row.parent) {
          ChangeApart(units, id, row);
        } else {
          SamePlaceApart(units, id, row);
        }
      case Lift(id) => NotOwnParent(units, id); LiftApartIff(units, id);
      case Delete(id) => CutWhole(a.org, id);
    }
  }

  lemma SamePlaceApart(units: Units, id: Id, row: Unit)
    requires NamesApart(units) && id in units && row.name == units[id].name && row.parent == units[id].parent
    ensures NamesApart(units[id := row])
  {
    ApartAll(units);
  }

  lemma MergeStepOrder(o: Org, n: Org, s: Id, t: Id)
    requires Ordered(o) && Acyclic(o.units) && s in o.units && t in o.units && !Above(o.units, s, t)
    requires !Repeats(o.units, LineageOf(o.units), s, t)
    requires MergeStep(o, n, s, t) && Acyclic(n.units)
    ensures Ordered(n)
  {
    var r := PathsOfMerge(o.units, s, t);
    var after, moved, merged :| Done(o, LineageOf(o.units), n, after, s, t, Errand(r, s, t), moved, merged);
    hide Acyclic, LineageOf, Done, PathOf, Repeats, Ordered, Lines;
    ShrunkBy(o, n, after, s, t, Errand(r, s, t), moved, merged);
    MergedTreeBy(o, n, after, s, t, moved, merged);
    ConservedOrdered(o, LineageOf(o.units), n, after, r);
  }

  lemma ConservedOrdered(o: Org, line: Lineage, n: Org, after: Lineage, r: Rewrite)
    requires Conserved(o, line, n, after, r)
    ensures Ordered(n)
  {
  }

  ghost predicate Run(states: seq<State>, commands: seq<Command>) {
    |states| == |commands| + 1 && forall i | 0 <= i < |commands| :: Step(states[i], commands[i], states[i + 1])
  }

  /** Over every run of successful calls: the units stay a forest; as long as
      the calls are careful, no reference dangles; as long as they are orderly,
      names stay apart as well. */
  lemma {:induction false} RunKeeps(states: seq<State>, commands: seq<Command>, k: nat)
    requires Run(states, commands) && Sane(states[0]) && k < |states|
    ensures Sane(states[k])
    ensures Whole(states[0].org) && (forall i | 0 <= i < k :: Sane(states[i]) && Careful(states[i], commands[i])) ==>
      Whole(states[k].org)
    ensures Ordered(states[0].org) && (forall i | 0 <= i < k :: Sane(states[i]) && Orderly(states[i], commands[i])) ==>
      Ordered(states[k].org)
    decreases k
  {
    hide Sane, Step, Whole, Ordered, Careful, Orderly;
    if k > 0 {
      RunKeeps(states, commands, k - 1);
      var (a, c, b) := (states[k - 1], commands[k - 1], states[k]);
      assert Step(a, c, b);
      StepKeepsForest(a, c, b);
      if Whole(a.org) && Careful(a, c) { StepKeepsWhole(a, c, b); }
      if Ordered(a.org) && Orderly(a, c) { StepKeepsOrder(a, c, b); }
    }
  }

  // ------------------------------------------------------- a path, level by level

  /** A unit with this path, counted from a unit without a parent. */
  ghost predicate StandsAt(units: Units, u: Id, path: Path)
    requires Acyclic(units)
  {
    u in units && FullPath(units, u) == path && Grounded(units, LineageOf(units), u)
  }

  ghost predicate Stood(units: Units, u: Id, path: Path) {
    Acyclic(units) && StandsAt(units, u, path)
  }

  /** Rows are only added: without settings, and on the way to the unit given. */
  ghost predicate Grown(o: Units, n: Units, last: Option<Id>)
    requires Acyclic(n)
  {
    && (forall u | u in o :: u in n && n[u] == o[u])
    && (last.Some? ==> last.value in n)
    && forall u | u in n && u !in o ::
         n[u] == Bare(n[u].name, n[u].parent) && last.Some? && Above(n, u, last.value)
  }

  lemma GrownStep(o: Units, n: Units, last: Option<Id>, id: Id, name: string)
    requires Acyclic(n) && Grown(o, n, last) && id !in n && Acyclic(n[id := Bare(name, last)])
    ensures Grown(o, n[id := Bare(name, last)], Some(id))
  {
    hide LineageOf, Acyclic, Above;
    var m := n[id := Bare(name, last)];
    FullPathStep(m, id);
    forall u | u in m && u !in o ensures m[u] == Bare(m[u].name, m[u].parent) && Above(m, u, id) {
      if u != id { AddAbove(n, id, Bare(name, last), u, last.value); }
    }
  }

  /** A unit that is there is on the way to itself and, if so, to its children. */
  lemma GrownSame(o: Units, n: Units, last: Option<Id>, id: Id)
    requires Acyclic(n) && Grown(o, n, last) && id in n && n[id].parent == last
    ensures Grown(o, n, Some(id))
  {
    hide LineageOf, Acyclic, Above;
    FullPathStep(n, id);
  }

  lemma Standing(units: Units, id: Id, parent: Option<Id>, path: Path)
    requires Acyclic(units) && id in units && units[id].parent == parent
    requires parent.None? ==> path == []
    requires parent.Some? ==> Stood(units, parent.value, path)
    ensures Stood(units, id, path + [units[id].name])
  {
    FullPathStep(units, id);
    LineOfChild(units, LineageOf(units), id);
    if parent.Some? { LineShape(units, LineageOf(units), parent.value); }
    hide LineageOf, FullPath, Acyclic;
  }

  lemma StandingStays(units: Units, u: Id, path: Path, id: Id, row: Unit)
    requires Acyclic(units) && Stood(units, u, path) && id !in units && Acyclic(units[id := row])
    ensures Stood(units[id := row], u, path)
  {
    hide LineageOf, FullPath, Acyclic, Grounded, Reached;
    GroundedAway(units, id, u);
    GroundedStays(units, id, row, u);
    AddedPath(units, id, row, u);
  }

  /** Where a whole path already stands, so does its next level. */
  lemma LevelStands(units: Units, u: Id, path: Path, i: nat, parent: Option<Id>)
    requires Acyclic(units) && NamesApart(units) && Stood(units, u, path) && i < |path|
    requires parent.None? <==> i == 0
    requires parent.Some? ==> Stood(units, parent.value, path[..i])
    ensures !NoTwin(units, path[i], parent)
  {
    var line := LineageOf(units);
    hide LineageOf, Acyclic, Lines, NamesApart, NoTwin, PathOf, Grounded;
    PathLength(units, line, u);
    var x := Ancestor(units, line, u, i + 1);
    LevelParent(units, line, x, path[..i + 1], i);
    assert path[..i + 1][..i] == path[..i];
    if i > 0 { PathNamesOne(units, line, units[x].parent.value, parent.value); }
    TwinIs(units, x, path[i], parent);
  }

  /** The unit i levels down: what its row says, and what stands above it. */
  lemma LevelParent(units: Units, line: Lineage, x: Id, path: Path, i: nat)
    requires Lines(units, line) && x in units && Grounded(units, line, x) && PathOf(units, line, x) == path
      && |path| == i + 1
    ensures units[x].name == path[i]
    ensures i == 0 ==> units[x].parent.None?
    ensures i > 0 ==>
      && HasParent(units, x) && Grounded(units, line, units[x].parent.value)
      && PathOf(units, line, units[x].parent.value) == path[..i]
  {
    hide Lines, PathOf;
    PathOfChild(units, line, x);
    PathLength(units, line, x);
    LineOfChild(units, line, x);
    LineShape(units, line, x);
    if HasParent(units, x) {
      LineShape(units, line, units[x].parent.value);
      PathLength(units, line, units[x].parent.value);
    }
  }

  lemma TwinIs(units: Units, x: Id, name: string, parent: Option<Id>)
    requires x in units && units[x].name == name && units[x].parent == parent
    ensures !NoTwin(units, name, parent)
  {
  }

  lemma OneStands(units: Units, u: Id, v: Id, path: Path)
    requires Acyclic(units) && NamesApart(units) && Stood(units, u, path) && Stood(units, v, path)
    ensures u == v
  {
    hide LineageOf, Acyclic, Lines, NamesApart;
    PathNamesOne(units, LineageOf(units), u, v);
  }

  lemma GrownHolds(o: Units)
    requires Acyclic(o)
    ensures Grown(o, o, None)
  {
  }

  lemma StandsMember(units: Units, u: Id, path: Path)
    requires Stood(units, u, path)
    ensures u in units
  {
  }

  /** One level: the path is one longer, and only on the way to it are there new
      units. */
  lemma PathGrows(o: Units, a: State, b: State, last: Option<Id>, name: string, id: Id, path: Path)
    requires Step(a, Ensure(name, last), b) && Grown(o, a.org.units, last)
    requires if last.None? then path == [] else Stood(a.org.units, last.value, path)
    requires id in b.org.units && b.org.units[id].name == name && b.org.units[id].parent == last
    requires id in a.org.units <==> !NoTwin(a.org.units, name, last)
    ensures Sane(b) && Grown(o, b.org.units, Some(id)) && Stood(b.org.units, id, path + [name])
    ensures NamesApart(a.org.units) ==> NamesApart(b.org.units)
    ensures Whole(a.org) ==> Whole(b.org)
  {
    StepKeepsForest(a, Ensure(name, last), b);
    hide Acyclic, StandsAt, Grown, LineageOf, Above, PathOf, Whole;
    var units := a.org.units;
    if last.Some? { StandsMember(units, last.value, path); }
    if Whole(a.org) { StepKeepsWhole(a, Ensure(name, last), b); }
    if NoTwin(units, name, last) {
      GrownStep(o, units, last, id, name);
      if last.Some? { StandingStays(units, last.value, path, id, Bare(name, last)); }
      AddedApart(units, id, name, last);
    } else {
      GrownSame(o, units, last, id);
    }
    Standing(b.org.units, id, last, path);
  }

  lemma AddedApart(units: Units, id: Id, name: string, last: Option<Id>)
    requires id !in units && NoTwin(units, name, last)
    ensures NamesApart(units) ==> NamesApart(units[id := Bare(name, last)])
  {
    if NamesApart(units) { ApartAll(units); }
  }

  // ----------------------------------------------------------------- settings

  /** What a call asks to change; what is not given stays. */
  datatype Change = Change(name: Option<string>, parent: Option<Option<Id>>, registrar: Option<Option<string>>,
                           contact: Option<Option<nat>>, minutes: Option<Option<int>>)

  datatype UpdateResult = Updated | NoSuchUnit | NoSuchParent | UnderItself | NoSuchContact | BadInterval | NameTaken

  predicate ContactKnown(c: Change, contacts: set<nat>) {
    c.contact.Some? && c.contact.value.Some? ==> c.contact.value.value in contacts
  }

  /** Between every five minutes and every thirty days. */
  predicate IntervalFine(c: Change) {
    c.minutes.Some? && c.minutes.value.Some? ==> 5 <= c.minutes.value.value <= 43200
  }

  function Changed(row: Unit, c: Change): Unit
    requires IntervalFine(c)
  {
    Unit(c.name.GetOr(row.name), c.parent.GetOr(row.parent), c.registrar.GetOr(row.registrar),
         c.contact.GetOr(row.contact),
         if c.minutes.None? then row.minutes else if c.minutes.value.None? then None else Some(c.minutes.value.value))
  }

  /** A value asked for is the new one; otherwise the old one stays. */
  predicate AskedOr<T(==)>(asked: Option<T>, was: T, now: T) {
    (asked.None? ==> now == was) && (asked.Some? ==> now == asked.value)
  }

  /** The new row, field by field. */
  predicate AsAsked(was: Unit, change: Change, now: Unit) {
    && AskedOr(change.name, was.name, now.name) && AskedOr(change.parent, was.parent, now.parent)
    && AskedOr(change.registrar, was.registrar, now.registrar) && AskedOr(change.contact, was.contact, now.contact)
    && (change.minutes.None? ==> now.minutes == was.minutes)
    && (change.minutes == Some(None) ==> now.minutes == None)
    && (change.minutes.Some? && change.minutes.value.Some? ==>
          now.minutes.Some? && now.minutes.value == change.minutes.value.value)
  }

  lemma ChangedAsAsked(row: Unit, change: Change)
    requires IntervalFine(change)
    ensures AsAsked(row, change, Changed(row, change))
  {
  }

  lemma FewerNoTwin(units: Units, id: Id, name: string, parent: Option<Id>)
    requires NoTwin(units, name, parent)
    ensures NoTwin(units - {id}, name, parent)
  {
  }

  /** A unit goes, and what was directly in it is in its parent: its units and
      its domains. Nothing else changes. */
  ghost predicate MovedUp(o: Org, id: Id, n: Org)
    requires id in o.units
  {
    && n.units.Keys == o.units.Keys - {id} && n.homes.Keys == o.homes.Keys
    && (forall u | u in n.units && o.units[u].parent == Some(id) ::
          n.units[u] == o.units[u].(parent := o.units[id].parent))
    && (forall u | u in n.units && o.units[u].parent != Some(id) :: n.units[u] == o.units[u])
    && (forall d | d in n.homes && o.homes[d] == Some(id) :: n.homes[d] == o.units[id].parent)
    && (forall d | d in n.homes && o.homes[d] != Some(id) :: n.homes[d] == o.homes[d])
  }

  lemma LiftMovesUp(o: Org, id: Id)
    requires id in o.units
    ensures MovedUp(o, id, Org(Lifted(o.units, id), LiftedHomes(o.homes, id, o.units[id].parent)))
  {
  }

  /** The units at or below x. */
  ghost function BranchOf(units: Units, x: Id): set<Id>
    requires Acyclic(units)
  {
    set u | u in units && Above(units, x, u)
  }

  lemma SameBranch(units: Units, x: Id, found: set<Id>)
    requires Acyclic(units) && found <= units.Keys && forall u | u in units :: u in found <==> Above(units, x, u)
    ensures found == BranchOf(units, x)
  {
  }

  /** Some units go, with the domains in them. Nothing else changes. */
  ghost predicate TakenOut(o: Org, gone: set<Id>, n: Org) {
    && (forall u :: u in n.units <==> u in o.units && u !in gone)
    && (forall u | u in n.units :: n.units[u] == o.units[u])
    && (forall d :: d in n.homes <==> d in o.homes && !(o.homes[d].Some? && o.homes[d].value in gone))
    && (forall d | d in n.homes :: n.homes[d] == o.homes[d])
  }

  lemma CutTakesOut(o: Org, gone: set<Id>)
    ensures TakenOut(o, gone, Org(Without(o.units, gone), WithoutHomes(o.homes, gone)))
  {
  }

  datatype Gone = Gone(domains: nat, units: nat)

  lemma BranchInside(units: Units, x: Id)
    requires Acyclic(units)
    ensures Branch(LineageOf(units), x) <= units.Keys
  {
    LinesKeys(units, LineageOf(units));
  }

  /** What is deleted and what is left make up what was there. */
  lemma SplitSize<K, V>(whole: map<K, V>, rest: map<K, V>, gone: set<K>)
    requires gone <= whole.Keys && rest.Keys == whole.Keys - gone
    ensures |whole| == |rest| + |gone|
  {
    MapSize(whole);
    MapSize(rest);
    assert whole.Keys == rest.Keys + gone;
  }

  lemma SplitSizes(units: Units, homes: map<DomainName, Option<Id>>, ids: set<Id>)
    requires ids <= units.Keys
    ensures |units| == |Without(units, ids)| + |ids|
    ensures |homes| == |WithoutHomes(homes, ids)| + |DomainsIn(homes, ids)|
  {
    SplitSize(units, Without(units, ids), ids);
    SplitSize(homes, WithoutHomes(homes, ids), DomainsIn(homes, ids));
  }

  // ------------------------------------------------- the tables, on any data

  lemma SaneNow(o: Org, next: Id)
    requires BelowNext(o.units, next)
    ensures Sane(State(Part(o), next)) && BelowNext(Rest(o).units, next)
  {
  }

  /** Where only the part that hangs has changed, the rest is what it was. */
  lemma RestStays(o: Org, n: Org, q: Org, next: Id)
    requires BelowNext(o.units, next) && Sane(State(q, next)) && Aside(q, Rest(o)) && n == Join(q, Rest(o))
    ensures Part(n) == q && Rest(n) == Rest(o) && BelowNext(n.units, next)
  {
    SaneNow(o, next);
    hide Part, Rest, Aside, Acyclic;
    JoinParts(q, Rest(o));
  }

  lemma KnownAre(units: Units, line: Lineage, rows: seq<Row>)
    requires Complete(Tree(units), line, {}, rows)
    ensures Tree(units) == map u | u in units && u in set r | r in rows :: r.id :: units[u]
  {
    hide Hangs, RowFits, DepthFirst;
    forall u ensures u in IdsOf(rows) <==> u in set r | r in rows :: r.id {
      if u in IdsOf(rows) { var i :| 0 <= i < |rows| && IdsOf(rows)[i] == u; assert rows[i] in rows; }
      if r :| r in rows && r.id == u { var i :| 0 <= i < |rows| && rows[i] == r; assert IdsOf(rows)[i] == u; }
    }
  }

  lemma BelowPart(q: Org, rest: Org, next: Id)
    requires BelowNext(Join(q, rest).units, next) && Aside(q, rest)
    ensures BelowNext(q.units, next)
  {
    forall u | u in q.units ensures u < next { JoinRow(q, rest, u); }
  }

  lemma BelowMoved(units: Units, c: Id, dst: Id, next: Id)
    requires c in units && dst in units
    ensures BelowNext(units, next) ==> BelowNext(WithParent(units, c, Some(dst)), next)
  {
  }

  lemma BelowInherited(units: Units, src: Id, dst: Id, next: Id)
    requires src in units && dst in units
    ensures BelowNext(units, next) ==> BelowNext(Inherited(units, src, dst) - {src}, next)
  {
  }

  /** A unit under a row in a cycle, or a new one whose place leads back to it. */
  ghost predicate Unlisted(o: Org, name: string, parent: Option<Id>, next: Id) {
    HomeIn(parent, Rest(o).units) || (NoTwin(o.units, name, parent) && LeadsBack(o.units, next, parent))
  }

  lemma EnsuredFound(o: Org, id: Id, name: string, parent: Option<Id>, next: Id)
    requires BelowNext(o.units, next) && id in o.units && o.units[id].name == name && o.units[id].parent == parent
    ensures id in Part(o).units <==> !Unlisted(o, name, parent, next)
    ensures id in Part(o).units ==>
      && Part(o).units[id] == o.units[id] && !NoTwin(Part(o).units, name, parent)
      && Step(State(Part(o), next), Ensure(name, parent), State(Part(o), next))
  {
    SaneNow(o, next);
    PartsJoin(o);
    TwinIs(o.units, id, name, parent);
    FoundWhere(o, id);
    hide Part, Rest, Acyclic, NoTwin, LeadsBack;
    if id in Part(o).units {
      JoinRow(Part(o), Rest(o), id);
      TwinIs(Part(o).units, id, name, parent);
    }
  }

  lemma FoundWhere(o: Org, id: Id)
    requires id in o.units
    ensures id in Part(o).units <==> !HomeIn(o.units[id].parent, Rest(o).units)
  {
    hide Hangs;
    HangsIff(o.units, id);
  }

  lemma EnsuredNew(o: Org, name: string, parent: Option<Id>, next: Id)
    requires BelowNext(o.units, next) && NoTwin(o.units, name, parent)
    ensures var (n, hidden) := (o.(units := o.units[next := Bare(name, parent)]), Unlisted(o, name, parent, next));
      && next !in Part(o).units && (next in Part(n).units <==> !hidden)
      && (hidden ==> Part(n).units == AwayFrom(Part(o).units, o.units, next))
      && (!hidden ==>
            && Part(n).units[next] == Bare(name, parent) && Rest(n) == Rest(o) && NoTwin(Part(o).units, name, parent)
            && Step(State(Part(o), next), Ensure(name, parent), State(Part(n), next + 1)))
  {
    hide *;
    SaneNow(o, next);
    PartsJoin(o);
    NeverGiven(o, next);
    BareRow(name, parent);
    AddedWhere(o, next, Bare(name, parent));
    HiddenIs(o, name, parent, next);
    if !Unlisted(o, name, parent, next) {
      JoinTwin(Part(o), Rest(o), name, parent);
      EnsureStep(o, name, parent, next);
    }
  }

  lemma HiddenIs(o: Org, name: string, parent: Option<Id>, next: Id)
    requires NoTwin(o.units, name, parent)
    ensures Unlisted(o, name, parent, next) <==> Hidden(o.units, next, parent)
    ensures !Unlisted(o, name, parent, next) ==> !HomeIn(parent, Rest(o).units)
  {
  }

  lemma BareRow(name: string, parent: Option<Id>)
    ensures Bare(name, parent).parent == parent
  {
  }

  lemma EnsureStep(o: Org, name: string, parent: Option<Id>, next: Id)
    requires Sane(State(Part(o), next)) && NoTwin(Part(o).units, name, parent) && next !in o.units
    requires NoTwin(o.units, name, parent) && !Unlisted(o, name, parent, next)
    ensures var p := Part(o);
      Step(State(p, next), Ensure(name, parent), State(p.(units := p.units[next := Bare(name, parent)]), next + 1))
  {
    hide Reached, Part, Rest, Acyclic;
    if parent.Some? { PartReached(o, next, parent.value); }
  }

  lemma NeverGiven(o: Org, next: Id)
    requires BelowNext(o.units, next)
    ensures next !in o.units && next !in Part(o).units
  {
  }

  /** Looking through all rows for a namesake of one that is listed. */
  lemma TwinJoined(q: Org, rest: Org, after: Lineage, c: Id, dst: Id)
    requires Aside(q, rest) && Lines(q.units, after) && dst in after && c in q.units
    ensures dst in q.units && dst in Join(q, rest).units && c in Join(q, rest).units
      && Join(q, rest).units[c] == q.units[c]
    ensures NoTwin(Join(q, rest).units, q.units[c].name, Some(dst)) <==> NoTwin(q.units, q.units[c].name, Some(dst))
    ensures forall u | u in Join(q, rest).units && Join(q, rest).units[u].parent == Some(dst) ::
      u in q.units && Join(q, rest).units[u] == q.units[u]
  {
    LinesKeys(q.units, after);
    JoinRow(q, rest, c);
    JoinRow(q, rest, dst);
    JoinTwin(q, rest, q.units[c].name, Some(dst));
    forall u | u in q.units ensures Join(q, rest).units[u] == q.units[u] { JoinRow(q, rest, u); }
  }

  /** A unit that stands somewhere is a place to put others. */
  lemma StandingListed(o: Org, name: string, parent: Option<Id>, path: Path, next: Id)
    requires BelowNext(o.units, next) && (parent.Some? ==> Stood(Part(o).units, parent.value, path))
    ensures !Unlisted(o, name, parent, next)
  {
    PartsJoin(o);
    NeverGiven(o, next);
    hide Part, Rest, Acyclic, NoTwin, Reached, LineageOf, FullPath, Grounded;
    if parent.Some? {
      JoinRow(Part(o), Rest(o), parent.value);
      GroundedAway(Part(o).units, next, parent.value);
      PartReached(o, next, parent.value);
    }
  }

  lemma Updates(o: Org, id: Id, row: Unit, next: Id)
    requires BelowNext(o.units, next) && id in Part(o).units
    requires Placeable(Part(o).units, id, row.parent) && Fits(Part(o).units, id, row)
    ensures var n := o.(units := o.units[id := row]);
      && Rest(n) == Rest(o) && BelowNext(n.units, next)
      && Step(State(Part(o), next), Update(id, row), State(Part(n), next))
  {
    hide Part, Rest, Acyclic, Above, NoTwin, Aside;
    var (p, q) := (Part(o), Part(o).(units := Part(o).units[id := row]));
    SaneNow(o, next);
    PartsJoin(o);
    JoinRow(p, Rest(o), id);
    if row.parent.Some? { JoinRow(p, Rest(o), row.parent.value); }
    StepKeepsForest(State(p, next), Update(id, row), State(q, next));
    JoinWrite(p, Rest(o), id, row);
    RestStays(o, o.(units := o.units[id := row]), q, next);
  }

  lemma PartKeys(p: Org, rest: Org)
    ensures p.units.Keys <= Join(p, rest).units.Keys
  {
  }

  class Tables {
    var units: Units
    var homes: map<DomainName, Option<Id>>
    var nextId: Id

    ghost function Model(): Org
      reads this
    {
      Org(units, homes)
    }

    /** What hangs on units at the top: all that is listed. */
    ghost function Now(): State
      reads this
    {
      State(Part(Model()), nextId)
    }

    /** No unit has a number that is yet to be given. */
    ghost predicate Valid()
      reads this
    {
      BelowNext(units, nextId)
    }

    /** The unit of this name at this level, if there is one. */
    method Find(name: string, parent: Option<Id>) returns (found: Option<Id>)
      ensures found.Some? ==>
        found.value in units && units[found.value].name == name && units[found.value].parent == parent
      ensures found.None? <==> NoTwin(units, name, parent)
    {
      var rows := units.Keys;
      while rows != {}
        invariant rows <= units.Keys
        invariant forall u | u in units && u !in rows :: !(units[u].name == name && units[u].parent == parent)
      {
        var u :| u in rows;
        if units[u].name == name && units[u].parent == parent { return Some(u); }
        rows := rows - {u};
      }
      found := None;
    }

    /** The units that are listed, cycles written by hand left out. */
    method Known() returns (known: Units)
      ensures known == Part(Model()).units
    {
      hide Tree, Complete;
      var rows := ListGroups(units, {});
      KnownAre(units, LineageOf(Tree(units)), rows);
      var ids := set r | r in rows :: r.id;
      known := map u | u in units && u in ids :: units[u];
    }

    /** Fold one unit into another: its domains, each of its units, and what
        the target inherits; then it goes. Of the tables, the job's are the part
        that hangs on units at the top. */
    method Fold(src: Id, dst: Id, ghost job: Job, ghost rest: Org)
      returns (moved: nat, merged: nat, ghost q: Org, ghost after: Lineage)
      requires job.src == src && job.dst == dst && Ready(job)
      requires Aside(job.o, rest) && Model() == Join(job.o, rest)
      modifies `units, `homes
      ensures Aside(q, rest) && Model() == Join(q, rest) && Finished(job, q, after, moved, merged)
      ensures BelowNext(old(units), nextId) ==> BelowNext(units, nextId)
      decreases |Branch(job.line, src)|
    {
      hide Between, Finished, Lines, NoTwin, Aside, Join, BelowNext;
      JoinRehome(job.o, rest, src, dst);
      homes := Rehome(homes, src, dst);
      moved, merged, q, after := 0, 0, job.o.(homes := Rehome(job.o.homes, src, dst)), job.line;
      JobStart(job);
      JoinChildren(job.o, rest, src);
      var todo := ChildrenOf(units, src);
      while todo != {}
        invariant Aside(q, rest) && Model() == Join(q, rest) && Between(job, q, after, todo, moved, merged)
        invariant BelowNext(old(units), nextId) ==> BelowNext(units, nextId)
        decreases |todo|
      {
        var c :| c in todo;
        JobNext(job, q, after, todo, moved, merged, c);
        TwinJoined(q, rest, after, c, dst);
        var twin := Find(units[c].name, Some(dst));
        if twin.Some? {
          ghost var (m, last) := (q, after);
          var more, gone;
          more, gone, m, last := Fold(c, twin.value, Inner(job, q, after, todo, moved, merged, c, twin.value), rest);
          JobTwin(job, q, after, todo, moved, merged, c, twin.value, m, last, more, gone);
          moved, merged, q, after := moved + more, merged + 1 + gone, m, last;
        } else {
          JobMove(job, q, after, todo, moved, merged, c);
          JoinMove(q, rest, c, dst);
          BelowMoved(units, c, dst, nextId);
          units := WithParent(units, c, Some(dst));
          moved, q, after := moved + 1, q.(units := WithParent(q.units, c, Some(dst))),
            MovedLines(after, c, after[dst]);
        }
        todo := todo - {c};
      }
      JobEnd(job, q, after, moved, merged);
      JoinEnd(q, rest, src, dst);
      BelowInherited(units, src, dst, nextId);
      units := Inherited(units, src, dst) - {src};
      q, after := q.(units := Inherited(q.units, src, dst) - {src}), CutLines(after, src);
    }

    /** Merge one unit into another, unless one of them is unknown, both are
        the same, or the target is in the source's own branch. */
    method MergeGroup(source: Id, target: Id) returns (result: MergeResult)
      requires Valid()
      modifies `units, `homes
      ensures Valid() && Rest(Model()) == old(Rest(Model()))
      ensures result.UnknownUnit? <==> source !in old(Now().org.units) || target !in old(Now().org.units)
      ensures !result.UnknownUnit? ==>
        && (result.IntoItself? <==> source == target)
        && (result.IntoOwnBranch? <==> source != target && Above(old(Now().org.units), source, target))
      ensures !result.Merged? ==> units == old(units) && homes == old(homes)
      ensures result.Merged? ==>
        && Step(old(Now()), Merge(source, target), Now())
        && result.domains == |DomainsIn(old(homes), Branch(LineageOf(old(Now().org.units)), source))|
        && Shrunk(old(Now().org), Now().org, source, result.merged)
        && Merges(old(Now().org), source, target, Now().org, result.moved, result.merged)
        && Counted(old(Now().org), Now().org, source, target, result.moved)
        && StillWhole(old(Now().org), Now().org, source, target)
        && MergedTree(old(Now().org), Now().org, source, target)
    {
      hide Leads, Counted;
      hide LineageOf, Done, Lines, Acyclic, Shrunk, StillWhole, MergedTree, Branch, Reached, PathOf, BelowNext, Part,
        Rest, Aside, Join;
      ghost var (o, p, rest) := (Model(), Part(Model()), Rest(Model()));
      SaneNow(o, nextId);
      PartsJoin(o);
      var known := Known();
      if source !in known || target !in known { return UnknownUnit; }
      if source == target { return IntoItself; }
      var branch := Descendants(known, source);
      BranchReached(known, source, branch);
      if target in branch { return IntoOwnBranch; }
      var domains := |DomainsIn(homes, branch)|;
      ghost var e := Errand(PathsOfMerge(p.units, source, target), source, target);
      var moved, merged;
      ghost var (q, after) := (p, LineageOf(p.units));
      ghost var job := Job(p, LineageOf(p.units), source, target, e, [], 0, 0);
      moved, merged, q, after := Fold(source, target, job, rest);
      ShrunkBy(p, q, after, source, target, e, moved, merged);
      BelowPart(q, rest, nextId);
      RestStays(o, Model(), q, nextId);
      StillWholeBy(p, q, after, source, target, e.r, moved, merged);
      CountedBy(p, q, after, source, target, moved, merged);
      MergedTreeBy(p, q, after, source, target, moved, merged);
      result := Merged(domains, moved, merged);
    }

    /** Find this name below this parent, or add it. The unit is listed
        unless its place is in a cycle, or leads back to its own new number. */
    method EnsureGroup(name: string, parent: Option<Id>) returns (id: Id)
      requires Valid()
      modifies `units, `nextId
      ensures Valid() && id in units && units[id].name == name && units[id].parent == parent
      ensures if NoTwin(old(units), name, parent)
              then id == old(nextId) && nextId == id + 1
                && units == old(units)[id := Unit(name, parent, None, None, None)]
              else units == old(units) && nextId == old(nextId)
      ensures id in Now().org.units <==> !Unlisted(old(Model()), name, parent, old(nextId))
      ensures id in Now().org.units ==>
        && Step(old(Now()), Ensure(name, parent), Now()) && Rest(Model()) == old(Rest(Model()))
        && Now().org.units[id] == units[id]
        && (id in old(Now().org.units) <==> !NoTwin(old(Now().org.units), name, parent))
      ensures id !in Now().org.units && NoTwin(old(units), name, parent) ==>
        Now().org.units == AwayFrom(old(Now().org.units), old(units), id)
      ensures id in old(Now().org.units) ==> units == old(units)
    {
      hide Acyclic, NoTwin, Part, Rest, Step, Unlisted;
      ghost var o := Model();
      var found := Find(name, parent);
      if found.Some? {
        EnsuredFound(o, found.value, name, parent, nextId);
        return found.value;
      }
      EnsuredNew(o, name, parent, nextId);
      id := nextId;
      units := units[id := Bare(name, parent)];
      nextId := nextId + 1;
    }

    /** Walk down a path, adding the levels that are not there: nothing else is
        added, and nothing at all where the whole path stands. */
    method EnsurePath(parts: seq<string>) returns (id: Option<Id>)
      requires Valid()
      modifies `units, `nextId
      ensures Valid() && Rest(Model()) == old(Rest(Model()))
      ensures id.None? <==> parts == []
      ensures id.Some? ==> Stood(Now().org.units, id.value, parts)
      ensures Grown(old(Now().org.units), Now().org.units, id)
      ensures NamesApart(old(Now().org.units)) ==> NamesApart(Now().org.units)
      ensures Whole(old(Now().org)) ==> Whole(Now().org)
      ensures NamesApart(old(Now().org.units)) ==>
        forall u: Id | Stood(old(Now().org.units), u, parts) && parts != [] :: units == old(units) && id == Some(u)
    {
      hide Acyclic, NoTwin, Stood, StandsAt, Grown, NamesApart, Whole, Above, LineageOf, Step, Part, Rest, Unlisted;
      ghost var (o, was, rest) := (Now().org.units, units, Rest(Model()));
      id := None;
      GrownHolds(o);
      for i := 0 to |parts|
        invariant Valid() && Rest(Model()) == rest && Acyclic(o)
        invariant id.None? <==> i == 0
        invariant id.Some? ==> id.value in Now().org.units && Stood(Now().org.units, id.value, parts[..i])
        invariant Grown(o, Now().org.units, id)
        invariant NamesApart(o) ==> NamesApart(Now().org.units)
        invariant Whole(old(Now().org)) ==> Whole(Now().org)
        invariant NamesApart(o) ==> forall u: Id | Stood(o, u, parts) :: units == was
      {
        ghost var (before, last) := (Now(), id);
        if u: Id :| NamesApart(o) && Stood(o, u, parts) { LevelStands(o, u, parts, i, id); }
        StandingListed(Model(), parts[i], id, parts[..i], nextId);
        var unit := EnsureGroup(parts[i], id);
        PathGrows(o, before, Now(), last, parts[i], unit, parts[..i]);
        assert parts[..i + 1] == parts[..i] + [parts[i]];
        id := Some(unit);
      }
      assert parts[..|parts|] == parts;
      if id.Some? {
        forall u: Id | NamesApart(o) && Stood(o, u, parts) ensures id == Some(u) { OneStands(o, u, id.value, parts); }
      }
    }

    /** Change a unit: its name, its place, its settings. Refused where the
        place is unknown or below the unit itself, the contact is unknown, the
        interval is out of range, or another unit has the name there. */
    method UpdateGroup(id: Id, change: Change, contacts: set<nat>) returns (result: UpdateResult)
      requires Valid()
      modifies `units
      ensures Valid() && Rest(Model()) == old(Rest(Model()))
      ensures result.NoSuchUnit? <==> id !in old(Now().org.units)
      ensures result != Updated ==> units == old(units)
      ensures result.NoSuchContact? ==>
        change.contact.Some? && change.contact.value.Some? && change.contact.value.value !in contacts
      ensures result.BadInterval? ==>
        change.minutes.Some? && change.minutes.value.Some? && !(5 <= change.minutes.value.value <= 43200)
      ensures result.Updated? ==>
        && (change.contact.Some? && change.contact.value.Some? ==> change.contact.value.value in contacts)
        && (change.minutes.Some? && change.minutes.value.Some? ==> 5 <= change.minutes.value.value <= 43200)
      ensures id in old(Now().org.units) ==>
        var known := old(Now().org.units);
        var parent := change.parent.GetOr(known[id].parent);
        && (result.NoSuchParent? <==> parent.Some? && parent.value !in known)
        && (result.UnderItself? <==> parent.Some? && parent.value in known && Above(known, id, parent.value))
        && (result.NoSuchContact? <==> Placeable(known, id, parent) && !ContactKnown(change, contacts))
        && (result.BadInterval? <==>
              Placeable(known, id, parent) && ContactKnown(change, contacts) && !IntervalFine(change))
        && (result.NameTaken? ==>
              && IntervalFine(change)
              && var row := Changed(known[id], change); !NoTwin(known - {id}, row.name, row.parent))
        && (result.Updated? ==>
              && id in units && AsAsked(known[id], change, units[id]) && units == old(units)[id := units[id]])
        && (result.Updated? ==> IntervalFine(change) && Step(old(Now()), Update(id, Changed(known[id], change)), Now()))
    {
      hide Acyclic, Above, Reached, NoTwin, LineageOf, Part, Rest, Aside, Join, BelowNext, AsAsked, Step;
      ghost var (o, p, rest) := (Model(), Part(Model()), Rest(Model()));
      SaneNow(o, nextId);
      PartsJoin(o);
      var known := Known();
      if id !in known { return NoSuchUnit; }
      JoinRow(p, rest, id);
      var parent := change.parent.GetOr(known[id].parent);
      if parent.Some? {
        if parent.value !in known { return NoSuchParent; }
        var below := Descendants(known, id);
        BranchReached(known, id, below);
        if parent.value in below { return UnderItself; }
        JoinRow(p, rest, parent.value);
      }
      if !ContactKnown(change, contacts) { return NoSuchContact; }
      if !IntervalFine(change) { return BadInterval; }
      var row := Changed(units[id], change);
      ChangedAsAsked(units[id], change);
      JoinTwin(p, rest, row.name, row.parent);
      var clash := Find(row.name, row.parent);
      if clash.Some? && clash.value != id {
        JoinRow(p, rest, clash.value);
        TwinIs(p.units - {id}, clash.value, row.name, row.parent);
        return NameTaken;
      }
      if clash.None? { FewerNoTwin(p.units, id, row.name, row.parent); }
      Updates(o, id, row, nextId);
      units := units[id := row];
      result := Updated;
    }

    /** Delete a unit: with all its branch and the domains in it, or else its
        units and domains go up to its parent. */
    method DeleteGroup(id: Id, withContents: bool) returns (gone: Option<Gone>)
      requires Valid()
      modifies `units, `homes
      ensures Valid() && Rest(Model()) == old(Rest(Model()))
      ensures gone.None? <==> id !in old(Now().org.units)
      ensures gone.None? ==> units == old(units) && homes == old(homes)
      ensures gone.Some? && !withContents ==> Step(old(Now()), Lift(id), Now()) && gone.value == Gone(0, 1)
      ensures gone.Some? && !withContents ==> id in old(units) && MovedUp(old(Model()), id, Model())
      ensures gone.Some? && withContents ==>
        && Step(old(Now()), Delete(id), Now())
        && TakenOut(old(Model()), BranchOf(old(Now().org.units), id), Model())
        && |old(homes)| == |homes| + gone.value.domains && |old(units)| == |units| + gone.value.units
    {
      hide Acyclic, Reached, LineageOf, Part, Rest, Aside, Join, BelowNext, MovedUp, TakenOut, Lifted, LiftedHomes;
      ghost var (o, p, rest) := (Model(), Part(Model()), Rest(Model()));
      SaneNow(o, nextId);
      PartsJoin(o);
      var known := Known();
      if id !in known { return None; }
      JoinRow(p, rest, id);
      if withContents {
        var ids := Descendants(known, id);
        BranchReached(known, id, ids);
        BranchInside(known, id);
        var domains := DomainsIn(homes, ids);
        gone := Some(Gone(|domains|, |ids|));
        PartKeys(p, rest);
        SplitSizes(units, homes, ids);
        JoinCut(p, rest, ids);
        CutTakesOut(o, ids);
        SameBranch(p.units, id, ids);
        homes := WithoutHomes(homes, ids);
        units := Without(units, ids);
        ghost var q := Org(Without(p.units, ids), WithoutHomes(p.homes, ids));
        StepKeepsForest(State(p, nextId), Delete(id), State(q, nextId));
        RestStays(o, Model(), q, nextId);
      } else {
        JoinLift(p, rest, id);
        LiftMovesUp(o, id);
        homes := LiftedHomes(homes, id, units[id].parent);
        units := Lifted(units, id);
        gone := Some(Gone(0, 1));
        ghost var q := Org(Lifted(p.units, id), LiftedHomes(p.homes, id, p.units[id].parent));
        StepKeepsForest(State(p, nextId), Lift(id), State(q, nextId));
        RestStays(o, Model(), q, nextId);
      }
    }
  }
}
