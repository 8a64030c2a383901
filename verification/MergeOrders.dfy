/** Where the source's branch repeats the way to it, the order in which a
    merge takes up children decides what is left and what is counted
    (domain_portfolio.py, merge_group): one table, and two runs on it. */
module MergeOrders {
  import opened Common
  import opened Forest
  import opened Merge
  import opened MergeSteps
  import opened MergeAnchor
  import opened MergeTheorem
  import opened MergeRun

  function Named(name: string, parent: Id): Unit {
    Unit(name, Some(parent), None, None, None)
  }

  /** Org with Sales and East; in Sales another Sales and East; in the inner
      Sales an East with a Desk. Unit 2 is merged into unit 1. */
  function Rows(): Units {
    map[1 := Unit("Org", None, None, None, None), 2 := Named("Sales", 1), 3 := Named("East", 1), 4 := Named("Sales", 2),
        5 := Named("East", 2), 6 := Named("East", 4), 7 := Named("Desk", 6)]
  }

  function At(units: Units, open: seq<Pending>, moved: nat, merged: nat): Machine {
    Machine(Org(units, map[]), open, moved, merged)
  }

  lemma Begins()
    ensures Opened(Org(Rows(), map[]), [], 2, 1, 0, 0) == At(Rows(), [] + [Pending(2, 1, {4, 5})], 0, 0)
  {
    assert ChildrenOf(Rows(), 2) == {4, 5};
  }

  function RowLines(): Lineage {
    map[1 := [1], 2 := [1, 2], 3 := [1, 3], 4 := [1, 2, 4], 5 := [1, 2, 5], 6 := [1, 2, 4, 6], 7 := [1, 2, 4, 6, 7]]
  }

  lemma RowsAreForest()
    ensures Lines(Rows(), RowLines())
  {
  }

  /** The way from the Org to the source is found again below the source. */
  lemma RowsRepeat()
    ensures Lines(Rows(), RowLines()) && 2 in Rows() && 1 in Rows() && Repeats(Rows(), RowLines(), 2, 1)
  {
    RowsAreForest();
    hide Lines, PathOf;
    PathOfChild(Rows(), RowLines(), 1);
    PathOfChild(Rows(), RowLines(), 2);
    PathOfChild(Rows(), RowLines(), 4);
    assert ["Org", "Sales", "Sales"] == ["Org", "Sales"] + ["Org", "Sales"][1..];
    assert 4 in Rows();
  }

  // ------------------------------------------------- the inner Sales comes first

  function OnceMoved(): Units {
    map[1 := Unit("Org", None, None, None, None), 2 := Named("Sales", 1), 3 := Named("East", 1), 5 := Named("East", 2),
        7 := Named("Desk", 5)]
  }

  function TwiceMoved(): Units {
    map[1 := Unit("Org", None, None, None, None), 3 := Named("East", 1), 7 := Named("Desk", 3)]
  }

  function DeskMoved(): Units {
    Rows()[7 := Named("Desk", 5)]
  }

  /** The inner Sales is folded into the source itself, its East into the one
      beside it, where the Desk goes. */
  lemma SalesFirst()
    ensures Leads(At(Rows(), [] + [Pending(2, 1, {4, 5})], 0, 0),
                  At(DeskMoved(), [] + [Pending(2, 1, {5})] + [Pending(4, 2, {})] + [Pending(6, 5, {})], 1, 0))
  {
    var start := At(Rows(), [] + [Pending(2, 1, {4, 5})], 0, 0);
    var outer := [] + [Pending(2, 1, {5})];
    LeadsSelf(start);
    hide Leads, At;
    assert ChildrenOf(Rows(), 4) == {6} && ChildrenOf(Rows(), 6) == {7};
    Fold(start, Rows(), [], Pending(2, 1, {4, 5}), {5}, 0, 0, 4, 2, {6});
    Fold(start, Rows(), outer, Pending(4, 2, {6}), {}, 0, 0, 6, 5, {7});
    Move(start, Rows(), outer + [Pending(4, 2, {})], Pending(6, 5, {7}), {}, 0, 0, 7, DeskMoved());
  }

  lemma SalesGone()
    ensures Leads(At(DeskMoved(), [] + [Pending(2, 1, {5})] + [Pending(4, 2, {})] + [Pending(6, 5, {})], 1, 0),
                  At(OnceMoved(), [] + [Pending(2, 1, {5})], 1, 2))
  {
    var outer := [] + [Pending(2, 1, {5})];
    var start := At(DeskMoved(), outer + [Pending(4, 2, {})] + [Pending(6, 5, {})], 1, 0);
    LeadsSelf(start);
    hide Leads, At;
    Close(start, DeskMoved(), outer + [Pending(4, 2, {})], Pending(6, 5, {}), 1, 0, DeskMoved() - {6});
    Close(start, DeskMoved() - {6}, outer, Pending(4, 2, {}), 1, 1, OnceMoved());
  }

  /** Then the outer East is folded into its namesake, and the Desk moves on. */
  lemma EastSecond()
    ensures Leads(At(OnceMoved(), [] + [Pending(2, 1, {5})], 1, 2), At(TwiceMoved(), [], 2, 3))
  {
    var start := At(OnceMoved(), [] + [Pending(2, 1, {5})], 1, 2);
    var outer := [] + [Pending(2, 1, {})];
    var moved := OnceMoved()[7 := Named("Desk", 3)];
    LeadsSelf(start);
    hide Leads, At;
    assert ChildrenOf(OnceMoved(), 5) == {7};
    Fold(start, OnceMoved(), [], Pending(2, 1, {5}), {}, 1, 2, 5, 3, {7});
    Move(start, OnceMoved(), outer, Pending(5, 3, {7}), {}, 1, 2, 7, moved);
    Close(start, moved, outer, Pending(5, 3, {}), 2, 2, moved - {5});
    Close(start, moved - {5}, [], Pending(2, 1, {}), 2, 3, TwiceMoved());
  }

  // ----------------------------------------------------- the outer East comes first

  function Dangling(): Units {
    map[1 := Unit("Org", None, None, None, None), 3 := Named("East", 1), 6 := Named("East", 2), 7 := Named("Desk", 6)]
  }

  /** The outer East goes into its namesake. */
  lemma EastFirst()
    ensures Leads(At(Rows(), [] + [Pending(2, 1, {4, 5})], 0, 0), At(Rows() - {5}, [] + [Pending(2, 1, {4})], 0, 1))
  {
    var start := At(Rows(), [] + [Pending(2, 1, {4, 5})], 0, 0);
    LeadsSelf(start);
    hide Leads, At;
    assert ChildrenOf(Rows(), 5) == {};
    Fold(start, Rows(), [], Pending(2, 1, {4, 5}), {4}, 0, 0, 5, 3, {});
    Close(start, Rows(), [] + [Pending(2, 1, {4})], Pending(5, 3, {}), 0, 0, Rows() - {5});
  }

  function EastMoved(): Units {
    (Rows() - {5})[6 := Named("East", 2)]
  }

  /** The inner one finds none left, and moves to the source ... */
  lemma SalesSecond()
    ensures Leads(At(Rows() - {5}, [] + [Pending(2, 1, {4})], 0, 1),
                  At(EastMoved(), [] + [Pending(2, 1, {})] + [Pending(4, 2, {})], 1, 1))
  {
    var start := At(Rows() - {5}, [] + [Pending(2, 1, {4})], 0, 1);
    LeadsSelf(start);
    hide Leads, At;
    assert ChildrenOf(Rows() - {5}, 4) == {6};
    Fold(start, Rows() - {5}, [], Pending(2, 1, {4}), {}, 0, 1, 4, 2, {6});
    Move(start, Rows() - {5}, [] + [Pending(2, 1, {})], Pending(4, 2, {6}), {}, 0, 1, 6, EastMoved());
  }

  /** ... which is then deleted. */
  lemma SourceGone()
    ensures Leads(At(EastMoved(), [] + [Pending(2, 1, {})] + [Pending(4, 2, {})], 1, 1), At(Dangling(), [], 1, 2))
  {
    var outer := [] + [Pending(2, 1, {})];
    var start := At(EastMoved(), outer + [Pending(4, 2, {})], 1, 1);
    LeadsSelf(start);
    hide Leads, At;
    Close(start, EastMoved(), outer, Pending(4, 2, {}), 1, 1, EastMoved() - {4});
    Close(start, EastMoved() - {4}, [], Pending(2, 1, {}), 1, 2, Dangling());
  }

  /** One table and two outcomes: in the first the counter says two where one
      unit ends elsewhere, which moved twice; in the second it says one. */
  lemma OrderDecides()
    ensures var o := Org(Rows(), map[]);
      && Merges(o, 2, 1, Org(TwiceMoved(), map[]), 2, 3) && |Relocated(o.units, TwiceMoved())| == 1
      && Merges(o, 2, 1, Org(Dangling(), map[]), 1, 2) && |Relocated(o.units, Dangling())| == 1
  {
    hide Leads, Opened;
    var start := At(Rows(), [] + [Pending(2, 1, {4, 5})], 0, 0);
    var once := At(OnceMoved(), [] + [Pending(2, 1, {5})], 1, 2);
    Begins();
    SalesFirst();
    SalesGone();
    EastSecond();
    LeadsOn(start, At(DeskMoved(), [] + [Pending(2, 1, {5})] + [Pending(4, 2, {})] + [Pending(6, 5, {})], 1, 0), once);
    LeadsOn(start, once, At(TwiceMoved(), [], 2, 3));
    EastFirst();
    SalesSecond();
    SourceGone();
    var last := At(EastMoved(), [] + [Pending(2, 1, {})] + [Pending(4, 2, {})], 1, 1);
    LeadsOn(start, At(Rows() - {5}, [] + [Pending(2, 1, {4})], 0, 1), last);
    LeadsOn(start, last, At(Dangling(), [], 1, 2));
    assert Relocated(Rows(), TwiceMoved()) == {7} && Relocated(Rows(), Dangling()) == {6};
  }

  // ---------------------------------------------------------- one step of a run

  lemma Fold(start: Machine, units: Units, outer: seq<Pending>, top: Pending, left: set<Id>, moved: nat, merged: nat,
             c: Id, twin: Id, children: set<Id>)
    requires Leads(start, At(units, outer + [top], moved, merged)) && c in top.todo && left == top.todo - {c}
    requires c in units && twin in units && units[twin].name == units[c].name && units[twin].parent == Some(top.dst)
    requires children == ChildrenOf(units, c)
    ensures Leads(start, At(units, outer + [top.(todo := left)] + [Pending(c, twin, children)], moved, merged))
  {
    hide Leads, ChildrenOf;
    var (a, b) := (At(units, outer + [top], moved, merged),
                   At(units, outer + [top.(todo := left)] + [Pending(c, twin, children)], moved, merged));
    assert Rehome(map[], c, twin) == map[];
    assert Handled(a.open, c) == outer + [top.(todo := left)];
    assert Folds(a, b, c, twin);
    LeadsNext(start, a, b);
  }

  lemma Move(start: Machine, units: Units, outer: seq<Pending>, top: Pending, left: set<Id>, moved: nat, merged: nat,
             c: Id, after: Units)
    requires Leads(start, At(units, outer + [top], moved, merged)) && c in top.todo && left == top.todo - {c}
    requires c in units && NoTwin(units, units[c].name, Some(top.dst)) && after == WithParent(units, c, Some(top.dst))
    ensures Leads(start, At(after, outer + [top.(todo := left)], moved + 1, merged))
  {
    hide Leads, NoTwin, WithParent;
    var (a, b) := (At(units, outer + [top], moved, merged), At(after, outer + [top.(todo := left)], moved + 1, merged));
    assert Handled(a.open, c) == outer + [top.(todo := left)];
    assert Moves(a, b, c);
    LeadsNext(start, a, b);
  }

  lemma Close(start: Machine, units: Units, outer: seq<Pending>, top: Pending, moved: nat, merged: nat, after: Units)
    requires Leads(start, At(units, outer + [top], moved, merged)) && top.todo == {}
    requires top.src in units && top.dst in units && after == units - {top.src}
    requires units[top.src].registrar.None? && units[top.src].contact.None?
    ensures Leads(start, At(after, outer, moved, merged + if outer == [] then 0 else 1))
  {
    NothingInherited(units, top.src, top.dst);
    hide Leads, Inherited;
    var (a, b) := (At(units, outer + [top], moved, merged),
                   At(after, outer, moved, merged + if outer == [] then 0 else 1));
    assert Outer(a.open) == outer;
    assert Closes(a, b);
    LeadsNext(start, a, b);
  }

  lemma NothingInherited(units: Units, src: Id, dst: Id)
    requires src in units && dst in units && units[src].registrar.None? && units[src].contact.None?
    ensures Inherited(units, src, dst) == units
  {
    assert units[dst].registrar.Or(None) == units[dst].registrar && units[dst].contact.Or(None) == units[dst].contact;
  }
}
